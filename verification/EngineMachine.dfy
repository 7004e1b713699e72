/** One Engine.IO client under every interleaving: calls of `open()`, `close()` and
    `sync_close()` on any threads, handshakes and losses reported by the transport, and the
    heartbeat workers.  A step is one access to an atomic flag or one critical section; the
    start of a worker is two steps under `heartbeat_thread_mutex_`. */
module EngineMachine {
  import opened Options
  import opened EngineCore

  /** A heartbeat worker can itself call into the client, from the handlers it notifies. */
  datatype Thread = External(n: nat) | Worker(n: nat)

  /** What follows `stop_heartbeat_timer`. */
  datatype Goal = ToGreet | ToLoss | ToSync

  datatype Pc =
    | Tested(call: nat)              // open(): past its test
    | Cleared(call: nat)             // open(): open_ cleared, connect is next
    | Marked(sync: bool)             // close(): mark set, stop request is next
    | CloseNotifies(sync: bool)
    | CloseShuts(sync: bool)         // close(): open_ is cleared next
    | Stops(goal: Goal)              // stop_heartbeat_timer: request is next
    | StopNotifies(goal: Goal)
    | Takes(goal: Goal)              // stop_heartbeat_timer: takes the thread handle next
    | Joins(worker: nat, goal: Goal)
    | Greets                         // handshake: open_ is set next
    | Tests                          // start_heartbeat_timer: lock and test are next
    | Starting                       // start_heartbeat_timer: test passed, lock held

  datatype Phase =
    | Top                            // at the loop condition
    | Inside                         // about to wait
    | Asleep
    | Roused                         // notified, to look at the wait's condition again
    | Reporting                      // silence seen: handlers and transport close are next
    | Returning

  datatype State = State(
    flags: Flags,
    handle: Option<nat>,             // heartbeat_thread_
    holder: Option<Thread>,          // a starter that owns heartbeat_thread_mutex_
    threads: map<Thread, Pc>,
    workers: map<nat, Phase>,        // threads that have not ended
    // history
    passed: nat,                     // open calls that passed their test, which number them
    connected: set<nat>,             // open calls that reached the transport
    detached: set<nat>,
    shut: bool,                      // the close that set the mark has cleared open_
    crashed: bool)                   // a joinable handle was overwritten: std::terminate

  datatype Step =
    | BeginOpen(thread: Thread)
    | OpenClears(thread: Thread)
    | OpenConnects(thread: Thread)
    | BeginClose(thread: Thread, sync: bool)
    | Requests(thread: Thread)
    | Notifies(thread: Thread)
    | Shuts(thread: Thread)
    | BeginHandshake(thread: Thread)
    | BeginLoss(thread: Thread)
    | TakesHandle(thread: Thread)
    | Joined(thread: Thread)
    | Greet(thread: Thread)
    | TestsStart(thread: Thread)
    | StartsWorker(thread: Thread)
    | WorkerTests(worker: nat)
    | WorkerWaits(worker: nat)
    | WorkerTimesOut(worker: nat, silent: bool)
    | WorkerLooks(worker: nat)
    | WorkerReported(worker: nat)    // the transport did not report the loss on this thread
    | WorkerEnds(worker: nat)

  function Init(): State {
    State(Fresh().flags, None, None, map[], map[], 0, {}, {}, false, false)
  }

  /** Not inside a call; a worker calls out only once it has left its loop. */
  predicate Free(s: State, t: Thread) {
    t !in s.threads && (t.Worker? ==> t.n in s.workers && (s.workers[t.n].Reporting? || s.workers[t.n].Returning?))
  }

  predicate At(s: State, w: nat, phase: Phase) {
    w in s.workers && s.workers[w] == phase
  }

  predicate Enabled(s: State, a: Step) {
    match a
    case BeginOpen(t) => Free(s, t)
    case OpenClears(t) => t in s.threads && s.threads[t].Tested?
    case OpenConnects(t) => t in s.threads && s.threads[t].Cleared?
    case BeginClose(t, _) => Free(s, t)
    case Requests(t) => t in s.threads && (s.threads[t].Marked? || s.threads[t].Stops?) && s.holder.None?
    case Notifies(t) => t in s.threads && (s.threads[t].CloseNotifies? || s.threads[t].StopNotifies?)
    case Shuts(t) => t in s.threads && s.threads[t].CloseShuts?
    case BeginHandshake(t) => Free(s, t) && t.External? && s.connected != {}
    case BeginLoss(t) => Free(s, t) && (t.Worker? ==> s.workers[t.n].Reporting?)
    case TakesHandle(t) => t in s.threads && s.threads[t].Takes? && s.holder.None?
    case Joined(t) => t in s.threads && s.threads[t].Joins? && s.threads[t].worker !in s.workers
    case Greet(t) => t in s.threads && s.threads[t].Greets?
    case TestsStart(t) => t in s.threads && s.threads[t].Tests? && s.holder.None?
    case StartsWorker(t) => t in s.threads && s.threads[t].Starting?
    case WorkerTests(w) => At(s, w, Top)
    case WorkerWaits(w) => At(s, w, Inside)
    case WorkerTimesOut(w, _) => At(s, w, Asleep)
    case WorkerLooks(w) => At(s, w, Roused)
    case WorkerReported(w) => At(s, w, Reporting) && Worker(w) !in s.threads
    case WorkerEnds(w) => At(s, w, Returning) && Worker(w) !in s.threads
  }

  function Goes(s: State, t: Thread, pc: Pc): State {
    s.(threads := s.threads[t := pc])
  }

  function Leaves(s: State, t: Thread): State {
    s.(threads := s.threads - {t})
  }

  /** `stop_heartbeat_timer` has returned. */
  function Resumes(s: State, t: Thread, goal: Goal): State {
    if goal.ToGreet? then Goes(s, t, Greets) else Leaves(s, t)
  }

  function Turns(s: State, w: nat, phase: Phase): State {
    s.(workers := s.workers[w := phase])
  }

  function ApplyBeginOpen(s: State, t: Thread): State {
    if s.flags.closing then s else Goes(s, t, Tested(s.passed)).(passed := s.passed + 1)
  }

  function ApplyBeginClose(s: State, t: Thread, sync: bool): State {
    var (f, first) := Mark(s.flags);
    var marked := s.(flags := f);
    if first then Goes(marked, t, Marked(sync)) else if sync then Goes(marked, t, Stops(ToSync)) else marked
  }

  function ApplyRequests(s: State, t: Thread): State
    requires Enabled(s, Requests(t))
  {
    var pc := s.threads[t];
    Goes(s, t, if pc.Marked? then CloseNotifies(pc.sync) else StopNotifies(pc.goal)).(flags := RequestStop(s.flags))
  }

  /** `notify_all`. */
  function Rouse(workers: map<nat, Phase>): (r: map<nat, Phase>)
    ensures r.Keys == workers.Keys
    ensures forall w :: w in r ==> r[w] == if workers[w].Asleep? then Roused else workers[w]
  {
    map w | w in workers :: if workers[w].Asleep? then Roused else workers[w]
  }

  function ApplyNotifies(s: State, t: Thread): State
    requires Enabled(s, Notifies(t))
  {
    var pc := s.threads[t];
    Goes(s, t, if pc.CloseNotifies? then CloseShuts(pc.sync) else Takes(pc.goal)).(workers := Rouse(s.workers))
  }

  function ApplyShuts(s: State, t: Thread): State
    requires Enabled(s, Shuts(t))
  {
    var done := s.(flags := SetOpen(s.flags, false), shut := true);
    if s.threads[t].sync then Goes(done, t, Stops(ToSync)) else Leaves(done, t)
  }

  /** A worker reports a loss once: its transport close is its last action. */
  function ApplyBeginLoss(s: State, t: Thread): State {
    var lost := Goes(s, t, Stops(ToLoss)).(flags := SetOpen(s.flags, false));
    if t.Worker? then Turns(lost, t.n, Returning) else lost
  }

  /** A thread takes the handle to join it, but a worker detaches its own. */
  function ApplyTakes(s: State, t: Thread): State
    requires Enabled(s, TakesHandle(t))
  {
    var goal := s.threads[t].goal;
    match s.handle
    case None => Resumes(s, t, goal)
    case Some(w) =>
      var taken := s.(handle := None);
      if t == Worker(w) then Resumes(taken, t, goal).(detached := s.detached + {w})
      else Goes(taken, t, Joins(w, goal))
  }

  function ApplyTestsStart(s: State, t: Thread): State {
    if MayStart(s.flags) then Goes(s, t, Starting).(holder := Some(t)) else Leaves(s, t)
  }

  function ApplyStarts(s: State, t: Thread): State {
    var w := s.flags.heartbeats;
    Leaves(s, t).(holder := None, handle := Some(w), workers := s.workers[w := Top],
                  flags := StartWorker(s.flags), crashed := s.crashed || s.handle.Some?)
  }

  /** Whether the worker's wait would end now. */
  predicate Over(f: Flags) {
    f.closing || f.stop
  }

  function Apply(s: State, a: Step): State
    requires Enabled(s, a)
  {
    match a
    case BeginOpen(t) => ApplyBeginOpen(s, t)
    case OpenClears(t) => Goes(s, t, Cleared(s.threads[t].call)).(flags := SetOpen(s.flags, false))
    case OpenConnects(t) => Leaves(s, t).(connected := s.connected + {s.threads[t].call})
    case BeginClose(t, sync) => ApplyBeginClose(s, t, sync)
    case Requests(t) => ApplyRequests(s, t)
    case Notifies(t) => ApplyNotifies(s, t)
    case Shuts(t) => ApplyShuts(s, t)
    case BeginHandshake(t) => Goes(s, t, Stops(ToGreet))
    case BeginLoss(t) => ApplyBeginLoss(s, t)
    case TakesHandle(t) => ApplyTakes(s, t)
    case Joined(t) => Resumes(s, t, s.threads[t].goal)
    case Greet(t) => Goes(s, t, Tests).(flags := SetOpen(s.flags, true))
    case TestsStart(t) => ApplyTestsStart(s, t)
    case StartsWorker(t) => ApplyStarts(s, t)
    case WorkerTests(w) => Turns(s, w, if s.flags.open && !Over(s.flags) then Inside else Returning)
    case WorkerWaits(w) => Turns(s, w, if Over(s.flags) then Returning else Asleep)
    case WorkerTimesOut(w, silent) =>
      Turns(s, w, if Over(s.flags) then Returning else if silent then Reporting else Top)
    case WorkerLooks(w) => Turns(s, w, if Over(s.flags) then Returning else Asleep)
    case WorkerReported(w) => Turns(s, w, Returning)
    case WorkerEnds(w) => s.(workers := s.workers - {w})
  }

  predicate Runnable(s: State, steps: seq<Step>)
    decreases |steps|
  {
    steps == [] || (Enabled(s, steps[0]) && Runnable(Apply(s, steps[0]), steps[1..]))
  }

  function Run(s: State, steps: seq<Step>): State
    requires Runnable(s, steps)
    decreases |steps|
  {
    if steps == [] then s else Run(Apply(s, steps[0]), steps[1..])
  }

  // ----- What every run keeps -----

  predicate Opener(pc: Pc) {
    pc.Tested? || pc.Cleared?
  }

  /** An open call that is past its test and has not reached the transport. */
  predicate Pending(s: State, call: nat) {
    exists t :: t in s.threads && Opener(s.threads[t]) && s.threads[t].call == call
  }

  predicate OpenersInv(s: State) {
    && (forall t :: t in s.threads && Opener(s.threads[t]) ==>
          s.threads[t].call < s.passed && s.threads[t].call !in s.connected)
    && (forall t, u :: t in s.threads && u in s.threads && Opener(s.threads[t]) && Opener(s.threads[u]) && t != u ==>
          s.threads[t].call != s.threads[u].call)
    && (forall call: nat :: call < s.passed ==> call in s.connected || Pending(s, call))
    && (forall call :: call in s.connected ==> call < s.passed)
  }

  predicate LockInv(s: State) {
    && (forall t :: t in s.threads && s.threads[t].Starting? ==> s.holder == Some(t))
    && (s.holder.Some? ==> s.holder.value in s.threads && s.threads[s.holder.value].Starting?)
  }

  predicate Closer(pc: Pc) {
    pc.Marked? || pc.CloseNotifies? || pc.CloseShuts?
  }

  /** One close goes on behind the mark, until it has cleared the open flag. */
  predicate CloserInv(s: State) {
    && (forall t :: t in s.threads && Closer(s.threads[t]) ==> s.flags.closing && !s.shut)
    && (forall t, u :: t in s.threads && u in s.threads && Closer(s.threads[t]) && Closer(s.threads[u]) ==> t == u)
    && (s.shut ==> s.flags.closing)
  }

  predicate Notifier(pc: Pc) {
    pc.CloseNotifies? || pc.StopNotifies?
  }

  /** A worker asleep under a stop request has a notification coming. */
  predicate AlarmInv(s: State) {
    s.flags.stop && SomeAsleep(s) ==> exists t :: t in s.threads && Notifier(s.threads[t])
  }

  predicate Inv(s: State) {
    OpenersInv(s) && LockInv(s) && CloserInv(s) && AlarmInv(s)
  }

  predicate WorkerStep(a: Step) {
    || a.WorkerTests? || a.WorkerWaits? || a.WorkerTimesOut? || a.WorkerLooks? || a.WorkerReported?
    || a.WorkerEnds?
  }

  lemma WorkerStepIs(s: State, a: Step)
    requires Enabled(s, a) && WorkerStep(a)
    ensures Apply(s, a) == s.(workers := Apply(s, a).workers)
  {
  }

  /** A worker goes on from its loop condition exactly while the engine is open and neither a close
      nor a stop request is behind it, and goes to sleep, or back to sleep, under the last two. */
  lemma WorkerGoesOnIff(s: State, w: nat)
    ensures At(s, w, Top) ==>
              (At(Apply(s, WorkerTests(w)), w, Inside) <==> s.flags.open && !s.flags.closing && !s.flags.stop)
    ensures At(s, w, Inside) ==>
              (At(Apply(s, WorkerWaits(w)), w, Asleep) <==> !s.flags.closing && !s.flags.stop)
    ensures At(s, w, Roused) ==>
              (At(Apply(s, WorkerLooks(w)), w, Asleep) <==> !s.flags.closing && !s.flags.stop)
  {
  }

  predicate OpenStep(a: Step) {
    a.BeginOpen? || a.OpenClears? || a.OpenConnects?
  }

  predicate CloseStep(a: Step) {
    a.BeginClose? || a.Shuts? || a.Requests? || a.Notifies?
  }

  predicate StartStep(a: Step) {
    a.TestsStart? || a.StartsWorker?
  }

  predicate ReportStep(a: Step) {
    a.BeginHandshake? || a.BeginLoss? || a.TakesHandle? || a.Joined? || a.Greet?
  }

  /** Only thread `t` has moved. */
  ghost predicate OthersStay(s: State, s': State, t: Thread) {
    forall u :: u != t ==> (u in s'.threads <==> u in s.threads) && (u in s.threads ==> s'.threads[u] == s.threads[u])
  }

  predicate OpenerAt(s: State, t: Thread) {
    t in s.threads && Opener(s.threads[t])
  }

  predicate CloserAt(s: State, t: Thread) {
    t in s.threads && Closer(s.threads[t])
  }

  predicate NotifierAt(s: State, t: Thread) {
    t in s.threads && Notifier(s.threads[t])
  }

  predicate StarterAt(s: State, t: Thread) {
    t in s.threads && s.threads[t].Starting?
  }

  /** What a step of a thread can do at all, from outside. */
  ghost predicate Effect(s: State, s': State, a: Step)
    requires !WorkerStep(a)
  {
    var t := a.thread;
    && OthersStay(s, s', t)
    && (!OpenStep(a) ==>
          && s'.passed == s.passed && s'.connected == s.connected
          && !OpenerAt(s, t) && !OpenerAt(s', t))
    && (!CloseStep(a) ==>
          && s'.flags.closing == s.flags.closing && s'.shut == s.shut
          && !CloserAt(s, t) && !CloserAt(s', t) && !NotifierAt(s, t))
    && (!StartStep(a) ==>
          && s'.holder == s.holder && s'.flags.heartbeats == s.flags.heartbeats
          && !StarterAt(s, t) && !StarterAt(s', t))
    && (s'.flags.stop ==> s.flags.stop || a.Requests?)
    && (forall w :: w in s'.workers && s'.workers[w].Asleep? ==> w in s.workers && s.workers[w].Asleep? && !a.Notifies?)
    && s'.flags.open == (if a.Greet? then true
                         else if a.BeginLoss? || a.OpenClears? || a.Shuts? then false else s.flags.open)
  }

  lemma OpenEffect(s: State, a: Step)
    requires Enabled(s, a) && OpenStep(a)
    ensures Effect(s, Apply(s, a), a)
  {
  }

  lemma BeginCloseEffect(s: State, t: Thread, sync: bool)
    requires Free(s, t)
    ensures Effect(s, ApplyBeginClose(s, t, sync), BeginClose(t, sync))
  {
  }

  lemma RequestsEffect(s: State, t: Thread)
    requires Enabled(s, Requests(t))
    ensures Effect(s, ApplyRequests(s, t), Requests(t))
  {
  }

  lemma NotifiesEffect(s: State, t: Thread)
    requires Enabled(s, Notifies(t))
    ensures Effect(s, ApplyNotifies(s, t), Notifies(t))
  {
  }

  lemma ShutsEffect(s: State, t: Thread)
    requires Enabled(s, Shuts(t))
    ensures Effect(s, ApplyShuts(s, t), Shuts(t))
  {
  }

  lemma CloseEffect(s: State, a: Step)
    requires Enabled(s, a) && CloseStep(a)
    ensures Effect(s, Apply(s, a), a)
  {
    hide Effect, ApplyBeginClose, ApplyRequests, ApplyNotifies, ApplyShuts;
    match a {
      case BeginClose(t, sync) => BeginCloseEffect(s, t, sync);
      case Requests(t) => RequestsEffect(s, t);
      case Notifies(t) => NotifiesEffect(s, t);
      case Shuts(t) => ShutsEffect(s, t);
    }
  }

  lemma StartEffect(s: State, a: Step)
    requires Enabled(s, a) && StartStep(a)
    ensures Effect(s, Apply(s, a), a)
  {
  }

  lemma BeginEffect(s: State, a: Step)
    requires Enabled(s, a) && (a.BeginHandshake? || a.BeginLoss?)
    ensures Effect(s, Apply(s, a), a)
  {
  }

  /** What taking the handle does, case by case. */
  lemma TakesDoes(s: State, t: Thread)
    requires Enabled(s, TakesHandle(t))
    ensures
      var s', goal := ApplyTakes(s, t), s.threads[t].goal;
      && s'.workers == s.workers && s'.flags == s.flags && s'.holder == s.holder && s'.crashed == s.crashed
      && s'.handle.None? && OthersStay(s, s', t)
      && (if s.handle.None? || t == Worker(s.handle.value) then
            && (t in s'.threads ==> s'.threads[t] == Greets && goal.ToGreet?)
            && s'.detached == s.detached + (if s.handle.None? then {} else {s.handle.value})
          else
            t in s'.threads && s'.threads[t] == Joins(s.handle.value, goal) && s'.detached == s.detached)
  {
  }

  lemma TakesEffect(s: State, t: Thread)
    requires Enabled(s, TakesHandle(t))
    ensures Effect(s, ApplyTakes(s, t), TakesHandle(t))
  {
    TakesDoes(s, t);
    TakesHistory(s, t);
    hide ApplyTakes;
  }

  lemma TakesHistory(s: State, t: Thread)
    requires Enabled(s, TakesHandle(t))
    ensures
      var s' := ApplyTakes(s, t);
      s'.passed == s.passed && s'.connected == s.connected && s'.shut == s.shut
  {
  }

  lemma JoinedEffect(s: State, a: Step)
    requires Enabled(s, a) && (a.Joined? || a.Greet?)
    ensures Effect(s, Apply(s, a), a)
  {
  }

  lemma ReportEffect(s: State, a: Step)
    requires Enabled(s, a) && ReportStep(a)
    ensures Effect(s, Apply(s, a), a)
  {
    hide Effect, ApplyTakes;
    match a {
      case TakesHandle(t) => TakesEffect(s, t);
      case BeginHandshake(_) => BeginEffect(s, a);
      case BeginLoss(_) => BeginEffect(s, a);
      case _ => JoinedEffect(s, a);
    }
  }

  lemma ThreadEffect(s: State, a: Step)
    requires Enabled(s, a) && !WorkerStep(a)
    ensures Effect(s, Apply(s, a), a)
  {
    hide Effect, Apply;
    if OpenStep(a) {
      OpenEffect(s, a);
    } else if CloseStep(a) {
      CloseEffect(s, a);
    } else if StartStep(a) {
      StartEffect(s, a);
    } else {
      ReportEffect(s, a);
    }
  }

  lemma OpenersKept(s: State, a: Step)
    requires OpenersInv(s) && Enabled(s, a)
    ensures OpenersInv(Apply(s, a))
  {
    if WorkerStep(a) {
      WorkerStepIs(s, a);
      hide Apply, Enabled;
      OtherKeepsOpeners(s, Apply(s, a));
    } else if !OpenStep(a) {
      ThreadEffect(s, a);
      hide Apply, Enabled;
      OtherKeepsOpeners(s, Apply(s, a));
    } else {
      OpenStepKeepsOpeners(s, a);
    }
  }

  lemma OpenStepKeepsOpeners(s: State, a: Step)
    requires OpenersInv(s) && Enabled(s, a) && OpenStep(a)
    ensures OpenersInv(Apply(s, a))
  {
    hide OpenersInv;
    match a {
      case BeginOpen(t) => BeginOpenKeepsOpeners(s, t);
      case OpenClears(t) => OpenClearsKeepsOpeners(s, t);
      case OpenConnects(t) => OpenConnectsKeepsOpeners(s, t);
    }
  }

  lemma BeginOpenKeepsOpeners(s: State, t: Thread)
    requires OpenersInv(s) && t !in s.threads
    ensures OpenersInv(ApplyBeginOpen(s, t))
  {
    var s' := ApplyBeginOpen(s, t);
    if !s.flags.closing {
      assert s'.threads[t] == Tested(s.passed);
      SamePending(s, s');
    }
  }

  /** The openers of `s` are still there in `s'`, with the same calls. */
  lemma SamePending(s: State, s': State)
    requires forall u :: u in s.threads && Opener(s.threads[u]) ==>
               u in s'.threads && Opener(s'.threads[u]) && s'.threads[u].call == s.threads[u].call
    ensures forall call: nat :: Pending(s, call) ==> Pending(s', call)
  {
    forall call: nat | Pending(s, call)
      ensures Pending(s', call)
    {
      var u :| u in s.threads && Opener(s.threads[u]) && s.threads[u].call == call;
      assert u in s'.threads && s'.threads[u].call == call;
    }
  }

  lemma OpenClearsKeepsOpeners(s: State, t: Thread)
    requires OpenersInv(s) && t in s.threads && s.threads[t].Tested?
    ensures OpenersInv(Apply(s, OpenClears(t)))
  {
    SamePending(s, Apply(s, OpenClears(t)));
  }

  lemma OpenConnectsKeepsOpeners(s: State, t: Thread)
    requires OpenersInv(s) && t in s.threads && s.threads[t].Cleared?
    ensures OpenersInv(Apply(s, OpenConnects(t)))
  {
    var s' := Apply(s, OpenConnects(t));
    forall call: nat | call < s.passed
      ensures call in s'.connected || Pending(s', call)
    {
      if call !in s'.connected {
        var u :| u in s.threads && Opener(s.threads[u]) && s.threads[u].call == call;
        assert u in s'.threads && s'.threads[u] == s.threads[u];
      }
    }
  }

  /** The openers of both states are the same threads at the same calls. */
  lemma OtherKeepsOpeners(s: State, s': State)
    requires OpenersInv(s) && s'.passed == s.passed && s'.connected == s.connected
    requires forall u :: u in s.threads && Opener(s.threads[u]) ==> u in s'.threads && s'.threads[u] == s.threads[u]
    requires forall u :: u in s'.threads && Opener(s'.threads[u]) ==> u in s.threads && s'.threads[u] == s.threads[u]
    ensures OpenersInv(s')
  {
    SamePending(s, s');
  }

  lemma StartKeepsLock(s: State, a: Step)
    requires LockInv(s) && Enabled(s, a) && StartStep(a)
    ensures LockInv(Apply(s, a))
  {
  }

  lemma LockKept(s: State, a: Step)
    requires LockInv(s) && Enabled(s, a)
    ensures LockInv(Apply(s, a))
  {
    hide LockInv;
    if WorkerStep(a) {
      WorkerStepIs(s, a);
      hide Apply, Enabled;
      SameKeepsLock(s, Apply(s, a));
    } else if StartStep(a) {
      StartKeepsLock(s, a);
    } else {
      ThreadEffect(s, a);
      hide Apply, Enabled;
      OthersKeepLock(s, Apply(s, a), a.thread);
    }
  }

  lemma SameKeepsLock(s: State, s': State)
    requires LockInv(s) && s'.threads == s.threads && s'.holder == s.holder
    ensures LockInv(s')
  {
  }

  lemma OthersKeepLock(s: State, s': State, t: Thread)
    requires LockInv(s) && OthersStay(s, s', t) && s'.holder == s.holder && !StarterAt(s, t) && !StarterAt(s', t)
    ensures LockInv(s')
  {
  }

  /** How a close passes from thread to thread: a mark is set once, and clearing the open flag
      ends it. */
  lemma CloseHandsOver(s: State, a: Step)
    requires Enabled(s, a) && CloseStep(a)
    ensures
      var s', t := Apply(s, a), a.thread;
      && s'.flags.closing == (s.flags.closing || a.BeginClose?)
      && (CloserAt(s', t) ==> CloserAt(s, t) || (a.BeginClose? && !s.flags.closing))
      && s'.shut == (s.shut || a.Shuts?)
      && (a.Shuts? ==> CloserAt(s, t) && !CloserAt(s', t))
  {
    hide Rouse;
  }

  lemma CloseStepKeepsCloser(s: State, a: Step)
    requires CloserInv(s) && Enabled(s, a) && CloseStep(a)
    ensures CloserInv(Apply(s, a))
  {
    CloseEffect(s, a);
    CloseHandsOver(s, a);
    hide Apply, Enabled;
  }

  lemma CloserKept(s: State, a: Step)
    requires CloserInv(s) && Enabled(s, a)
    ensures CloserInv(Apply(s, a))
  {
    if WorkerStep(a) {
      WorkerStepIs(s, a);
      hide Apply, Enabled;
    } else if CloseStep(a) {
      CloseStepKeepsCloser(s, a);
    } else {
      ThreadEffect(s, a);
      hide Apply, Enabled;
    }
  }

  predicate SomeAsleep(s: State) {
    exists w :: w in s.workers && s.workers[w].Asleep?
  }

  /** A worker falls asleep only while there is no stop request. */
  lemma WorkerStepKeepsAlarm(s: State, a: Step)
    requires Enabled(s, a) && WorkerStep(a) && s.flags.stop && SomeAsleep(Apply(s, a))
    ensures SomeAsleep(s)
  {
    var s' := Apply(s, a);
    var w :| w in s'.workers && s'.workers[w].Asleep?;
    assert w in s.workers && s.workers[w].Asleep?;
  }

  lemma AlarmKept(s: State, a: Step)
    requires AlarmInv(s) && Enabled(s, a)
    ensures AlarmInv(Apply(s, a))
  {
    var s' := Apply(s, a);
    if s'.flags.stop && SomeAsleep(s') {
      if WorkerStep(a) {
        WorkerStepIs(s, a);
        WorkerStepKeepsAlarm(s, a);
        hide Apply, Enabled;
      } else if a.Requests? {
        assert Notifier(s'.threads[a.thread]);
      } else {
        ThreadEffect(s, a);
        NoNotifier(s, a);
        hide Apply, Enabled;
        var w :| w in s'.workers && s'.workers[w].Asleep?;
        assert w in s.workers && s.workers[w].Asleep?;
        var t :| t in s.threads && Notifier(s.threads[t]);
        assert t in s'.threads && s'.threads[t] == s.threads[t];
      }
    }
  }

  lemma NoNotifier(s: State, a: Step)
    requires Enabled(s, a) && !WorkerStep(a) && !a.Notifies?
    ensures !NotifierAt(s, a.thread)
  {
  }

  lemma InvKept(s: State, a: Step)
    requires Inv(s) && Enabled(s, a)
    ensures Inv(Apply(s, a))
  {
    hide Apply, Enabled, OpenersInv, LockInv, CloserInv, AlarmInv;
    OpenersKept(s, a);
    LockKept(s, a);
    CloserKept(s, a);
    AlarmKept(s, a);
  }

  lemma {:induction false} RunKeepsInv(s: State, steps: seq<Step>)
    requires Inv(s) && Runnable(s, steps)
    ensures Inv(Run(s, steps))
    decreases |steps|
  {
    hide Apply, Enabled, Inv;
    if steps != [] {
      InvKept(s, steps[0]);
      RunKeepsInv(Apply(s, steps[0]), steps[1..]);
    }
  }
}
