/** What the transport must grant: it reports one thing at a time.  Then a heartbeat worker is
    always stopped before the next is started; otherwise the program can be terminated. */
module EngineSerial {
  import opened Options
  import opened EngineCore
  import opened EngineMachine
  import opened EngineTheorems

  /** Inside a handshake or a loss that the transport reports. */
  predicate Callback(pc: Pc) {
    match pc
    case Stops(goal) => !goal.ToSync?
    case StopNotifies(goal) => !goal.ToSync?
    case Takes(goal) => !goal.ToSync?
    case Joins(_, goal) => !goal.ToSync?
    case Greets => true
    case Tests => true
    case Starting => true
    case _ => false
  }

  predicate Busy(s: State) {
    exists t :: t in s.threads && t.External? && Callback(s.threads[t])
  }

  /** The transport begins a report only when the last one has been handled. */
  predicate Polite(s: State, a: Step) {
    (a.BeginHandshake? || (a.BeginLoss? && a.thread.External?)) ==> !Busy(s)
  }

  predicate Serial(s: State, steps: seq<Step>)
    requires Runnable(s, steps)
    decreases |steps|
  {
    steps == [] || (Polite(s, steps[0]) && Serial(Apply(s, steps[0]), steps[1..]))
  }

  // ----- The invariant -----

  predicate InLoop(phase: Phase) {
    phase.Top? || phase.Inside? || phase.Asleep? || phase.Roused?
  }

  predicate Joining(s: State, w: nat) {
    exists t :: t in s.threads && s.threads[t].Joins? && s.threads[t].worker == w
  }

  /** About to take the handle on behalf of a loss. */
  predicate Takers(pc: Pc) {
    (pc.Stops? || pc.StopNotifies? || pc.Takes?) && pc.goal.ToLoss?
  }

  predicate Stopper(pc: Pc) {
    pc.Stops? || pc.StopNotifies? || pc.Takes? || pc.Joins?
  }

  /** Where a single thread may be: only the transport greets, a worker calls out of its loop
      and reports a loss last, and what a synchronised close does comes behind the mark. */
  predicate ThreadOk(s: State, t: Thread)
    requires t in s.threads
  {
    var pc := s.threads[t];
    && (pc.Joins? ==> pc.worker < s.flags.heartbeats)
    && (t.Worker? ==>
          && t.n in s.workers && !InLoop(s.workers[t.n])
          && !pc.Greets? && !pc.Tests? && !pc.Starting? && (Stopper(pc) ==> !pc.goal.ToGreet?)
          && (Takers(pc) ==> s.workers[t.n].Returning?))
    && (Stopper(pc) && pc.goal.ToSync? ==> s.flags.closing)
    && (Closer(pc) ==> s.flags.closing)
  }

  predicate ThreadsInv(s: State) {
    forall t :: t in s.threads ==> ThreadOk(s, t)
  }

  predicate NumberInv(s: State) {
    && (forall w :: w in s.workers ==> w < s.flags.heartbeats)
    && (s.handle.Some? ==> s.handle.value < s.flags.heartbeats)
    && (forall w :: w in s.detached ==> w < s.flags.heartbeats)
  }

  /** A worker that detached itself is out of its loop and, unless the client is closing, has
      nothing more to report. */
  predicate DetachedOk(s: State, w: nat)
    requires w in s.workers
  {
    && !InLoop(s.workers[w])
    && (s.flags.closing || (s.workers[w].Returning? && (Worker(w) in s.threads ==> !Takers(s.threads[Worker(w)]))))
  }

  /** The handle of a worker that has not ended is kept, detached by itself, or being joined. */
  predicate HandleInv(s: State) {
    && (forall w :: w in s.workers ==> s.handle == Some(w) || w in s.detached || Joining(s, w))
    && (forall w :: w in s.workers && w in s.detached ==> DetachedOk(s, w))
  }

  /** Past the point where the handle was taken. */
  predicate Taken(pc: Pc) {
    (pc.Joins? && !pc.goal.ToSync?) || pc.Greets? || pc.Tests? || pc.Starting?
  }

  predicate OneReport(s: State) {
    forall t, u | t in s.threads && u in s.threads && t.External? && u.External? ::
      Callback(s.threads[t]) && Callback(s.threads[u]) ==> t == u
  }

  /** Whoever has taken the handle for a report, nobody else puts one there; a worker that joins
      another, or any join beside a starter, would be behind the mark of a close. */
  predicate TakenInv(s: State) {
    && (forall t :: t in s.threads && t.External? && Taken(s.threads[t]) ==> s.handle.None?)
    && (forall t :: t in s.threads && t.Worker? && s.threads[t].Joins? ==> s.flags.closing)
    && (s.holder.Some? ==> forall t :: t in s.threads ==> !s.threads[t].Joins?)
  }

  predicate OneInLoop(s: State) {
    forall v, w :: v in s.workers && w in s.workers && InLoop(s.workers[v]) && InLoop(s.workers[w]) ==> v == w
  }

  predicate SerialInv(s: State) {
    && LockInv(s) && ThreadsInv(s) && NumberInv(s) && HandleInv(s) && OneReport(s) && TakenInv(s) && OneInLoop(s)
    && !s.crashed
  }

  // ----- Steps of the workers -----

  /** Phases may advance, as long as workers out of their loop stay as they are or return. */
  predicate Advances(s: State, s': State) {
    && s'.workers.Keys <= s.workers.Keys
    && (forall w :: w in s'.workers && InLoop(s'.workers[w]) ==> InLoop(s.workers[w]))
    && (forall w :: w in s'.workers && !InLoop(s.workers[w]) ==>
          s'.workers[w] == s.workers[w] || s'.workers[w].Returning?)
    && (forall w :: w in s.workers && w !in s'.workers ==> Worker(w) !in s.threads)
  }

  lemma TurnAdvances(s: State, w: nat, phase: Phase)
    requires w in s.workers && (InLoop(s.workers[w]) || phase.Returning?)
    ensures Advances(s, Turns(s, w, phase))
  {
  }

  lemma EndAdvances(s: State, w: nat)
    requires Worker(w) !in s.threads
    ensures Advances(s, s.(workers := s.workers - {w}))
  {
  }

  lemma WorkerStepAdvances(s: State, a: Step)
    requires Enabled(s, a) && WorkerStep(a)
    ensures Advances(s, Apply(s, a)) && Apply(s, a) == s.(workers := Apply(s, a).workers)
  {
    hide Advances;
    if a.WorkerEnds? {
      EndAdvances(s, a.worker);
    } else {
      TurnAdvances(s, a.worker, Apply(s, a).workers[a.worker]);
    }
  }

  lemma AdvanceKeepsSerial(s: State, s': State)
    requires SerialInv(s) && s' == s.(workers := s'.workers) && Advances(s, s')
    ensures SerialInv(s')
  {
    AdvanceKeepsHandle(s, s');
    AdvanceKeepsThreads(s, s');
    hide HandleInv, ThreadsInv;
  }

  lemma AdvanceKeepsThreads(s: State, s': State)
    requires ThreadsInv(s) && s' == s.(workers := s'.workers) && Advances(s, s')
    ensures ThreadsInv(s')
  {
    assert forall t :: t in s'.threads ==> ThreadOk(s, t);
  }

  lemma AdvanceKeepsHandle(s: State, s': State)
    requires HandleInv(s) && s' == s.(workers := s'.workers) && Advances(s, s')
    ensures HandleInv(s')
  {
    forall w | w in s'.workers
      ensures s'.handle == Some(w) || w in s'.detached || Joining(s', w)
    {
      if s.handle != Some(w) && w !in s.detached {
        var t :| t in s.threads && s.threads[t].Joins? && s.threads[t].worker == w;
        assert t in s'.threads;
      }
    }
    forall w | w in s'.workers && w in s'.detached
      ensures DetachedOk(s', w)
    {
      assert DetachedOk(s, w);
    }
  }

  // ----- Steps of a thread that leave workers and handle alone -----

  predicate Plain(a: Step) {
    !WorkerStep(a) && !a.Notifies? && !a.TakesHandle? && !a.StartsWorker? && !(a.BeginLoss? && a.thread.Worker?)
  }

  /** What such a step does, seen from outside. */
  predicate PlainEffect(s: State, s': State, t: Thread) {
    && s'.handle == s.handle && s'.workers == s.workers && s'.detached == s.detached && s'.crashed == s.crashed
    && s'.flags.heartbeats == s.flags.heartbeats && (s.flags.closing ==> s'.flags.closing)
    && (s'.holder.Some? ==> s'.holder == s.holder || (t in s'.threads && s'.threads[t].Starting? && !s.flags.closing))
    && (t in s'.threads ==> PlainMove(s, t, s'.threads[t]))
  }

  /** Where a thread may go in such a step. */
  predicate PlainMove(s: State, t: Thread, pc: Pc) {
    && !pc.Joins?
    && (t.Worker? && Takers(pc) ==> t in s.threads && Takers(s.threads[t]))
    && (Taken(pc) ==> t in s.threads && Taken(s.threads[t]))
    && (t.External? && Callback(pc) ==> (t in s.threads && Callback(s.threads[t])) || !Busy(s))
  }

  lemma CloseMoves(s: State, a: Step)
    requires Enabled(s, a) && Plain(a) && (OpenStep(a) || CloseStep(a)) && a.thread in Apply(s, a).threads
    ensures PlainMove(s, a.thread, Apply(s, a).threads[a.thread])
  {
    hide Busy;
  }

  lemma ReportMoves(s: State, a: Step)
    requires Enabled(s, a) && Plain(a) && Polite(s, a) && (ReportStep(a) || StartStep(a))
    requires a.thread in Apply(s, a).threads
    ensures PlainMove(s, a.thread, Apply(s, a).threads[a.thread])
  {
    hide Busy;
  }

  lemma PlainMoves(s: State, a: Step)
    requires Enabled(s, a) && Plain(a) && Polite(s, a) && a.thread in Apply(s, a).threads
    ensures PlainMove(s, a.thread, Apply(s, a).threads[a.thread])
  {
    hide PlainMove, Polite, Apply;
    if OpenStep(a) || CloseStep(a) {
      CloseMoves(s, a);
    } else {
      ReportMoves(s, a);
    }
  }

  lemma PlainKeepsFields(s: State, a: Step)
    requires Enabled(s, a) && Plain(a)
    ensures
      var s' := Apply(s, a);
      && s'.handle == s.handle && s'.workers == s.workers && s'.detached == s.detached && s'.crashed == s.crashed
      && (a.TestsStart? ==> s'.holder.Some? ==> StarterAt(s', a.thread) && !s.flags.closing)
  {
  }

  lemma PlainDoes(s: State, a: Step)
    requires LockInv(s) && Enabled(s, a) && Plain(a) && Polite(s, a)
    ensures PlainEffect(s, Apply(s, a), a.thread)
  {
    PlainKeepsFields(s, a);
    ThreadEffect(s, a);
    if a.TestsStart? {
      StartEffectOnFlags(s, a);
    }
    if CloseStep(a) {
      CloseHandsOver(s, a);
    }
    hide Busy, PlainMove, Polite, Apply, Enabled;
    if a.thread in Apply(s, a).threads {
      PlainMoves(s, a);
    }
  }

  lemma StartEffectOnFlags(s: State, a: Step)
    requires Enabled(s, a) && a.TestsStart?
    ensures Apply(s, a).flags == s.flags
  {
  }

  predicate Begins(a: Step) {
    a.BeginOpen? || a.BeginClose? || a.BeginHandshake? || a.BeginLoss?
  }

  lemma BeginKeepsThread(s: State, a: Step)
    requires Enabled(s, a) && Plain(a) && Begins(a)
    ensures a.thread in Apply(s, a).threads ==> ThreadOk(Apply(s, a), a.thread)
  {
  }

  lemma StartKeepsThread(s: State, a: Step)
    requires Enabled(s, a) && Plain(a) && (OpenStep(a) || StartStep(a)) && !Begins(a) && ThreadOk(s, a.thread)
    ensures a.thread in Apply(s, a).threads ==> ThreadOk(Apply(s, a), a.thread)
  {
  }

  lemma StepKeepsThread(s: State, a: Step)
    requires Enabled(s, a) && Plain(a) && (CloseStep(a) || ReportStep(a)) && !Begins(a) && ThreadOk(s, a.thread)
    ensures a.thread in Apply(s, a).threads ==> ThreadOk(Apply(s, a), a.thread)
  {
  }

  lemma PlainKeepsThread(s: State, a: Step)
    requires Enabled(s, a) && Plain(a) && (a.thread in s.threads ==> ThreadOk(s, a.thread))
    ensures a.thread in Apply(s, a).threads ==> ThreadOk(Apply(s, a), a.thread)
  {
    hide ThreadOk, Apply;
    if Begins(a) {
      BeginKeepsThread(s, a);
    } else if OpenStep(a) || StartStep(a) {
      StartKeepsThread(s, a);
    } else {
      StepKeepsThread(s, a);
    }
  }

  lemma PlainKeepsOthers(s: State, s': State, t: Thread)
    requires ThreadsInv(s) && PlainEffect(s, s', t) && OthersStay(s, s', t)
    requires t in s'.threads ==> ThreadOk(s', t)
    ensures ThreadsInv(s')
  {
    forall u | u in s'.threads
      ensures ThreadOk(s', u)
    {
      if u != t {
        assert ThreadOk(s, u);
      }
    }
  }

  lemma PlainKeepsHandle(s: State, s': State, t: Thread)
    requires HandleInv(s) && PlainEffect(s, s', t) && OthersStay(s, s', t)
    requires t in s.threads && s.threads[t].Joins? ==> s.threads[t].worker !in s.workers
    ensures HandleInv(s')
  {
    forall w | w in s'.workers
      ensures s'.handle == Some(w) || w in s'.detached || Joining(s', w)
    {
      if s.handle != Some(w) && w !in s.detached {
        var u :| u in s.threads && s.threads[u].Joins? && s.threads[u].worker == w;
        assert u in s'.threads && s'.threads[u] == s.threads[u];
      }
    }
    forall w | w in s'.workers && w in s'.detached
      ensures DetachedOk(s', w)
    {
      assert DetachedOk(s, w);
    }
  }

  lemma PlainKeepsReports(s: State, s': State, t: Thread)
    requires OneReport(s) && PlainEffect(s, s', t) && OthersStay(s, s', t)
    ensures OneReport(s')
  {
  }

  lemma PlainKeepsTaken(s: State, s': State, t: Thread)
    requires ThreadsInv(s) && OneReport(s) && TakenInv(s) && PlainEffect(s, s', t) && OthersStay(s, s', t)
    requires t in s'.threads && s'.threads[t].Starting? ==> t.External? && t in s.threads && Callback(s.threads[t])
    ensures TakenInv(s')
  {
    forall u | u in s'.threads && s'.holder.Some?
      ensures !s'.threads[u].Joins?
    {
      if u != t && s'.holder != s.holder {
        assert ThreadOk(s, u);
      }
    }
  }

  lemma PlainKeepsSerial(s: State, a: Step)
    requires SerialInv(s) && Enabled(s, a) && Plain(a) && Polite(s, a)
    ensures SerialInv(Apply(s, a))
  {
    LockKept(s, a);
    ThreadEffect(s, a);
    PlainDoes(s, a);
    PlainKeepsThread(s, a);
    var s', t := Apply(s, a), a.thread;
    assert t in s.threads && s.threads[t].Joins? ==> s.threads[t].worker !in s.workers;
    StarterIsExternal(s, a);
    hide Apply, Enabled, Plain, Polite;
    PlainKeepsOthers(s, s', t);
    PlainKeepsHandle(s, s', t);
    PlainKeepsReports(s, s', t);
    PlainKeepsTaken(s, s', t);
  }

  lemma StarterIsExternal(s: State, a: Step)
    requires ThreadsInv(s) && Enabled(s, a) && Plain(a)
    ensures
      var s', t := Apply(s, a), a.thread;
      t in s'.threads && s'.threads[t].Starting? ==> t.External? && t in s.threads && Callback(s.threads[t])
  {
    assert a.thread in s.threads ==> ThreadOk(s, a.thread);
  }

  // ----- The other steps -----

  lemma NotifiesMoves(s: State, t: Thread)
    requires ThreadsInv(s) && Enabled(s, Notifies(t))
    ensures
      var s1, s' := s.(workers := Rouse(s.workers)), ApplyNotifies(s, t);
      && Advances(s, s1) && PlainEffect(s1, s', t) && OthersStay(s1, s', t)
      && t in s'.threads && ThreadOk(s', t) && !s'.threads[t].Starting? && !s.threads[t].Joins?
  {
    assert ThreadOk(s, t);
    hide ThreadsInv, Busy;
  }

  /** A notification rouses the workers and moves its thread on. */
  lemma NotifiesKeepsSerial(s: State, t: Thread)
    requires SerialInv(s) && Enabled(s, Notifies(t))
    ensures SerialInv(ApplyNotifies(s, t))
  {
    NotifiesMoves(s, t);
    LockKept(s, Notifies(t));
    var s1, s' := s.(workers := Rouse(s.workers)), ApplyNotifies(s, t);
    assert Apply(s, Notifies(t)) == s';
    hide ApplyNotifies, Apply, Rouse, Advances, OthersStay;
    hide ThreadsInv, HandleInv, OneReport, TakenInv, LockInv, ThreadOk;
    AdvanceKeepsSerial(s, s1);
    PlainKeepsOthers(s1, s', t);
    PlainKeepsHandle(s1, s', t);
    PlainKeepsReports(s1, s', t);
    PlainKeepsTaken(s1, s', t);
  }

  lemma WorkerLossKeepsHandle(s: State, w: nat)
    requires HandleInv(s) && Enabled(s, BeginLoss(Worker(w)))
    ensures HandleInv(ApplyBeginLoss(s, Worker(w)))
  {
    var s' := ApplyBeginLoss(s, Worker(w));
    forall v | v in s'.workers
      ensures s'.handle == Some(v) || v in s'.detached || Joining(s', v)
    {
      if s.handle != Some(v) && v !in s.detached {
        var u :| u in s.threads && s.threads[u].Joins? && s.threads[u].worker == v;
        assert u in s'.threads && s'.threads[u] == s.threads[u];
      }
    }
    forall v | v in s'.workers && v in s'.detached
      ensures DetachedOk(s', v)
    {
      assert DetachedOk(s, v);
    }
  }

  lemma WorkerLossKeepsThreads(s: State, w: nat)
    requires ThreadsInv(s) && Enabled(s, BeginLoss(Worker(w)))
    ensures ThreadsInv(ApplyBeginLoss(s, Worker(w)))
  {
    var s' := ApplyBeginLoss(s, Worker(w));
    forall u | u in s'.threads
      ensures ThreadOk(s', u)
    {
      if u != Worker(w) {
        assert ThreadOk(s, u);
      }
    }
  }

  /** A worker reports a loss from its own thread. */
  lemma WorkerLossKeepsSerial(s: State, w: nat)
    requires SerialInv(s) && Enabled(s, BeginLoss(Worker(w)))
    ensures SerialInv(ApplyBeginLoss(s, Worker(w)))
  {
    hide HandleInv, LockInv, ThreadsInv;
    WorkerLossKeepsHandle(s, w);
    WorkerLossKeepsThreads(s, w);
    LockKept(s, BeginLoss(Worker(w)));
  }

  /** A worker that finds another's handle does so behind the mark of a close. */
  lemma StrangerIsClosing(s: State, w: nat)
    requires SerialInv(s) && Enabled(s, TakesHandle(Worker(w))) && s.handle.Some? && s.handle.value != w
    ensures s.flags.closing
  {
    var t := Worker(w);
    assert ThreadOk(s, t);
    if s.threads[t].goal.ToLoss? {
      assert w in s.workers;
      if w in s.detached {
        assert DetachedOk(s, w);
      } else {
        var u :| u in s.threads && s.threads[u].Joins? && s.threads[u].worker == w;
        assert ThreadOk(s, u);
      }
    }
  }

  lemma TakesKeepsThreads(s: State, t: Thread)
    requires ThreadsInv(s) && NumberInv(s) && Enabled(s, TakesHandle(t))
    ensures ThreadsInv(ApplyTakes(s, t)) && NumberInv(ApplyTakes(s, t))
  {
    TakesDoes(s, t);
    var s' := ApplyTakes(s, t);
    assert ThreadOk(s, t);
    hide ApplyTakes;
    forall u | u in s'.threads
      ensures ThreadOk(s', u)
    {
      if u != t {
        assert ThreadOk(s, u);
      }
    }
  }

  lemma TakesKeepsHandle(s: State, t: Thread)
    requires ThreadsInv(s) && HandleInv(s) && Enabled(s, TakesHandle(t))
    ensures HandleInv(ApplyTakes(s, t))
  {
    TakesDoes(s, t);
    var s' := ApplyTakes(s, t);
    assert ThreadOk(s, t);
    hide ApplyTakes;
    forall v | v in s'.workers
      ensures s'.handle == Some(v) || v in s'.detached || Joining(s', v)
    {
      if s.handle == Some(v) {
        assert t != Worker(v) ==> s'.threads[t].Joins? && s'.threads[t].worker == v;
      } else if v !in s.detached {
        var u :| u in s.threads && s.threads[u].Joins? && s.threads[u].worker == v;
        assert u in s'.threads && s'.threads[u] == s.threads[u];
      }
    }
    forall v | v in s'.workers && v in s'.detached
      ensures DetachedOk(s', v)
    {
      assert v in s.detached ==> DetachedOk(s, v);
    }
  }

  lemma TakesKeepsReports(s: State, t: Thread)
    requires OneReport(s) && Enabled(s, TakesHandle(t))
    ensures OneReport(ApplyTakes(s, t))
  {
    TakesDoes(s, t);
    hide ApplyTakes;
  }

  lemma TakesKeepsTaken(s: State, t: Thread)
    requires TakenInv(s) && Enabled(s, TakesHandle(t))
    requires t.Worker? && s.handle.Some? && s.handle.value != t.n ==> s.flags.closing
    ensures TakenInv(ApplyTakes(s, t))
  {
    TakesDoes(s, t);
    hide ApplyTakes;
  }

  lemma TakesKeepsRest(s: State, t: Thread)
    requires SerialInv(s) && Enabled(s, TakesHandle(t))
    ensures
      var s' := ApplyTakes(s, t);
      OneReport(s') && TakenInv(s') && OneInLoop(s') && LockInv(s') && !s'.crashed
  {
    if t.Worker? && s.handle.Some? && s.handle.value != t.n {
      StrangerIsClosing(s, t.n);
    }
    TakesKeepsReports(s, t);
    TakesKeepsTaken(s, t);
    LockKept(s, TakesHandle(t));
    TakesDoes(s, t);
    assert Apply(s, TakesHandle(t)) == ApplyTakes(s, t);
    hide ApplyTakes, Apply, LockInv, HandleInv, NumberInv, ThreadsInv, OneReport, TakenInv;
  }

  lemma TakesKeepsSerial(s: State, t: Thread)
    requires SerialInv(s) && Enabled(s, TakesHandle(t))
    ensures SerialInv(ApplyTakes(s, t))
  {
    hide ApplyTakes, Enabled, ThreadsInv, NumberInv, HandleInv, OneReport, TakenInv, OneInLoop, LockInv;
    TakesKeepsThreads(s, t);
    TakesKeepsHandle(s, t);
    TakesKeepsRest(s, t);
  }

  /** When a worker is started there is no other in its loop, and no handle to overwrite. */
  lemma NoneBeforeStart(s: State, t: Thread)
    requires SerialInv(s) && Enabled(s, StartsWorker(t))
    ensures s.handle.None? && s.holder == Some(t) && t.External?
    ensures forall w :: w in s.workers ==> w in s.detached && !InLoop(s.workers[w])
  {
    assert ThreadOk(s, t);
    assert forall w :: !Joining(s, w);
    forall w | w in s.workers
      ensures w in s.detached && !InLoop(s.workers[w])
    {
      assert DetachedOk(s, w);
    }
  }

  lemma StartsKeepsThreads(s: State, t: Thread)
    requires SerialInv(s) && Enabled(s, StartsWorker(t))
    ensures ThreadsInv(ApplyStarts(s, t)) && NumberInv(ApplyStarts(s, t))
  {
    var s' := ApplyStarts(s, t);
    forall u | u in s'.threads
      ensures ThreadOk(s', u)
    {
      assert ThreadOk(s, u);
    }
  }

  lemma StartsKeepsHandle(s: State, t: Thread)
    requires SerialInv(s) && Enabled(s, StartsWorker(t))
    ensures HandleInv(ApplyStarts(s, t))
  {
    NoneBeforeStart(s, t);
    var s' := ApplyStarts(s, t);
    forall v | v in s'.workers && v in s'.detached
      ensures DetachedOk(s', v)
    {
      assert DetachedOk(s, v);
    }
  }

  lemma StartsKeepsSerial(s: State, t: Thread)
    requires SerialInv(s) && Enabled(s, StartsWorker(t))
    ensures SerialInv(ApplyStarts(s, t))
  {
    StartsKeepsThreads(s, t);
    StartsKeepsHandle(s, t);
    NoneBeforeStart(s, t);
    LockKept(s, StartsWorker(t));
    hide ThreadsInv, HandleInv, NumberInv, LockInv, ThreadOk;
  }

  lemma SerialKept(s: State, a: Step)
    requires SerialInv(s) && Enabled(s, a) && Polite(s, a)
    ensures SerialInv(Apply(s, a))
  {
    hide SerialInv, ApplyStarts, ApplyTakes, ApplyBeginLoss, ApplyNotifies;
    if Plain(a) {
      PlainKeepsSerial(s, a);
    } else if WorkerStep(a) {
      WorkerStepAdvances(s, a);
      AdvanceKeepsSerial(s, Apply(s, a));
    } else {
      match a {
        case Notifies(t) => NotifiesKeepsSerial(s, t);
        case TakesHandle(t) => TakesKeepsSerial(s, t);
        case StartsWorker(t) => StartsKeepsSerial(s, t);
        case BeginLoss(t) => WorkerLossKeepsSerial(s, t.n);
      }
    }
  }

  lemma {:induction false} RunKeepsSerial(s: State, steps: seq<Step>)
    requires SerialInv(s) && Runnable(s, steps) && Serial(s, steps)
    ensures SerialInv(Run(s, steps))
    decreases |steps|
  {
    hide SerialInv, Apply, Enabled, Polite;
    if steps != [] {
      SerialKept(s, steps[0]);
      RunKeepsSerial(Apply(s, steps[0]), steps[1..]);
    }
  }

  /** While the transport reports one thing at a time, in every run the handle of a worker is
      never overwritten before the worker is joined or detached, and at most one worker is in
      its loop. */
  lemma WorkersSucceedEachOther(steps: seq<Step>)
    requires Runnable(Init(), steps) && Serial(Init(), steps)
    ensures
      var s := Run(Init(), steps);
      && !s.crashed
      && forall v, w :: v in s.workers && w in s.workers && InLoop(s.workers[v]) && InLoop(s.workers[w]) ==> v == w
  {
    RunKeepsSerial(Init(), steps);
  }

  // ----- Runs that do happen -----

  /** A handshake up to the test of its start, when there is no worker to stop. */
  lemma GreetLeads(s: State, t: Thread) returns (steps: seq<Step>)
    requires Free(s, t) && t.External? && s.connected != {}
    requires s.holder.None? && s.handle.None? && s.workers == map[]
    ensures steps == [BeginHandshake(t), Requests(t), Notifies(t), TakesHandle(t), Greet(t)] && Runnable(s, steps)
    ensures Run(s, steps) == s.(flags := SetOpen(RequestStop(s.flags), true), threads := s.threads[t := Tests])
  {
    hide Runnable, Run;
    var first := StopLeads(s, t);
    var s1 := Run(s, first);
    RunSnoc(s, first, TakesHandle(t));
    steps := first + [TakesHandle(t)];
    RunSnoc(s, steps, Greet(t));
    steps := steps + [Greet(t)];
    assert Run(s, steps).threads == s.threads[t := Tests];
  }

  lemma StopLeads(s: State, t: Thread) returns (steps: seq<Step>)
    requires Free(s, t) && t.External? && s.connected != {} && s.holder.None? && s.workers == map[]
    ensures steps == [BeginHandshake(t), Requests(t), Notifies(t)] && Runnable(s, steps)
    ensures Run(s, steps) == s.(flags := RequestStop(s.flags), threads := s.threads[t := Takes(ToGreet)])
  {
    hide Runnable, Run;
    RunNothing(s);
    RunSnoc(s, [], BeginHandshake(t));
    steps := [] + [BeginHandshake(t)];
    RunSnoc(s, steps, Requests(t));
    steps := steps + [Requests(t)];
    assert Rouse(s.workers) == s.workers;
    RunSnoc(s, steps, Notifies(t));
    steps := steps + [Notifies(t)];
    assert Run(s, steps).threads == s.threads[t := Takes(ToGreet)];
  }

  lemma RunNothing(s: State)
    ensures Runnable(s, []) && Run(s, []) == s
  {
  }

  /** A first open call has reached the transport. */
  lemma Opened() returns (steps: seq<Step>)
    ensures Runnable(Init(), steps) && Run(Init(), steps) == Init().(passed := 1, connected := {0})
  {
    hide Runnable, Run;
    var t := External(0);
    RunNothing(Init());
    RunSnoc(Init(), [], BeginOpen(t));
    steps := [] + [BeginOpen(t)];
    RunSnoc(Init(), steps, OpenClears(t));
    steps := steps + [OpenClears(t)];
    RunSnoc(Init(), steps, OpenConnects(t));
    steps := steps + [OpenConnects(t)];
    assert Run(Init(), steps).threads == map[];
  }

  /** Then a close runs up to its last action. */
  lemma AlmostClosed() returns (steps: seq<Step>)
    ensures Runnable(Init(), steps)
    ensures
      Run(Init(), steps) ==
      Init().(passed := 1, connected := {0}, flags := Flags(false, true, true, 0),
              threads := map[External(1) := CloseShuts(false)])
  {
    hide Runnable, Run;
    var t := External(1);
    steps := Opened();
    RunSnoc(Init(), steps, BeginClose(t, false));
    steps := steps + [BeginClose(t, false)];
    RunSnoc(Init(), steps, Requests(t));
    steps := steps + [Requests(t)];
    RunSnoc(Init(), steps, Notifies(t));
    steps := steps + [Notifies(t)];
    assert Rouse(map[]) == map[];
    assert Run(Init(), steps).threads == map[t := CloseShuts(false)];
  }

  /** A handshake that arrives after a finished close opens the engine again. */
  lemma HandshakeReopens() returns (before: seq<Step>, after: seq<Step>)
    ensures Runnable(Init(), before + [Shuts(External(1))] + after) && Reopened(after)
    ensures Run(Init(), before + [Shuts(External(1))] + after).flags.open
  {
    hide Runnable, Run;
    before := AlmostClosed();
    RunSnoc(Init(), before, Shuts(External(1)));
    var whole := before + [Shuts(External(1))];
    var s := Run(Init(), whole);
    assert s.threads == map[];
    after := GreetLeads(s, External(0));
    RunConcat(Init(), whole, after);
    assert after[4].Greet? && after[5..] == [];
  }

  lemma BothGreeted() returns (steps: seq<Step>)
    ensures Runnable(Init(), steps)
    ensures
      Run(Init(), steps) ==
      Init().(passed := 1, connected := {0}, flags := Flags(true, false, true, 0),
              threads := map[External(0) := Tests, External(1) := Tests])
  {
    hide Runnable, Run;
    steps := Opened();
    var first := GreetLeads(Run(Init(), steps), External(0));
    RunConcat(Init(), steps, first);
    steps := steps + first;
    var second := GreetLeads(Run(Init(), steps), External(1));
    RunConcat(Init(), steps, second);
    steps := steps + second;
    assert Run(Init(), steps).threads == map[External(0) := Tests, External(1) := Tests];
  }

  /** Two handshakes at once, which the transport must not report, end the program. */
  lemma OverlappingHandshakesTerminate() returns (steps: seq<Step>)
    ensures Runnable(Init(), steps) && Run(Init(), steps).crashed
  {
    hide Runnable, Run;
    steps := BothGreeted();
    RunSnoc(Init(), steps, TestsStart(External(0)));
    steps := steps + [TestsStart(External(0))];
    RunSnoc(Init(), steps, StartsWorker(External(0)));
    steps := steps + [StartsWorker(External(0))];
    assert Run(Init(), steps).handle == Some(0);
    RunSnoc(Init(), steps, TestsStart(External(1)));
    steps := steps + [TestsStart(External(1))];
    RunSnoc(Init(), steps, StartsWorker(External(1)));
    steps := steps + [StartsWorker(External(1))];
  }

  /** An open call can be past its test, and a starter past its own, when the mark is set. */
  lemma OpenRacesClose() returns (steps: seq<Step>)
    ensures Runnable(Init(), steps) && Run(Init(), steps).flags.closing && Pending(Run(Init(), steps), 0)
  {
    hide Runnable, Run;
    RunNothing(Init());
    RunSnoc(Init(), [], BeginOpen(External(0)));
    steps := [] + [BeginOpen(External(0))];
    RunSnoc(Init(), steps, BeginClose(External(1), false));
    steps := steps + [BeginClose(External(1), false)];
    assert Run(Init(), steps).threads[External(0)] == Tested(0);
  }

  lemma StartRacesClose() returns (steps: seq<Step>)
    ensures Runnable(Init(), steps) && Run(Init(), steps).flags.closing && Run(Init(), steps).holder.Some?
  {
    hide Runnable, Run;
    steps := Opened();
    var greeting := GreetLeads(Run(Init(), steps), External(0));
    RunConcat(Init(), steps, greeting);
    steps := steps + greeting;
    RunSnoc(Init(), steps, TestsStart(External(0)));
    steps := steps + [TestsStart(External(0))];
    RunSnoc(Init(), steps, BeginClose(External(1), false));
    steps := steps + [BeginClose(External(1), false)];
  }
}
