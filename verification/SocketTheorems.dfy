/** Statements about every run of a socket, whatever its threads do. */
module SocketTheorems {
  import opened AckScheduler
  import opened SocketCore
  import opened SocketMachine
  import SocketSafety
  import SocketDelivery

  lemma InvKept(s: State, a: Step)
    requires Inv(s) && Enabled(s, a)
    ensures Inv(Apply(s, a))
  {
    SocketSafety.AgreedKept(s, a);
    SocketDelivery.DeliveredKept(s, a);
  }

  lemma {:induction false} RunKeepsInv(s: State, steps: seq<Step>)
    requires Inv(s) && Runnable(s, steps)
    ensures Inv(Run(s, steps))
    decreases |steps|
  {
    if steps != [] {
      InvKept(s, steps[0]);
      RunKeepsInv(Apply(s, steps[0]), steps[1..]);
    }
  }

  /** Every state a socket can reach satisfies the invariant. */
  lemma InReach(start: Time, steps: seq<Step>)
    requires Runnable(Init(start), steps)
    ensures Inv(Run(Init(start), steps))
  {
    RunKeepsInv(Init(start), steps);
  }

  lemma {:induction false} RunConcat(s: State, a: seq<Step>, b: seq<Step>)
    ensures Runnable(s, a + b) <==> Runnable(s, a) && Runnable(Run(s, a), b)
    ensures Runnable(s, a + b) ==> Run(s, a + b) == Run(Run(s, a), b)
    decreases |a|
  {
    if a == [] {
      assert a + b == b;
    } else {
      assert (a + b)[0] == a[0] && (a + b)[1..] == a[1..] + b;
      if Enabled(s, a[0]) {
        RunConcat(Apply(s, a[0]), a[1..], b);
      }
    }
  }

  // ----- Timed callbacks -----

  /** Each timed callback is invoked at most once; one that a cancel removed never; and the
      fates are exhaustive: no registered callback is forgotten. */
  lemma CallbackAtMostOnce(start: Time, steps: seq<Step>)
    requires Runnable(Init(start), steps)
    ensures
      var s := Run(Init(start), steps);
      && (forall i, j :: 0 <= i < j < |s.invoked| ==> s.invoked[i].id != s.invoked[j].id)
      && (forall i :: 0 <= i < |s.invoked| ==> s.invoked[i].id !in s.cancelled && s.invoked[i].id !in s.core.live)
      && (forall id :: id in s.registered <==> id in s.core.live || id in s.cancelled || Invoked(s, id))
      && s.core.live !! s.cancelled
  {
    InReach(start, steps);
  }

  /** A callback says `timeout` only when its deadline had passed at the moment it was
      decided, and `acknowledged` only strictly before that. */
  lemma OutcomeIsTruthful(start: Time, steps: seq<Step>, i: nat)
    requires Runnable(Init(start), steps)
    requires i < |Run(Init(start), steps).invoked|
    ensures
      var s := Run(Init(start), steps);
      var v := s.invoked[i];
      v.id in s.registered && (v.status == Timeout <==> s.registered[v.id] <= v.at)
  {
    InReach(start, steps);
    assert Sound(Run(Init(start), steps), Run(Init(start), steps).invoked[i]);
  }

  /** The logs only grow. */
  predicate Extends(s: State, s': State) {
    && s.invoked <= s'.invoked && s.handed <= s'.handed && s.emitted <= s'.emitted
    && s.cancelled <= s'.cancelled && s.dropped <= s'.dropped && s.now <= s'.now
    && (forall i :: |s.invoked| <= i < |s'.invoked| ==> s.now <= s'.invoked[i].at)
  }

  lemma EmissionExtends(s: State, a: Step)
    requires Enabled(s, a) && (a.Emit? || a.TimedEmit?)
    ensures Extends(s, Apply(s, a))
  {
  }

  lemma ExpiryExtends(s: State)
    requires s.worker.Holds?
    ensures Extends(s, ApplyWorkerExpires(s))
  {
    hide Purge, Purged;
  }

  lemma AckExtends(s: State, id: int)
    ensures Extends(s, ApplyAck(s, id))
  {
    hide Purge, Purged, Notify;
  }

  lemma FlushActsExtends(s: State, f: nat)
    requires f in s.flushers && HasPacket(s.flushers[f])
    ensures Extends(s, ApplyFlushActs(s, f))
  {
    hide Purge, Purged;
  }

  lemma StepExtends(s: State, a: Step)
    requires Enabled(s, a)
    ensures Extends(s, Apply(s, a))
  {
    hide Purge, Purged, ApplyEmit, ApplyTimedEmit, ApplyWorkerExpires, ApplyAck, ApplyFlushActs;
    if a.Emit? || a.TimedEmit? {
      EmissionExtends(s, a);
    } else {
      match a {
        case WorkerExpires => ExpiryExtends(s);
        case Ack(id) => AckExtends(s, id);
        case FlushActs(f) => FlushActsExtends(s, f);
        case _ =>
      }
    }
  }

  lemma {:induction false} RunExtends(s: State, steps: seq<Step>)
    requires Runnable(s, steps)
    ensures Extends(s, Run(s, steps))
    decreases |steps|
  {
    if steps != [] {
      StepExtends(s, steps[0]);
      RunExtends(Apply(s, steps[0]), steps[1..]);
    }
  }

  /** Once a cancel has removed a callback, no continuation of the run ever invokes it. */
  lemma CancelIsFinal(start: Time, before: seq<Step>, after: seq<Step>, id: int)
    requires Runnable(Init(start), before + after) && Runnable(Init(start), before)
    requires id in Run(Init(start), before).cancelled
    ensures !Invoked(Run(Init(start), before + after), id)
  {
    RunConcat(Init(start), before, after);
    RunExtends(Run(Init(start), before), after);
    InReach(start, before + after);
  }

  // ----- No timeout is lost -----

  /** A live callback is in the deadline map or in the worker's hands, and a worker that
      waits with no notification outstanding wakes no later than the earliest deadline. */
  lemma NoDeadlineUnattended(start: Time, steps: seq<Step>, id: int)
    requires Runnable(Init(start), steps)
    requires id in Run(Init(start), steps).core.live
    ensures
      var s := Run(Init(start), steps);
      && id in s.registered
      && (s.worker == Holds(id) || (id in s.core.deadlines && s.core.deadlines[id] == s.registered[id]))
      && !s.worker.Absent? && !s.worker.Asleep?
      && (s.worker.AsleepUntil? ==> s.worker.wake <= s.registered[id])
  {
    InReach(start, steps);
  }

  /** A step of the worker's own thread. */
  predicate WorkerStep(s: State, a: Step) {
    match a
    case WorkerSleeps => true
    case WorkerSleepsUntil(_) => true
    case WorkerWakes => true
    case WorkerClaims(_) => true
    case WorkerExpires => true
    case CallbackReturns(id) => s.worker == Calling(id)
    case _ => false
  }

  /** An emission whose deadline is earlier than that of `id`. */
  predicate Overtakes(s: State, a: Step, id: int)
    requires Enabled(s, a) && id in s.registered
  {
    a.TimedEmit? && DeadlineFor(a.start, a.timeout) < s.registered[id]
  }

  /** The deadlines the worker has to claim before that of `id`, and its own. */
  function InFront(s: State, id: int): set<int>
    requires id in s.registered
  {
    set k | k in s.core.deadlines && !Less(Entry(s.registered[id], id), Entry(s.core.deadlines[k], k))
  }

  function Phase(w: Worker): nat {
    match w
    case Holds(_) => 2
    case Calling(_) => 1
    case Asleep => 1
    case AsleepUntil(_) => 1
    case Ready => 0
    case Absent => 0
  }

  /** How many steps of the worker lie before the report of `id`, at most. */
  function Rank(s: State, id: int): nat
    requires id in s.registered
  {
    if s.worker == Holds(id) then 1 else 3 * |InFront(s, id)| + Phase(s.worker)
  }

  lemma SubsetSize(a: set<int>, b: set<int>)
    requires a <= b
    ensures |a| <= |b|
  {
    assert b == a + (b - a);
  }

  lemma RankPositive(s: State, id: int)
    requires Ids(s) && Linked(s) && id in s.core.live
    ensures Rank(s, id) >= 1
  {
    if s.worker != Holds(id) {
      assert id in InFront(s, id);
    }
  }

  /** A step after which no deadline was added and the worker is no further from the report. */
  lemma RankFalls(s: State, s': State, id: int)
    requires id in s.registered && id in s'.registered && s'.registered[id] == s.registered[id]
    requires s'.core.deadlines.Keys <= s.core.deadlines.Keys
    requires forall k :: k in s'.core.deadlines ==> s'.core.deadlines[k] == s.core.deadlines[k]
    requires (s.worker == Holds(id)) == (s'.worker == Holds(id))
    ensures Rank(s', id) + Phase(s.worker) <= Rank(s, id) + Phase(s'.worker)
  {
    SubsetSize(InFront(s', id), InFront(s, id));
  }

  lemma ClaimLowersRank(s: State, id: int, least: int)
    requires Ids(s) && Linked(s) && s.worker.Ready? && id in s.core.live && IsLeast(s.core.deadlines, least)
    ensures Rank(ApplyClaim(s, least), id) < Rank(s, id)
  {
    var s' := ApplyClaim(s, least);
    assert id in InFront(s, id);
    if least != id {
      assert least in InFront(s, id);
      assert InFront(s', id) == InFront(s, id) - {least};
    }
  }

  lemma RegistrationFront(s: State, s': State, id: int, deadline: Time)
    requires Ids(s) && id in s.registered && SocketSafety.Registers(s, s', deadline)
    ensures id in s'.registered && s'.registered[id] == s.registered[id]
    ensures |InFront(s', id)| <= |InFront(s, id)| + if deadline < s.registered[id] then 1 else 0
  {
    assert s'.registered[id] == s.registered[id];
    var added := if deadline < s.registered[id] then {s.core.nextId} else {};
    assert InFront(s', id) <= InFront(s, id) + added;
    SubsetSize(InFront(s', id), InFront(s, id) + added);
  }

  lemma EmissionRank(s: State, id: int, t: nat, start: Time, timeout: int)
    requires Ids(s) && Alarms(s) && id in s.registered && start <= MAX_TIME && timeout > 0
    ensures
      var s' := ApplyTimedEmit(s, t, start, timeout);
      && id in s'.registered && s'.registered[id] == s.registered[id]
      && Rank(s', id) <= Rank(s, id) + if DeadlineFor(start, timeout) < s.registered[id] then 3 else 0
  {
    hide DeadlineFor, ApplyTimedEmit, InFront, Ids;
    SocketSafety.TimedEmitRegisters(s, t, start, timeout);
    if !s.core.closed {
      RegistrationFront(s, ApplyTimedEmit(s, t, start, timeout), id, DeadlineFor(start, timeout));
    }
  }

  /** While an overdue callback stays live, the worker cannot fall asleep. */
  lemma NoSleepWhileOverdue(s: State, a: Step, id: int)
    requires Ids(s) && Linked(s) && Enabled(s, a) && id in s.core.live && SocketMachine.Reached(s, id)
    ensures !a.WorkerSleeps? && !a.WorkerSleepsUntil?
  {
    assert forall k :: IsLeast(s.core.deadlines, k) && id in s.core.deadlines ==>
                         !Less(Entry(s.core.deadlines[id], id), Entry(s.core.deadlines[k], k));
  }

  predicate WorkerChanges(a: Step) {
    a.WorkerWakes? || a.WorkerExpires? || a.Ack? || a.CallbackReturns?
  }

  lemma FlushElsewhere(s: State, a: Step)
    requires Enabled(s, a) && (a.FlushLooks? || a.FlushActs?)
    ensures
      var s' := Apply(s, a);
      s'.registered == s.registered && s'.worker == s.worker && s'.core.deadlines == s.core.deadlines
  {
    hide Purge, Purged;
  }

  lemma EmitElsewhere(s: State, t: nat)
    ensures
      var s' := ApplyEmit(s, t);
      s'.registered == s.registered && s'.worker == s.worker && s'.core.deadlines == s.core.deadlines
  {
  }

  /** The steps that touch neither the worker nor a deadline. */
  lemma ElsewhereRank(s: State, a: Step, id: int)
    requires Enabled(s, a) && id in s.registered && !WorkerChanges(a)
    requires !a.TimedEmit? && !a.WorkerClaims? && !a.WorkerSleeps? && !a.WorkerSleepsUntil? && !a.Cancels?
    ensures
      var s' := Apply(s, a);
      && s'.registered == s.registered && s'.worker == s.worker && s'.core.deadlines == s.core.deadlines
      && Rank(s', id) == Rank(s, id) && !WorkerStep(s, a)
  {
    hide Rank, ApplyEmit, ApplyFlushLooks, ApplyFlushActs;
    if a.FlushLooks? || a.FlushActs? {
      FlushElsewhere(s, a);
    } else if a.Emit? {
      EmitElsewhere(s, a.thread);
    }
    RankDepends(s, Apply(s, a), id);
  }

  lemma RankDepends(s: State, s': State, id: int)
    requires id in s.registered && s'.registered == s.registered && s'.core.deadlines == s.core.deadlines
    requires s'.worker == s.worker
    ensures Rank(s', id) == Rank(s, id)
  {
    assert InFront(s', id) == InFront(s, id);
  }

  lemma AckRank(s: State, id: int, acked: int)
    requires id in s.registered && id in ApplyAck(s, acked).core.live
    ensures ApplyAck(s, acked).registered == s.registered && Rank(ApplyAck(s, acked), id) <= Rank(s, id)
  {
    hide Purge, Purged, Rank;
    var s' := ApplyAck(s, acked);
    assert s'.core.deadlines.Keys <= s.core.deadlines.Keys;
    RankFalls(s, s', id);
  }

  lemma ExpiryRank(s: State, id: int)
    requires Ids(s) && id in s.core.live && s.worker.Holds? && id in ApplyWorkerExpires(s).core.live
    ensures
      ApplyWorkerExpires(s).registered == s.registered && Rank(ApplyWorkerExpires(s), id) < Rank(s, id)
  {
    hide Purge, Purged, Rank;
    RankFalls(s, ApplyWorkerExpires(s), id);
  }

  lemma ReturnRank(s: State, id: int, returned: int)
    requires id in s.registered
    ensures
      && ApplyReturn(s, returned).registered == s.registered
      && Rank(ApplyReturn(s, returned), id) + (if s.worker == Calling(returned) then 1 else 0) <= Rank(s, id)
  {
    hide Rank;
    RankFalls(s, ApplyReturn(s, returned), id);
  }

  lemma WakeRank(s: State, id: int)
    requires id in s.registered && (s.worker.Asleep? || s.worker.AsleepUntil?)
    ensures Rank(s.(worker := Ready), id) < Rank(s, id)
  {
    hide Rank;
    RankFalls(s, s.(worker := Ready), id);
  }

  /** Every step of any thread either decides an overdue callback or keeps account: a worker
      step lowers the rank, and only an emission with an earlier deadline raises it. */
  lemma StepRank(s: State, a: Step, id: int)
    requires Inv(s) && Enabled(s, a) && id in s.core.live && SocketMachine.Reached(s, id)
    requires id in Apply(s, a).core.live
    ensures
      var s' := Apply(s, a);
      && SocketMachine.Reached(s', id) && s'.registered[id] == s.registered[id]
      && Rank(s', id) + (if WorkerStep(s, a) then 1 else 0) <= Rank(s, id) + (if Overtakes(s, a, id) then 3 else 0)
  {
    hide Rank, DeadlineFor, Delivered;
    hide ApplyTimedEmit, ApplyAck, ApplyWorkerExpires, ApplyReturn, ApplyFlushActs, ApplyFlushLooks;
    StepExtends(s, a);
    NoSleepWhileOverdue(s, a, id);
    match a {
      case TimedEmit(t, start, timeout) => EmissionRank(s, id, t, start, timeout);
      case WorkerClaims(least) => ClaimLowersRank(s, id, least);
      case WorkerWakes => WakeRank(s, id);
      case WorkerExpires => ExpiryRank(s, id);
      case Ack(acked) => AckRank(s, id, acked);
      case CallbackReturns(returned) => ReturnRank(s, id, returned);
      case _ =>
        ElsewhereRank(s, a, id);
    }
  }

  function WorkerSteps(s: State, steps: seq<Step>): nat
    requires Runnable(s, steps)
    decreases |steps|
  {
    if steps == [] then 0
    else (if WorkerStep(s, steps[0]) then 1 else 0) + WorkerSteps(Apply(s, steps[0]), steps[1..])
  }

  function Overtaken(s: State, steps: seq<Step>, deadline: Time): nat
    requires Runnable(s, steps)
    decreases |steps|
  {
    if steps == [] then 0
    else
      (if steps[0].TimedEmit? && DeadlineFor(steps[0].start, steps[0].timeout) < deadline then 1 else 0) +
      Overtaken(Apply(s, steps[0]), steps[1..], deadline)
  }

  /** A callback that is no longer live never is again. */
  lemma GoneForGood(s: State, steps: seq<Step>, id: int)
    requires Inv(s) && Runnable(s, steps) && id in s.registered && id !in s.core.live
    ensures id !in Run(s, steps).core.live
  {
    hide Run, Runnable;
    RunExtends(s, steps);
    RunKeepsInv(s, steps);
    FateIsFinal(s, Run(s, steps), id);
  }

  lemma FateIsFinal(s: State, s': State, id: int)
    requires Fates(s) && Fates(s') && Extends(s, s') && id in s.registered && id !in s.core.live
    ensures id !in s'.core.live
  {
  }

  lemma {:induction false} RunRank(s: State, steps: seq<Step>, id: int)
    requires Inv(s) && Runnable(s, steps) && id in s.core.live && SocketMachine.Reached(s, id)
    requires id in Run(s, steps).core.live
    ensures
      var s' := Run(s, steps);
      && Inv(s')
      && WorkerSteps(s, steps) < Rank(s, id) + 3 * Overtaken(s, steps, s.registered[id])
    decreases |steps|
  {
    hide Apply, Enabled, Rank, DeadlineFor, Inv, WorkerStep;
    if steps == [] {
      LiveRank(s, id);
    } else {
      var s' := Apply(s, steps[0]);
      InvKept(s, steps[0]);
      StepKeepsRegistered(s, steps[0], id);
      if id !in s'.core.live {
        GoneForGood(s', steps[1..], id);
      }
      StepRank(s, steps[0], id);
      RunRank(s', steps[1..], id);
    }
  }

  lemma LiveRank(s: State, id: int)
    requires Inv(s) && id in s.core.live
    ensures id in s.registered && Rank(s, id) >= 1
  {
    RankPositive(s, id);
  }

  /** No timeout is lost, in any interleaving: from a reachable state in which a live callback
      is overdue, once the worker has taken `Rank` steps, plus three for each emission with an
      earlier deadline that came in meanwhile, the callback has been invoked as timed out or a
      cancel has removed it, whatever the other threads did. */
  lemma OverdueIsDecided(s: State, steps: seq<Step>, id: int)
    requires Inv(s) && Runnable(s, steps) && id in s.core.live && SocketMachine.Reached(s, id)
    requires WorkerSteps(s, steps) >= Rank(s, id) + 3 * Overtaken(s, steps, s.registered[id])
    ensures
      var s' := Run(s, steps);
      && id !in s'.core.live
      && (id in s'.cancelled ||
          exists i :: |s.invoked| <= i < |s'.invoked| && s'.invoked[i].id == id && s'.invoked[i].status == Timeout)
  {
    hide Run, Runnable, Rank, WorkerSteps, Overtaken;
    if id in Run(s, steps).core.live {
      RunRank(s, steps, id);
    } else {
      RunExtends(s, steps);
      RunKeepsInv(s, steps);
      RunKeepsRegistered(s, steps, id);
      DecidedAsTimeout(s, Run(s, steps), id);
    }
  }

  lemma {:induction false} RunKeepsRegistered(s: State, steps: seq<Step>, id: int)
    requires Inv(s) && Runnable(s, steps) && id in s.registered
    ensures id in Run(s, steps).registered && Run(s, steps).registered[id] == s.registered[id]
    decreases |steps|
  {
    hide Inv;
    if steps != [] {
      InvKept(s, steps[0]);
      StepKeepsRegistered(s, steps[0], id);
      RunKeepsRegistered(Apply(s, steps[0]), steps[1..], id);
    }
  }

  lemma StepKeepsRegistered(s: State, a: Step, id: int)
    requires Inv(s) && Enabled(s, a) && id in s.registered
    ensures id in Apply(s, a).registered && Apply(s, a).registered[id] == s.registered[id]
  {
    hide DeadlineFor, ApplyTimedEmit, Purge, Purged, Delivered;
    if a.TimedEmit? {
      SocketSafety.TimedEmitRegisters(s, a.thread, a.start, a.timeout);
    }
  }

  lemma DecidedAsTimeout(s: State, s': State, id: int)
    requires Fates(s) && Fates(s') && Outcomes(s') && Extends(s, s') && id in s.core.live && id !in s'.core.live
    requires SocketMachine.Reached(s, id) && id in s'.registered && s'.registered[id] == s.registered[id]
    ensures id in s'.cancelled ||
            exists i :: |s.invoked| <= i < |s'.invoked| && s'.invoked[i].id == id && s'.invoked[i].status == Timeout
  {
    assert forall k :: 0 <= k < |s.invoked| ==> s'.invoked[k] == s.invoked[k];
    if id !in s'.cancelled {
      var i :| 0 <= i < |s'.invoked| && s'.invoked[i].id == id;
      assert Sound(s', s'.invoked[i]);
    }
  }

  predicate WorkerAlone(s: State, steps: seq<Step>)
    requires Runnable(s, steps)
    decreases |steps|
  {
    steps == [] || (WorkerStep(s, steps[0]) && WorkerAlone(Apply(s, steps[0]), steps[1..]))
  }

  lemma {:induction false} AloneCounts(s: State, steps: seq<Step>)
    requires Runnable(s, steps) && WorkerAlone(s, steps)
    ensures WorkerSteps(s, steps) == |steps| && Run(s, steps).cancelled == s.cancelled
    ensures forall d :: Overtaken(s, steps, d) == 0
    decreases |steps|
  {
    hide DeadlineFor;
    if steps != [] {
      AloneCounts(Apply(s, steps[0]), steps[1..]);
    }
  }

  /** In particular every run of the worker alone that is long enough reports the timeout. */
  lemma OverdueIsReported(s: State, steps: seq<Step>, id: int)
    requires Inv(s) && Runnable(s, steps) && id in s.core.live && SocketMachine.Reached(s, id)
    requires WorkerAlone(s, steps) && |steps| >= Rank(s, id)
    ensures
      var s' := Run(s, steps);
      exists i :: |s.invoked| <= i < |s'.invoked| && s'.invoked[i].id == id && s'.invoked[i].status == Timeout
  {
    hide Run, Runnable, Rank, WorkerSteps, Overtaken, WorkerAlone;
    AloneCounts(s, steps);
    OverdueIsDecided(s, steps, id);
  }

  /** And the worker is never stuck: while a live callback is overdue it can take a step. */
  lemma WorkerNeverStuck(s: State, id: int) returns (a: Step)
    requires Inv(s) && id in s.core.live && SocketMachine.Reached(s, id)
    ensures Enabled(s, a) && WorkerStep(s, a)
  {
    match s.worker {
      case AsleepUntil(_) => return WorkerWakes;
      case Calling(other) => return CallbackReturns(other);
      case Holds(_) => return WorkerExpires;
      case Ready =>
        var least := LeastExists(s.core.deadlines);
        assert !Less(Entry(s.core.deadlines[id], id), Entry(s.core.deadlines[least], least));
        return WorkerClaims(least);
    }
  }

  // ----- The send buffer -----

  lemma AtMostOne(flushers: map<nat, Flusher>)
    requires forall f, g :: f in flushers && g in flushers ==> f == g
    ensures |flushers| <= 1
  {
    if flushers.Keys != {} {
      var f :| f in flushers;
      assert flushers.Keys == {f};
      assert |flushers| == |flushers.Keys|;
    } else {
      assert flushers == map[];
    }
  }

  /** At most one call is flushing, exactly while the flag is set, and a connected socket that
      nobody flushes has an empty buffer. */
  lemma FlushDiscipline(start: Time, steps: seq<Step>)
    requires Runnable(Init(start), steps)
    ensures
      var s := Run(Init(start), steps);
      && |s.flushers| <= 1
      && (s.core.flushing <==> s.flushers != map[])
      && (s.core.connected && s.flushers == map[] ==> s.core.buffer == [])
  {
    InReach(start, steps);
    AtMostOne(Run(Init(start), steps).flushers);
  }

  /** Packets of one thread go out in emission order, packets that went through the buffer go
      out in insertion order, and none goes out twice. */
  lemma SentInOrder(start: Time, steps: seq<Step>, i: nat, j: nat)
    requires Runnable(Init(start), steps)
    requires i < j < |Run(Init(start), steps).handed|
    ensures
      var h := Run(Init(start), steps).handed;
      && (h[i].packet.thread == h[j].packet.thread ==> h[i].packet.tag < h[j].packet.tag)
      && (h[i].buffered && h[j].buffered ==> h[i].packet.tag < h[j].packet.tag)
      && h[i].packet != h[j].packet
  {
    InReach(start, steps);
    var h := Run(Init(start), steps).handed;
    assert OutBefore(h[i], h[j].packet, h[j].buffered);
  }

  /** Every emission is buffered, in a thread's hands, handed over or dropped.  What is
      dropped is timed, was never handed over, and its callback has been invoked or
      cancelled, or is overdue and still to be reported. */
  lemma NothingLostSilently(start: Time, steps: seq<Step>)
    requires Runnable(Init(start), steps)
    ensures
      var s := Run(Init(start), steps);
      && (forall i :: 0 <= i < |s.emitted| ==> Placed(s, s.emitted[i]))
      && (forall p :: p in s.dropped ==>
            && p.id in s.registered && !WasHanded(s, p) && p !in s.core.buffer
            && (Invoked(s, p.id) || p.id in s.cancelled || s.registered[p.id] <= s.now))
  {
    InReach(start, steps);
  }

  /** Whatever is handed over was decided under the lock while the socket was connected and, if
      it is timed, before its deadline: a packet emitted on a disconnected socket waits. */
  lemma SentBeforeDeadline(start: Time, steps: seq<Step>, i: nat)
    requires Runnable(Init(start), steps)
    requires i < |Run(Init(start), steps).handed|
    ensures
      var s := Run(Init(start), steps);
      var h := s.handed[i];
      h.decided.connected && (h.packet.id in s.registered ==> h.decided.at < s.registered[h.packet.id])
  {
    InReach(start, steps);
    var s := Run(Init(start), steps);
    assert InTime(s, s.handed[i].packet, s.handed[i].decided);
  }

  /** An untimed emission waits in the buffer, behind what is there, while the socket is
      disconnected or a flush is under way; otherwise its thread is about to send it. */
  lemma EmissionIsPlaced(s: State, t: nat)
    requires Enabled(s, Emit(t))
    ensures
      var s', p := Apply(s, Emit(t)), Packet(if t in s.ids then s.ids[t] else -1, t, |s.emitted|);
      && s'.emitted == s.emitted + [p]
      && (if s.core.connected && !s.core.flushing then
            s'.core.buffer == s.core.buffer && t in s'.sending && s'.sending[t].packet == p
          else
            s'.core.buffer == s.core.buffer + [p] && s'.sending == s.sending)
  {
  }

  /** A timed emission is refused exactly while the socket is closed.  It gets the next id and
      the clamped deadline; its packet is dropped exactly if that has passed, and otherwise
      placed like any other, under its id. */
  lemma TimedEmissionIsPlaced(s: State, t: nat, start: Time, timeout: int)
    requires Inv(s) && Enabled(s, TimedEmit(t, start, timeout))
    ensures
      var s', p := Apply(s, TimedEmit(t, start, timeout)), Packet(s.core.nextId, t, |s.emitted|);
      var deadline := DeadlineFor(start, timeout);
      if s.core.closed then s' == s
      else
        && s'.emitted == s.emitted + [p] && s'.core.live == s.core.live + {p.id}
        && s'.registered == s.registered[p.id := deadline] && s'.core.deadlines == s.core.deadlines[p.id := deadline]
        && (p in s'.dropped <==> deadline <= s.now)
        && (s.now < deadline ==>
              if s.core.connected && !s.core.flushing then
                s'.core.buffer == s.core.buffer && t in s'.sending && s'.sending[t].packet == p
              else
                s'.core.buffer == s.core.buffer + [p] && s'.sending == s.sending)
  {
    hide DeadlineFor;
    assert forall q :: q in s.dropped ==> Known(s, q) && q.tag < |s.emitted|;
  }

  /** A socket is connected as it was marked last; on becoming connected with no flush under way
      one is started. */
  lemma MarkedAsTold(s: State, connected: bool)
    requires Inv(s)
    ensures
      var s' := Apply(s, Marked(connected));
      && s'.core == s.core.(connected := connected, flushing := s'.core.flushing)
      && (connected && !s.core.connected && s.flushers == map[] ==>
            s'.core.flushing && s'.flushers == map[s.flushes := AtTop])
      && (!connected || s.core.connected || s.flushers != map[] ==> s'.flushers == s.flushers)
  {
  }

  /** Resuming opens the socket for timed emissions and changes nothing else. */
  lemma ResumesOpens(s: State)
    ensures
      var s' := Apply(s, Resumes);
      !s'.core.closed && s' == s.(core := s.core.(closed := s'.core.closed))
  {
  }

  // ----- Untimed callbacks -----

  /** In every run an untimed callback is pending or has been invoked, not both, and invoked
      once at most; nothing else is. */
  lemma UntimedAnsweredOnce(start: Time, steps: seq<Step>)
    requires Runnable(Init(start), steps)
    ensures
      var s := Run(Init(start), steps);
      && (forall id :: id in s.untimed <==> id in s.core.pending || id in s.answered)
      && (forall id :: id in s.answered ==> id !in s.core.pending)
      && (forall i, j :: 0 <= i < j < |s.answered| ==> s.answered[i] != s.answered[j])
  {
    InReach(start, steps);
  }

  /** An ack invokes the callback that waits for it: an untimed one if it is pending, a timed one
      if it is live, and otherwise nothing happens at all. */
  lemma AckInvokes(start: Time, steps: seq<Step>, id: int)
    requires Runnable(Init(start), steps)
    ensures
      var s := Run(Init(start), steps);
      var s' := Apply(s, Ack(id));
      && (id in s.core.pending ==>
            s'.answered == s.answered + [id] && s'.core == s.core.(pending := s.core.pending - {id})
            && s'.invoked == s.invoked)
      && (id in s.core.live ==>
            && s'.answered == s.answered && |s'.invoked| == |s.invoked| + 1
            && s'.invoked[|s.invoked|].id == id && s'.core.pending == s.core.pending)
      && (id !in s.core.pending && id !in s.core.live ==> s' == s)
  {
    InReach(start, steps);
    if id in Run(Init(start), steps).core.pending {
      PendingIsNotLive(Run(Init(start), steps), id);
    }
    hide Inv, Purge, Purged;
  }

  lemma PendingIsNotLive(s: State, id: int)
    requires Inv(s) && id in s.core.pending
    ensures id !in s.core.live
  {
  }

  // ----- Shutdown of one socket -----

  predicate Quiet(s: State) {
    Refusing(s.core)
  }

  lemma CancelQuiets(s: State)
    ensures Quiet(Apply(s, Cancels))
  {
  }

  lemma StepKeepsQuiet(s: State, a: Step)
    requires Quiet(s) && Enabled(s, a) && !a.Resumes?
    ensures Quiet(Apply(s, a))
    ensures Apply(s, a).core.active <= s.core.active && Apply(s, a).running <= s.running
    ensures Apply(s, a).invoked == s.invoked
  {
  }

  /** After a cancel, until timed emissions are resumed, no callback starts and the number in
      flight only falls; it counts the running callbacks, so at zero none is running. */
  lemma {:induction false} QuietLasts(s: State, steps: seq<Step>)
    requires Inv(s) && Quiet(s) && Runnable(s, steps)
    requires forall a :: a in steps ==> !a.Resumes?
    ensures
      var s' := Run(s, steps);
      && Quiet(s') && s'.invoked == s.invoked
      && s'.core.active <= s.core.active
      && s'.core.active == |s'.running|
      && (s.core.active == 0 ==> s'.core.active == 0 && s'.running == {})
    decreases |steps|
  {
    if steps != [] {
      StepKeepsQuiet(s, steps[0]);
      InvKept(s, steps[0]);
      QuietLasts(Apply(s, steps[0]), steps[1..]);
    }
  }
}
