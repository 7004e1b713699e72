/** Statements about every run of one Engine.IO client, whatever its threads do. */
module EngineTheorems {
  import opened Options
  import opened EngineCore
  import opened EngineMachine

  lemma InReach(steps: seq<Step>)
    requires Runnable(Init(), steps)
    ensures Inv(Run(Init(), steps))
  {
    RunKeepsInv(Init(), steps);
  }

  lemma {:induction false} RunConcat(s: State, a: seq<Step>, b: seq<Step>)
    ensures Runnable(s, a + b) <==> Runnable(s, a) && Runnable(Run(s, a), b)
    ensures Runnable(s, a + b) ==> Run(s, a + b) == Run(Run(s, a), b)
    decreases |a|
  {
    hide Apply, Enabled;
    if a == [] {
      assert a + b == b;
    } else {
      assert (a + b)[0] == a[0] && (a + b)[1..] == a[1..] + b;
      if Enabled(s, a[0]) {
        RunConcat(Apply(s, a[0]), a[1..], b);
      }
    }
  }

  lemma RunSnoc(s: State, steps: seq<Step>, a: Step)
    requires Runnable(s, steps) && Enabled(Run(s, steps), a)
    ensures Runnable(s, steps + [a]) && Run(s, steps + [a]) == Apply(Run(s, steps), a)
  {
    hide Apply, Enabled;
    RunConcat(s, steps, [a]);
    assert [a][1..] == [];
  }

  // ----- Behind the mark of a close -----

  /** What a step can do once a close has set its mark. */
  predicate Behind(s: State, s': State) {
    && s'.flags.closing && s'.passed == s.passed && s.connected <= s'.connected
    && s.flags.heartbeats <= s'.flags.heartbeats
    && (s.holder.None? ==> s'.holder.None? && s'.flags.heartbeats == s.flags.heartbeats)
    && (s'.holder.Some? ==> s'.flags.heartbeats == s.flags.heartbeats)
    && s'.flags.heartbeats <= s.flags.heartbeats + 1
    && (s.shut ==> s'.shut)
    && (forall w :: w in s'.workers && s'.workers[w].Asleep? ==> w in s.workers && s.workers[w].Asleep?)
  }

  lemma WorkerStepBehind(s: State, a: Step)
    requires s.flags.closing && Enabled(s, a) && WorkerStep(a)
    ensures Behind(s, Apply(s, a))
  {
  }

  lemma OpenStepBehind(s: State, a: Step)
    requires s.flags.closing && Enabled(s, a) && OpenStep(a)
    ensures Apply(s, a).passed == s.passed && s.connected <= Apply(s, a).connected
  {
  }

  lemma CloseStepBehind(s: State, a: Step)
    requires s.flags.closing && Enabled(s, a) && CloseStep(a)
    ensures Apply(s, a).flags.closing && (s.shut ==> Apply(s, a).shut)
  {
  }

  lemma StartStepBehind(s: State, a: Step)
    requires LockInv(s) && s.flags.closing && Enabled(s, a) && StartStep(a)
    ensures
      var s' := Apply(s, a);
      && s'.holder.None? && s'.flags.heartbeats == s.flags.heartbeats + (if s.holder.Some? then 1 else 0)
  {
  }

  lemma ThreadStepBehind(s: State, a: Step)
    requires LockInv(s) && s.flags.closing && Enabled(s, a) && !WorkerStep(a)
    ensures Behind(s, Apply(s, a))
  {
    ThreadEffect(s, a);
    if OpenStep(a) {
      OpenStepBehind(s, a);
    }
    if CloseStep(a) {
      CloseStepBehind(s, a);
    }
    if StartStep(a) {
      StartStepBehind(s, a);
    }
    hide Apply, Enabled;
  }

  lemma BehindTransitive(a: State, b: State, c: State)
    requires Behind(a, b) && Behind(b, c)
    ensures Behind(a, c)
  {
  }

  lemma {:induction false} RunBehind(s: State, steps: seq<Step>)
    requires Inv(s) && s.flags.closing && Runnable(s, steps)
    ensures Behind(s, Run(s, steps))
    decreases |steps|
  {
    hide Apply, Enabled, OpenersInv, CloserInv, AlarmInv, LockInv;
    if steps != [] {
      if WorkerStep(steps[0]) {
        WorkerStepBehind(s, steps[0]);
      } else {
        ThreadStepBehind(s, steps[0]);
      }
      InvKept(s, steps[0]);
      RunBehind(Apply(s, steps[0]), steps[1..]);
      BehindTransitive(s, Apply(s, steps[0]), Run(Apply(s, steps[0]), steps[1..]));
    }
  }

  /** Behind the mark no open call passes its test, and exactly those that had passed it before
      reach the transport, sooner or later, each of them once. */
  lemma OpensBehindMark(before: seq<Step>, after: seq<Step>)
    requires Runnable(Init(), before + after) && Runnable(Init(), before)
    requires Run(Init(), before).flags.closing
    ensures
      var s, s' := Run(Init(), before), Run(Init(), before + after);
      && s'.flags.closing && s.connected <= s'.connected
      && forall call: nat ::
           && (call in s'.connected || Pending(s', call) <==> call in s.connected || Pending(s, call))
           && !(call in s'.connected && Pending(s', call))
  {
    hide Apply, Enabled, Pending;
    RunConcat(Init(), before, after);
    InReach(before);
    InReach(before + after);
    RunBehind(Run(Init(), before), after);
    AccountOfOpens(Run(Init(), before));
    AccountOfOpens(Run(Init(), before + after));
  }

  lemma AccountOfOpens(s: State)
    requires OpenersInv(s)
    ensures forall call: nat :: call in s.connected || Pending(s, call) <==> call < s.passed
    ensures forall call: nat :: !(call in s.connected && Pending(s, call))
  {
  }

  /** Behind the mark the transport can still be asked to connect exactly when an open call is
      past its test. */
  lemma LateConnectIff(s: State)
    requires Inv(s) && s.flags.closing
    ensures
      (exists call: nat :: Pending(s, call))
      <==> exists steps :: Runnable(s, steps) && Run(s, steps).connected != s.connected
  {
    hide Inv;
    if call: nat :| Pending(s, call) {
      var t :| t in s.threads && Opener(s.threads[t]) && s.threads[t].call == call;
      var steps := OpenerConnects(s, t);
      assert Runnable(s, steps) && Run(s, steps).connected != s.connected;
    } else {
      forall steps | Runnable(s, steps)
        ensures Run(s, steps).connected == s.connected
      {
        NothingPending(s, steps);
      }
    }
  }

  lemma OpenerConnects(s: State, t: Thread) returns (steps: seq<Step>)
    requires Inv(s) && t in s.threads && Opener(s.threads[t])
    ensures Runnable(s, steps) && Run(s, steps).connected != s.connected
  {
    var call := s.threads[t].call;
    assert call !in s.connected;
    steps := [];
    if s.threads[t].Tested? {
      RunSnoc(s, steps, OpenClears(t));
      steps := steps + [OpenClears(t)];
    }
    RunSnoc(s, steps, OpenConnects(t));
    steps := steps + [OpenConnects(t)];
    assert call in Run(s, steps).connected;
  }

  lemma NothingPending(s: State, steps: seq<Step>)
    requires Inv(s) && s.flags.closing && Runnable(s, steps) && forall call: nat :: !Pending(s, call)
    ensures Run(s, steps).connected == s.connected
  {
    hide Pending;
    RunBehind(s, steps);
    RunKeepsInv(s, steps);
    AccountOfOpens(s);
    AccountOfOpens(Run(s, steps));
    assert forall call :: call in Run(s, steps).connected ==> call in s.connected;
  }

  lemma StarterStarts(s: State)
    requires LockInv(s) && s.holder.Some?
    ensures
      var steps := [StartsWorker(s.holder.value)];
      Runnable(s, steps) && Run(s, steps).flags.heartbeats == s.flags.heartbeats + 1
  {
    var steps := [StartsWorker(s.holder.value)];
    assert steps[1..] == [];
  }

  /** Behind the mark a heartbeat worker can still be started exactly when a starter is past its
      test, and then it is the only one. */
  lemma LateStartIff(s: State)
    requires Inv(s) && s.flags.closing
    ensures
      s.holder.Some?
      <==> exists steps :: Runnable(s, steps) && Run(s, steps).flags.heartbeats > s.flags.heartbeats
    ensures forall steps :: Runnable(s, steps) ==> Run(s, steps).flags.heartbeats <= s.flags.heartbeats + 1
  {
    hide Runnable, Run, OpenersInv, CloserInv, AlarmInv, LockInv;
    forall steps | Runnable(s, steps)
      ensures Behind(s, Run(s, steps))
    {
      RunBehind(s, steps);
    }
    if s.holder.Some? {
      StarterStarts(s);
    }
  }

  /** None is started after the close has requested the stop. */
  lemma NoStartAfterStopRequest(before: seq<Step>, t: Thread, after: seq<Step>)
    requires Runnable(Init(), before + [Requests(t)] + after) && Runnable(Init(), before)
    requires t in Run(Init(), before).threads && Run(Init(), before).threads[t].Marked?
    ensures Run(Init(), before + [Requests(t)] + after).flags.heartbeats == Run(Init(), before).flags.heartbeats
  {
    hide OpenersInv, AlarmInv;
    var whole := before + [Requests(t)];
    RunConcat(Init(), whole, after);
    RunConcat(Init(), before, [Requests(t)]);
    InReach(before);
    InReach(whole);
    RunSnoc(Init(), before, Requests(t));
    RunBehind(Run(Init(), whole), after);
  }

  /** In every run a worker asleep under a stop request has a notification coming; and once
      closing is set no worker that is awake, or that is started yet, ever goes to sleep. */
  lemma StopReachesWorker(before: seq<Step>, after: seq<Step>, w: nat)
    requires Runnable(Init(), before + after) && Runnable(Init(), before)
    ensures
      var s, s' := Run(Init(), before), Run(Init(), before + after);
      && (s'.flags.stop && At(s', w, Asleep) ==> exists t :: t in s'.threads && Notifier(s'.threads[t]))
      && (s.flags.closing && !At(s, w, Asleep) ==> !At(s', w, Asleep))
  {
    hide OpenersInv, LockInv, CloserInv;
    RunConcat(Init(), before, after);
    InReach(before);
    InReach(before + after);
    if Run(Init(), before).flags.closing {
      RunBehind(Run(Init(), before), after);
    }
  }

  // ----- Open after close -----

  /** The steps that clear the open flag; behind a finished close there is no other. */
  predicate Clears(a: Step) {
    a.BeginLoss? || a.OpenClears?
  }

  predicate NoneClears(steps: seq<Step>) {
    forall i :: 0 <= i < |steps| ==> !Clears(steps[i])
  }

  /** A handshake has set the flag and nothing has cleared it since. */
  predicate Reopened(steps: seq<Step>) {
    exists i :: 0 <= i < |steps| && steps[i].Greet? && NoneClears(steps[i + 1..])
  }

  lemma ReopenedTail(steps: seq<Step>)
    requires steps != []
    ensures Reopened(steps) <==> Reopened(steps[1..]) || (steps[0].Greet? && NoneClears(steps[1..]))
    ensures NoneClears(steps) <==> !Clears(steps[0]) && NoneClears(steps[1..])
  {
    var rest := steps[1..];
    if Reopened(rest) {
      var i :| 0 <= i < |rest| && rest[i].Greet? && NoneClears(rest[i + 1..]);
      assert steps[i + 1].Greet? && steps[i + 2..] == rest[i + 1..];
    }
    if Reopened(steps) {
      var i :| 0 <= i < |steps| && steps[i].Greet? && NoneClears(steps[i + 1..]);
      if i > 0 {
        assert rest[i - 1].Greet? && rest[i..] == steps[i + 1..];
      }
    }
    assert NoneClears(steps) ==> forall i :: 0 <= i < |rest| ==> rest[i] == steps[i + 1];
  }

  lemma StepSetsOpen(s: State, a: Step)
    requires CloserInv(s) && s.shut && Enabled(s, a)
    ensures Apply(s, a).flags.open == (if a.Greet? then true else if Clears(a) then false else s.flags.open)
    ensures Apply(s, a).shut
  {
    if WorkerStep(a) {
      WorkerStepIs(s, a);
    } else {
      ThreadEffect(s, a);
      if CloseStep(a) {
        CloseStepBehind(s, a);
      }
    }
    hide Apply;
  }

  lemma {:induction false} OpenFollows(s: State, steps: seq<Step>)
    requires Inv(s) && s.shut && Runnable(s, steps)
    ensures Run(s, steps).flags.open <==> Reopened(steps) || (s.flags.open && NoneClears(steps))
    decreases |steps|
  {
    hide Apply, Enabled, OpenersInv, LockInv, AlarmInv, CloserInv, Reopened, NoneClears, Clears;
    if steps == [] {
      NothingReopens();
    } else {
      StepSetsOpen(s, steps[0]);
      InvKept(s, steps[0]);
      OpenFollows(Apply(s, steps[0]), steps[1..]);
      ReopenedTail(steps);
      NotBoth(steps[0]);
    }
  }

  lemma NothingReopens()
    ensures !Reopened([]) && NoneClears([])
  {
  }

  lemma NotBoth(a: Step)
    ensures !(a.Greet? && Clears(a))
  {
  }

  /** After a close has finished, an engine is open again exactly when a handshake has been
      handled since, and after it neither a loss was reported nor an open call that had passed
      its test before the close cleared the flag.  `send` passes frames on exactly while open. */
  lemma OpenAfterCloseIff(before: seq<Step>, t: Thread, after: seq<Step>)
    requires Runnable(Init(), before + [Shuts(t)] + after)
    ensures Run(Init(), before + [Shuts(t)] + after).flags.open <==> Reopened(after)
  {
    hide Apply, Enabled, OpenersInv, LockInv, AlarmInv, CloserInv, Reopened, NoneClears;
    var whole := before + [Shuts(t)];
    RunConcat(Init(), whole, after);
    RunConcat(Init(), before, [Shuts(t)]);
    RunSnoc(Init(), before, Shuts(t));
    InReach(whole);
    ShutsClears(Run(Init(), before), t);
    OpenFollows(Run(Init(), whole), after);
  }

  lemma ShutsClears(s: State, t: Thread)
    requires Enabled(s, Shuts(t))
    ensures Apply(s, Shuts(t)).shut && !Apply(s, Shuts(t)).flags.open
  {
  }
}
