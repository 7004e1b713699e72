/** The reconnect counter, which is a plain integer: the test of the budget, the increment and
    the announcement are separate actions of the thread that reports the loss of an engine. */
module Reconnects {
  import opened Options
  import opened ClientCore

  datatype Pc =
    | Notified                       // on_engineio_close: the flag is tested next
    | Scheduling                     // schedule_reconnect: the budget is tested next
    | Counting                       // the counter is read next
    | Holding(attempt: int)          // and written next
    | Announcing(attempt: int)

  datatype State = State(flag: bool, budget: Budget, threads: map<nat, Pc>)

  datatype Step =
    | Loses(thread: nat)
    | TestsFlag(thread: nat)
    | TestsBudget(thread: nat)
    | Reads(thread: nat)
    | Writes(thread: nat)
    | Announces(thread: nat)
    | SetsFlag
    | Connects

  function Init(attempts: int): State {
    State(false, New(attempts).budget, map[])
  }

  predicate Enabled(s: State, a: Step) {
    match a
    case Loses(t) => t !in s.threads
    case TestsFlag(t) => t in s.threads && s.threads[t].Notified?
    case TestsBudget(t) => t in s.threads && s.threads[t].Scheduling?
    case Reads(t) => t in s.threads && s.threads[t].Counting?
    case Writes(t) => t in s.threads && s.threads[t].Holding?
    case Announces(t) => t in s.threads && s.threads[t].Announcing?
    case SetsFlag => true
    case Connects => true
  }

  function Goes(s: State, t: nat, pc: Pc): State {
    s.(threads := s.threads[t := pc])
  }

  function Leaves(s: State, t: nat): State {
    s.(threads := s.threads - {t})
  }

  function Apply(s: State, a: Step): State
    requires Enabled(s, a)
  {
    var b := s.budget;
    match a
    case Loses(t) => Goes(s, t, Notified)
    case TestsFlag(t) => if !s.flag && b.attempts > 0 then Goes(s, t, Scheduling) else Leaves(s, t)
    case TestsBudget(t) =>
      if b.used >= b.attempts then Leaves(s, t).(budget := b.(failures := b.failures + 1)) else Goes(s, t, Counting)
    case Reads(t) => Goes(s, t, Holding(b.used))
    case Writes(t) => Goes(s, t, Announcing(s.threads[t].attempt)).(budget := b.(used := s.threads[t].attempt + 1))
    case Announces(t) => Leaves(s, t).(budget := b.(announced := b.announced + [s.threads[t].attempt]))
    case SetsFlag => s.(flag := true)
    case Connects => s.(flag := false, budget := Renew(b))
  }

  predicate Runnable(s: State, steps: seq<Step>)
    decreases |steps|
  {
    steps == [] || (Enabled(s, steps[0]) && Runnable(Apply(s, steps[0]), steps[1..]))
  }

  function Run(s: State, steps: seq<Step>): State
    requires Runnable(s, steps)
    decreases |steps|
  {
    if steps == [] then s else Run(Apply(s, steps[0]), steps[1..])
  }

  /** The announced attempts are 0, 1, 2, ... and at most the configured number. */
  predicate Numbered(b: Budget) {
    && (forall i :: 0 <= i < |b.announced| ==> b.announced[i] == i)
    && (|b.announced| == 0 || |b.announced| <= b.attempts)
  }

  // ----- One thread at a time -----

  /** A loss is reported, or a connect begins, only when the last report has been dealt with. */
  predicate Serial(s: State, steps: seq<Step>)
    requires Runnable(s, steps)
    decreases |steps|
  {
    steps == [] ||
    ((steps[0].Loses? || steps[0].Connects? ==> s.threads == map[]) && Serial(Apply(s, steps[0]), steps[1..]))
  }

  predicate Inv(s: State) {
    var b := s.budget;
    && (forall t, u :: t in s.threads && u in s.threads ==> t == u)
    && Numbered(b) && 0 <= b.used
    && (forall t :: t in s.threads ==>
          match s.threads[t]
          case Counting => b.used < b.attempts
          case Holding(attempt) => attempt == b.used < b.attempts
          case Announcing(attempt) => attempt == |b.announced| == b.used - 1 < b.attempts
          case _ => true)
    && (b.used == |b.announced| || exists t :: t in s.threads && s.threads[t].Announcing?)
  }

  lemma InvKept(s: State, a: Step)
    requires Inv(s) && Enabled(s, a) && (a.Loses? || a.Connects? ==> s.threads == map[])
    ensures Inv(Apply(s, a)) && Apply(s, a).budget.attempts == s.budget.attempts
  {
    if a.Writes? {
      assert Apply(s, a).threads[a.thread].Announcing?;
    }
  }

  lemma {:induction false} RunKeepsInv(s: State, steps: seq<Step>)
    requires Inv(s) && Runnable(s, steps) && Serial(s, steps)
    ensures Inv(Run(s, steps)) && Run(s, steps).budget.attempts == s.budget.attempts
    decreases |steps|
  {
    hide Inv, Apply, Enabled;
    if steps != [] {
      InvKept(s, steps[0]);
      RunKeepsInv(Apply(s, steps[0]), steps[1..]);
    }
  }

  /** While one thread at a time reports a loss or connects, the attempts announced since the
      last connect are 0, 1, 2, ... and at most the configured number, in every run. */
  lemma SerialBudget(attempts: int, steps: seq<Step>)
    requires Runnable(Init(attempts), steps) && Serial(Init(attempts), steps)
    ensures
      var b := Run(Init(attempts), steps).budget;
      Numbered(b) && b.attempts == attempts
  {
    RunKeepsInv(Init(attempts), steps);
  }

  // ----- Without that -----

  lemma {:induction false} NothingAnnounced(s: State, steps: seq<Step>)
    requires s.budget.attempts <= 0 && s.budget.announced == [] && Runnable(s, steps)
    requires forall t :: t in s.threads ==> s.threads[t].Notified?
    ensures Run(s, steps).budget.announced == []
    decreases |steps|
  {
    if steps != [] {
      NothingAnnounced(Apply(s, steps[0]), steps[1..]);
    }
  }

  /** Two threads report a loss at the same time and read the counter before either writes. */
  function Overlap(): seq<Step> {
    [Loses(0), TestsFlag(0), TestsBudget(0), Reads(0), Loses(1), TestsFlag(1), TestsBudget(1), Reads(1),
     Writes(0), Announces(0), Writes(1), Announces(1)]
  }

  lemma RunOn(s: State, a: Step, rest: seq<Step>, s': State)
    requires Enabled(s, a) && Apply(s, a) == s'
    ensures Runnable(s, [a] + rest) <==> Runnable(s', rest)
    ensures Runnable(s', rest) ==> Run(s, [a] + rest) == Run(s', rest)
  {
    assert ([a] + rest)[0] == a && ([a] + rest)[1..] == rest;
  }

  lemma OverlapTail(b: Budget)
    requires b.used == 0 && b.announced == []
    ensures
      var s := State(false, b, map[0 := Holding(0), 1 := Holding(0)]);
      var steps := [Writes(0), Announces(0), Writes(1), Announces(1)];
      Runnable(s, steps) && Run(s, steps).budget.announced == [0, 0]
  {
    hide Runnable, Run;
    var s0 := State(false, b, map[0 := Holding(0), 1 := Holding(0)]);
    var s1 := State(false, b.(used := 1), map[0 := Announcing(0), 1 := Holding(0)]);
    var s2 := State(false, b.(used := 1, announced := [0]), map[1 := Holding(0)]);
    var s3 := State(false, b.(used := 1, announced := [0]), map[1 := Announcing(0)]);
    var s4 := State(false, b.(used := 1, announced := [0, 0]), map[]);
    RunNothing(s4);
    RunOn(s3, Announces(1), [], s4);
    var one := [Announces(1)] + [];
    RunOn(s2, Writes(1), one, s3);
    RunOn(s1, Announces(0), [Writes(1)] + one, s2);
    RunOn(s0, Writes(0), [Announces(0)] + ([Writes(1)] + one), s1);
    assert [Writes(0), Announces(0), Writes(1), Announces(1)] == [Writes(0)] + ([Announces(0)] + ([Writes(1)] + one));
  }

  lemma RunNothing(s: State)
    ensures Runnable(s, []) && Run(s, []) == s
  {
  }

  /** A thread comes as far as holding the counter's value. */
  lemma HoldLeads(s: State, t: nat, rest: seq<Step>)
    requires !s.flag && s.budget.used < s.budget.attempts && 0 < s.budget.attempts && t !in s.threads
    ensures
      var steps := [Loses(t), TestsFlag(t), TestsBudget(t), Reads(t)] + rest;
      var s' := s.(threads := s.threads[t := Holding(s.budget.used)]);
      && (Runnable(s, steps) <==> Runnable(s', rest))
      && (Runnable(s', rest) ==> Run(s, steps) == Run(s', rest))
  {
    hide Runnable, Run;
    var s1 := Goes(s, t, Notified);
    var s2 := Goes(s, t, Scheduling);
    var s3 := Goes(s, t, Counting);
    var s4 := Goes(s, t, Holding(s.budget.used));
    assert s1.threads[t := Scheduling] == s2.threads;
    assert s2.threads[t := Counting] == s3.threads;
    assert s3.threads[t := Holding(s.budget.used)] == s4.threads;
    RunOn(s3, Reads(t), rest, s4);
    RunOn(s2, TestsBudget(t), [Reads(t)] + rest, s3);
    RunOn(s1, TestsFlag(t), [TestsBudget(t)] + ([Reads(t)] + rest), s2);
    RunOn(s, Loses(t), [TestsFlag(t)] + ([TestsBudget(t)] + ([Reads(t)] + rest)), s1);
    assert [Loses(t), TestsFlag(t), TestsBudget(t), Reads(t)] + rest
        == [Loses(t)] + ([TestsFlag(t)] + ([TestsBudget(t)] + ([Reads(t)] + rest)));
  }

  lemma OverlapRepeats(attempts: int)
    requires attempts > 0
    ensures Runnable(Init(attempts), Overlap()) && Run(Init(attempts), Overlap()).budget.announced == [0, 0]
  {
    hide Runnable, Run;
    var s := Init(attempts);
    var tail := [Writes(0), Announces(0), Writes(1), Announces(1)];
    var middle := [Loses(1), TestsFlag(1), TestsBudget(1), Reads(1)] + tail;
    OverlapTail(s.budget);
    HoldLeads(State(false, s.budget, map[0 := Holding(0)]), 1, tail);
    assert map[0 := Holding(0)][1 := Holding(0)] == map[0 := Holding(0), 1 := Holding(0)];
    HoldLeads(s, 0, middle);
    assert s.threads[0 := Holding(0)] == map[0 := Holding(0)];
    assert Overlap() == [Loses(0), TestsFlag(0), TestsBudget(0), Reads(0)] + middle;
  }

  /** The condition is needed: if losses may overlap, the numbering holds in every run exactly
      when reconnecting is disabled. */
  lemma OverlappingBudgetIff(attempts: int)
    ensures
      (forall steps :: Runnable(Init(attempts), steps) ==> Numbered(Run(Init(attempts), steps).budget))
      <==> attempts <= 0
  {
    if attempts <= 0 {
      forall steps | Runnable(Init(attempts), steps)
        ensures Numbered(Run(Init(attempts), steps).budget)
      {
        NothingAnnounced(Init(attempts), steps);
      }
    } else {
      OverlapRepeats(attempts);
      var b := Run(Init(attempts), Overlap()).budget;
      assert b.announced[1] == 0;
      assert !Numbered(b);
    }
  }

  // ----- The same as one step -----

  lemma {:induction false} LossLeads(s: State, t: nat) returns (steps: seq<Step>)
    requires t !in s.threads
    ensures Runnable(s, steps) && Run(s, steps) == s.(budget := AfterLoss(s.flag, s.budget).0)
  {
    hide Runnable, Run;
    var b := s.budget;
    var s1 := Goes(s, t, Notified);
    if s.flag || b.attempts <= 0 {
      RunNothing(s);
      assert s1.threads - {t} == s.threads;
      RunOn(s1, TestsFlag(t), [], s);
      RunOn(s, Loses(t), [TestsFlag(t)] + [], s1);
      return [Loses(t)] + ([TestsFlag(t)] + []);
    }
    var s2 := Goes(s, t, Scheduling);
    assert s1.threads[t := Scheduling] == s2.threads;
    var s' := s.(budget := AfterLoss(s.flag, b).0);
    RunNothing(s');
    if b.used >= b.attempts {
      assert s2.threads - {t} == s.threads;
      RunOn(s2, TestsBudget(t), [], s');
      RunOn(s1, TestsFlag(t), [TestsBudget(t)] + [], s2);
      RunOn(s, Loses(t), [TestsFlag(t)] + ([TestsBudget(t)] + []), s1);
      return [Loses(t)] + ([TestsFlag(t)] + ([TestsBudget(t)] + []));
    }
    var s4 := Goes(s, t, Holding(b.used));
    var s5 := Goes(s, t, Announcing(b.used)).(budget := b.(used := b.used + 1));
    assert s4.threads[t := Announcing(b.used)] == s5.threads;
    assert s5.threads - {t} == s.threads;
    RunOn(s5, Announces(t), [], s');
    RunOn(s4, Writes(t), [Announces(t)] + [], s5);
    HoldLeads(s, t, [Writes(t)] + ([Announces(t)] + []));
    steps := [Loses(t), TestsFlag(t), TestsBudget(t), Reads(t)] + ([Writes(t)] + ([Announces(t)] + []));
  }
}
