/** The calls of the client object are runs of the concurrent machine: whatever sequence of
    calls is made one after the other, some run passes through the same values. */
module ClientRefinement {
  import opened Options
  import S = SocketMachine
  import C = SocketCore
  import opened ClientCore
  import opened ClientMachine
  import opened ClientShutdown

  function Cores(sockets: map<string, S.State>): (r: map<string, C.Core>)
    ensures r.Keys == sockets.Keys && forall nsp :: nsp in r ==> r[nsp] == sockets[nsp].core
  {
    map nsp | nsp in sockets :: sockets[nsp].core
  }

  /** What the client object holds in a state of the machine. */
  function ViewOf(s: State): View {
    View(s.engines, s.budget, Cores(s.sockets))
  }

  /** No call is under way. */
  predicate AtRest(s: State) {
    s.threads == map[] && s.holder.None?
  }

  /** A run from `s` to `s'`. */
  ghost predicate Leads(s: State, steps: seq<Step>, s': State) {
    Runnable(s, steps) && Run(s, steps) == s'
  }

  lemma LeadsNowhere(s: State)
    ensures Leads(s, [], s)
  {
  }

  lemma LeadsOn(s: State, a: Step, rest: seq<Step>, s': State)
    requires Enabled(s, a) && Leads(Apply(s, a), rest, s')
    ensures Leads(s, [a] + rest, s')
  {
    hide Apply, Enabled;
    assert ([a] + rest)[0] == a && ([a] + rest)[1..] == rest;
  }

  lemma LeadsFurther(s: State, first: seq<Step>, s': State, second: seq<Step>, s'': State)
    requires Leads(s, first, s') && Leads(s', second, s'')
    ensures Leads(s, first + second, s'')
  {
    hide Run, Runnable;
    RunConcat(s, first, second);
  }

  // ----- One socket at a time -----

  /** A socket is disconnected by a step of its own. */
  lemma DisconnectLeads(s: State, nsp: string) returns (steps: seq<Step>, s': State)
    requires nsp in s.sockets
    ensures Leads(s, steps, s') && NoConnect(steps)
    ensures nsp in s'.sockets && s' == s.(sockets := s.sockets[nsp := s'.sockets[nsp]])
    ensures s'.sockets[nsp].core == Disconnected(s.sockets[nsp].core)
  {
    hide Leads, S.ApplyCancel, S.Init;
    var a := SocketStep(nsp, S.Marked(false));
    s' := Apply(s, a);
    steps := [a] + [];
    LeadsNowhere(s');
    LeadsOn(s, a, [], s');
  }

  /** `close()` cancels one socket of its snapshot and disconnects it. */
  lemma CancelLeads(s: State, t: nat, nsp: string) returns (steps: seq<Step>, s': State)
    requires t in s.threads && s.threads[t].Cancelling? && nsp in s.threads[t].todo && nsp in s.sockets
    ensures Leads(s, steps, s') && NoConnect(steps) && nsp in s'.sockets
    ensures s' == s.(sockets := s.sockets[nsp := s'.sockets[nsp]],
                     threads := s.threads[t := Cancelling(s.threads[t].todo - {nsp})])
    ensures s'.sockets[nsp].core == Shut(s.sockets[nsp].core)
  {
    hide Leads, S.Init, S.Apply, S.Enabled;
    var a := CancelOne(t, nsp);
    var middle := Apply(s, a);
    var rest: seq<Step>;
    rest, s' := DisconnectLeads(middle, nsp);
    LeadsOn(s, a, rest, s');
    steps := [a] + rest;
  }

  /** The sockets in `todo` have been shut, the others are as before. */
  predicate ShutIn(a: map<string, S.State>, b: map<string, S.State>, todo: set<string>) {
    && b.Keys == a.Keys
    && forall nsp :: nsp in a ==> if nsp in todo then b[nsp].core == Shut(a[nsp].core) else b[nsp] == a[nsp]
  }

  lemma ShutInNext(
    a: map<string, S.State>, b: map<string, S.State>, c: map<string, S.State>, todo: set<string>, nsp: string)
    requires nsp in todo && nsp in a && nsp in b && b == a[nsp := b[nsp]] && b[nsp].core == Shut(a[nsp].core)
    requires ShutIn(b, c, todo - {nsp})
    ensures ShutIn(a, c, todo)
  {
    hide Shut;
  }

  lemma {:induction false} CancelsLead(s: State, t: nat) returns (steps: seq<Step>, s': State)
    requires t in s.threads && s.threads[t].Cancelling? && s.threads[t].todo <= s.sockets.Keys
    ensures Leads(s, steps, s') && NoConnect(steps)
    ensures s' == s.(sockets := s'.sockets, threads := s.threads[t := Cancelling({})])
    ensures ShutIn(s.sockets, s'.sockets, s.threads[t].todo)
    decreases |s.threads[t].todo|
  {
    hide Leads, Shut, NoConnect, Apply, Enabled, ShutIn;
    if s.threads[t].todo == {} {
      LeadsNowhere(s);
      NoConnectNothing();
      NothingShut(s.sockets);
      return [], s;
    }
    var nsp :| nsp in s.threads[t].todo;
    var first, middle := CancelLeads(s, t, nsp);
    assert middle.threads[t].todo == s.threads[t].todo - {nsp} && middle.sockets.Keys == s.sockets.Keys;
    var rest;
    rest, s' := CancelsLead(middle, t);
    LeadsFurther(s, first, middle, rest, s');
    NoConnectConcat(first, rest);
    steps := first + rest;
    assert s'.threads == s.threads[t := Cancelling({})];
    ShutInNext(s.sockets, middle.sockets, s'.sockets, s.threads[t].todo, nsp);
  }

  lemma NothingShut(sockets: map<string, S.State>)
    ensures ShutIn(sockets, sockets, {})
  {
  }

  lemma NoConnectNothing()
    ensures NoConnect([])
  {
  }

  lemma NoConnectConcat(a: seq<Step>, b: seq<Step>)
    requires NoConnect(a) && NoConnect(b)
    ensures NoConnect(a + b)
  {
  }

  /** The sockets in `todo` have been disconnected, the others are as before. */
  predicate LostIn(a: map<string, S.State>, b: map<string, S.State>, todo: set<string>) {
    && b.Keys == a.Keys
    && forall nsp :: nsp in a ==> if nsp in todo then b[nsp].core == Disconnected(a[nsp].core) else b[nsp] == a[nsp]
  }

  lemma LostInNext(
    a: map<string, S.State>, b: map<string, S.State>, c: map<string, S.State>, todo: set<string>, nsp: string)
    requires nsp in todo && nsp in a && nsp in b && b == a[nsp := b[nsp]] && b[nsp].core == Disconnected(a[nsp].core)
    requires LostIn(b, c, todo - {nsp})
    ensures LostIn(a, c, todo)
  {
    hide Disconnected;
  }

  lemma NothingLost(sockets: map<string, S.State>)
    ensures LostIn(sockets, sockets, {})
  {
  }

  lemma {:induction false} DisconnectsLead(s: State, todo: set<string>) returns (steps: seq<Step>, s': State)
    requires todo <= s.sockets.Keys
    ensures Leads(s, steps, s') && s' == s.(sockets := s'.sockets) && LostIn(s.sockets, s'.sockets, todo)
    decreases |todo|
  {
    hide Leads, Disconnected, NoConnect, LostIn, Apply, Enabled;
    if todo == {} {
      LeadsNowhere(s);
      NothingLost(s.sockets);
      return [], s;
    }
    var nsp :| nsp in todo;
    var first, middle := DisconnectLeads(s, nsp);
    assert middle.sockets.Keys == s.sockets.Keys;
    var rest;
    rest, s' := DisconnectsLead(middle, todo - {nsp});
    LeadsFurther(s, first, middle, rest, s');
    LostInNext(s.sockets, middle.sockets, s'.sockets, todo, nsp);
    steps := first + rest;
  }

  // ----- Whole calls -----

  lemma CloseEndLeads(s: State, t: nat) returns (s': State)
    requires t in s.threads && s.threads[t].ClosesEngine?
    ensures Leads(s, [CloseEngine(t)] + ([CloseReturns(t)] + []), s')
    ensures
      s' == s.(threads := s.threads - {t}, engines := MarkClosing(s.engines, s.threads[t].current), closed := true)
  {
    hide Leads, S.Apply, S.Enabled;
    var s1 := Apply(s, CloseEngine(t));
    s' := Apply(s1, CloseReturns(t));
    LeadsNowhere(s');
    LeadsOn(s1, CloseReturns(t), [], s');
    LeadsOn(s, CloseEngine(t), [CloseReturns(t)] + [], s');
  }

  lemma CloseTailLeads(s: State, t: nat) returns (steps: seq<Step>, s': State)
    requires t in s.threads && s.threads[t] == Cancelling({})
    ensures Leads(s, steps, s') && NoConnect(steps)
    ensures s' == s.(threads := s.threads - {t}, engines := MarkClosing(s.engines, s.engines.installed), closed := true)
  {
    hide Leads, S.Apply, S.Enabled, MarkClosing;
    var s1 := Apply(s, CancelDone(t));
    var s2 := Apply(s1, ReadEngine(t));
    s' := CloseEndLeads(s2, t);
    var end := [CloseEngine(t)] + ([CloseReturns(t)] + []);
    LeadsOn(s1, ReadEngine(t), end, s');
    LeadsOn(s, CancelDone(t), [ReadEngine(t)] + end, s');
    steps := [CancelDone(t)] + ([ReadEngine(t)] + end);
    assert s'.threads == s.threads - {t};
  }

  /** From every state in which the registry is not being changed, a `close()` on a free thread
      can run to completion on its own, and then it does what the object's `close()` does. */
  lemma CloseCompletes(s: State, t: nat) returns (steps: seq<Step>, s': State)
    requires t !in s.threads && s.holder.None?
    ensures Leads(s, steps, s') && NoConnect(steps)
    ensures s'.closed && s'.threads == s.threads && s'.holder.None?
    ensures ViewOf(s') == AfterClose(ViewOf(s))
  {
    hide Leads, NoConnect, Shut, MarkClosing, Cores;
    var s2 := CloseHead(s, t);
    var cancels, s3 := CancelsLead(s2, t);
    var tail, s4 := CloseTailLeads(s3, t);
    s' := s4;
    var begin := [BeginClose(t)] + ([Snapshot(t)] + []);
    LeadsFurther(s2, cancels, s3, tail, s');
    LeadsFurther(s, begin, s2, cancels + tail, s');
    steps := begin + (cancels + tail);
    NoConnectConcat(cancels, tail);
    NoConnectConcat(begin, cancels + tail);
    assert s'.threads == s.threads;
    CoresShut(s.sockets, s'.sockets);
  }

  lemma CloseHead(s: State, t: nat) returns (s': State)
    requires t !in s.threads && s.holder.None?
    ensures
      var begin := [BeginClose(t)] + ([Snapshot(t)] + []);
      Leads(s, begin, s') && NoConnect(begin)
    ensures s' == s.(engines := SetFlag(s.engines, true), threads := s.threads[t := Cancelling(s.sockets.Keys)])
  {
    hide Leads, S.Init, S.Apply, S.Enabled, S.ApplyCancel;
    var s1 := Apply(s, BeginClose(t));
    s' := Apply(s1, Snapshot(t));
    LeadsNowhere(s');
    LeadsOn(s1, Snapshot(t), [], s');
    LeadsOn(s, BeginClose(t), [Snapshot(t)] + [], s');
  }

  lemma CoresShut(a: map<string, S.State>, b: map<string, S.State>)
    requires b.Keys == a.Keys && forall nsp :: nsp in a ==> b[nsp].core == Shut(a[nsp].core)
    ensures Cores(b) == map nsp | nsp in Cores(a) :: Shut(Cores(a)[nsp])
  {
    hide Shut;
  }

  lemma CoresResumed(a: map<string, S.State>)
    ensures
      Cores(map nsp | nsp in a :: Resumed(a[nsp])) == map nsp | nsp in Cores(a) :: C.Resume(Cores(a)[nsp])
  {
  }

  /** The new engine is installed and opened by the same thread. */
  lemma InstallLeads(s: State, t: nat) returns (steps: seq<Step>, s': State)
    requires t in s.threads && s.threads[t].Built? && !s.engines.flag && s.threads[t].engine !in s.engines.closing
    ensures Leads(s, steps, s')
    ensures s' == s.(engines := TryInstall(s.engines, s.threads[t].engine).0, threads := s.threads - {t})
  {
    hide Leads, S.Init, S.Apply, S.Enabled, S.ApplyCancel;
    var s1 := Apply(s, Install(t));
    var s2 := Apply(s1, OpenTest(t));
    s' := Apply(s2, TransportConnect(t));
    LeadsNowhere(s');
    LeadsOn(s2, TransportConnect(t), [], s');
    LeadsOn(s1, OpenTest(t), [TransportConnect(t)] + [], s');
    LeadsOn(s, Install(t), [OpenTest(t)] + ([TransportConnect(t)] + []), s');
    steps := [Install(t)] + ([OpenTest(t)] + ([TransportConnect(t)] + []));
  }

  lemma ConnectRefines(s: State) returns (steps: seq<Step>, s': State)
    requires SuccessionInv(s) && AtRest(s)
    ensures Leads(s, steps, s') && AtRest(s') && ViewOf(s') == AfterConnect(ViewOf(s))
  {
    hide Leads, S.Init, S.Apply, S.Enabled, S.ApplyCancel, Resumed, Cores;
    var s1 := Apply(s, Connect(0));
    var rest: seq<Step>;
    rest, s' := InstallLeads(s1, 0);
    LeadsOn(s, Connect(0), rest, s');
    steps := [Connect(0)] + rest;
    assert s'.threads == map[];
    CoresResumed(s.sockets);
  }

  lemma ReplaceRefines(s: State) returns (steps: seq<Step>, s': State)
    requires AtRest(s) && s.engines.installed.Some?
    ensures Leads(s, steps, s') && AtRest(s') && ViewOf(s') == AfterReplace(ViewOf(s))
  {
    hide Leads, S.Init, S.Apply, S.Enabled, S.ApplyCancel;
    var s1 := Apply(s, BeginReplace(0));
    var s2 := Apply(s1, Install(0));
    var rest: seq<Step>;
    if s.engines.flag {
      rest, s' := [], s2;
      LeadsNowhere(s2);
    } else {
      rest, s' := [Abandon(0)] + [], Apply(s2, Abandon(0));
      LeadsNowhere(s');
      LeadsOn(s2, Abandon(0), [], s');
    }
    LeadsOn(s1, Install(0), rest, s');
    LeadsOn(s, BeginReplace(0), [Install(0)] + rest, s');
    steps := [BeginReplace(0)] + ([Install(0)] + rest);
    assert s'.threads == map[];
  }

  lemma CreatedCore(now: int)
    ensures S.Init(now).core == Created(false) && S.ApplyCancel(S.Init(now)).core == Created(true)
  {
  }

  lemma SocketRefines(s: State, nsp: string) returns (steps: seq<Step>, s': State)
    requires AtRest(s)
    ensures Leads(s, steps, s') && AtRest(s') && ViewOf(s') == AfterSocket(ViewOf(s), nsp)
  {
    hide Leads, S.Apply, S.Enabled, S.Init, S.ApplyCancel, Created;
    if nsp in s.sockets {
      LeadsNowhere(s);
      return [], s;
    }
    CreatedCore(0);
    var s1 := Apply(s, BeginSocket(0, nsp, 0));
    s' := Apply(s1, FinishSocket(0));
    LeadsNowhere(s');
    LeadsOn(s1, FinishSocket(0), [], s');
    LeadsOn(s, BeginSocket(0, nsp, 0), [FinishSocket(0)] + [], s');
    steps := [BeginSocket(0, nsp, 0)] + ([FinishSocket(0)] + []);
    assert s'.threads == map[];
    assert ViewOf(s').sockets == AfterSocket(ViewOf(s), nsp).sockets;
  }

  lemma EngineClosedRefines(s: State) returns (steps: seq<Step>, s': State)
    requires AtRest(s)
    ensures Leads(s, steps, s') && AtRest(s') && ViewOf(s') == AfterEngineClosed(ViewOf(s))
  {
    hide Leads, S.Apply, S.Enabled, AfterLoss, Disconnected, LostIn, Cores;
    var first, middle := DisconnectsLead(s, s.sockets.Keys);
    s' := Apply(middle, EngineClosed);
    hide Apply;
    LeadsNowhere(s');
    LeadsOn(middle, EngineClosed, [], s');
    LeadsFurther(s, first, middle, [EngineClosed] + [], s');
    steps := first + ([EngineClosed] + []);
    CoresLost(s.sockets, middle.sockets);
  }

  lemma CoresLost(a: map<string, S.State>, b: map<string, S.State>)
    requires LostIn(a, b, a.Keys)
    ensures Cores(b) == map nsp | nsp in Cores(a) :: Disconnected(Cores(a)[nsp])
  {
    hide Disconnected;
  }

  /** A reconnect worker or a fallback exists only after an engine has been installed. */
  predicate Callable(v: View, calls: seq<Call>)
    decreases |calls|
  {
    calls == [] ||
    ((calls[0].Replaces? ==> v.engines.installed.Some?) && Callable(After(v, calls[0]), calls[1..]))
  }

  lemma InvHasSuccession(s: State)
    requires Inv(s)
    ensures SuccessionInv(s)
  {
  }

  lemma CallRefines(s: State, call: Call) returns (steps: seq<Step>, s': State)
    requires Inv(s) && AtRest(s) && (call.Replaces? ==> s.engines.installed.Some?)
    ensures Leads(s, steps, s') && AtRest(s') && ViewOf(s') == After(ViewOf(s), call)
  {
    hide Leads, Inv, ViewOf, AfterConnect, AfterReplace, AfterSocket, AfterEngineClosed, AfterClose;
    match call {
      case Connects =>
        assert SuccessionInv(s) by {
          InvHasSuccession(s);
        }
        steps, s' := ConnectRefines(s);
      case Replaces => steps, s' := ReplaceRefines(s);
      case Opens(nsp) => steps, s' := SocketRefines(s, nsp);
      case LosesEngine => steps, s' := EngineClosedRefines(s);
      case Closes => steps, s' := CloseCompletes(s, 0);
    }
  }

  lemma {:induction false} CallsRefine(s: State, calls: seq<Call>) returns (steps: seq<Step>, s': State)
    requires Inv(s) && AtRest(s) && Callable(ViewOf(s), calls)
    ensures Leads(s, steps, s') && AtRest(s') && ViewOf(s') == AfterAll(ViewOf(s), calls)
    decreases |calls|
  {
    hide Leads, Inv, After;
    if calls == [] {
      LeadsNowhere(s);
      return [], s;
    }
    var first, middle := CallRefines(s, calls[0]);
    LeadsKeepsInv(s, first, middle);
    var rest;
    rest, s' := CallsRefine(middle, calls[1..]);
    LeadsFurther(s, first, middle, rest, s');
    steps := first + rest;
  }

  lemma LeadsKeepsInv(s: State, steps: seq<Step>, s': State)
    requires Inv(s) && Leads(s, steps, s')
    ensures Inv(s')
  {
    hide Inv;
    RunKeepsInv(s, steps);
  }

  /** Every sequence of calls of the object, one after the other, is a run of the machine. */
  lemma CallsAreRuns(attempts: int, calls: seq<Call>) returns (steps: seq<Step>)
    requires Callable(New(attempts), calls)
    ensures Runnable(Init(attempts), steps)
    ensures
      var s := Run(Init(attempts), steps);
      AtRest(s) && ViewOf(s) == AfterAll(New(attempts), calls)
  {
    hide Callable, AfterAll;
    assert ViewOf(Init(attempts)) == New(attempts);
    InReach(attempts, []);
    var s';
    steps, s' := CallsRefine(Init(attempts), calls);
  }
}
