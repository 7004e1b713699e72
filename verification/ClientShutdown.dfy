/** What every run of the client keeps, and what shutdown guarantees. */
module ClientShutdown {
  import opened Options
  import S = SocketMachine
  import C = SocketCore
  import T = SocketTheorems
  import opened ClientCore
  import opened ClientMachine

  // ----- Facts about one socket -----

  lemma CreatedSocket(now: int)
    ensures S.Inv(S.Init(now)) && S.Init(now).core.active == 0
    ensures S.Inv(S.ApplyCancel(S.Init(now))) && T.Quiet(S.ApplyCancel(S.Init(now)))
    ensures S.ApplyCancel(S.Init(now)).core.active == 0
  {
    T.InReach(now, []);
    assert S.Apply(S.Init(now), S.Cancels) == S.ApplyCancel(S.Init(now));
    T.InvKept(S.Init(now), S.Cancels);
    T.CancelQuiets(S.Init(now));
  }

  lemma CancelledSocket(s: S.State)
    requires S.Inv(s)
    ensures S.Inv(S.ApplyCancel(s)) && T.Quiet(S.ApplyCancel(s)) && S.ApplyCancel(s).core.active == s.core.active
  {
    assert S.Apply(s, S.Cancels) == S.ApplyCancel(s);
    T.InvKept(s, S.Cancels);
    T.CancelQuiets(s);
  }

  lemma ActiveNotNegative(s: S.State)
    requires S.Inv(s)
    ensures s.core.active >= 0
  {
  }

  /** A socket step keeps a quiet socket quiet and, if quiet, an idle one idle. */
  lemma SteppedSocket(s: S.State, a: S.Step)
    requires S.Inv(s) && S.Enabled(s, a) && !a.Resumes?
    ensures S.Inv(S.Apply(s, a))
    ensures T.Quiet(s) ==> T.Quiet(S.Apply(s, a))
    ensures T.Quiet(s) && s.core.active == 0 ==> S.Apply(s, a).core.active == 0
  {
    hide S.Apply, S.Inv;
    T.InvKept(s, a);
    ActiveNotNegative(S.Apply(s, a));
    if T.Quiet(s) {
      T.StepKeepsQuiet(s, a);
    }
  }

  lemma ResumedSocket(s: S.State)
    requires S.Inv(s)
    ensures S.Inv(Resumed(s))
  {
    assert S.Apply(s, S.Resumes) == Resumed(s);
    T.InvKept(s, S.Resumes);
  }

  // ----- Each part of the invariant -----

  predicate NoThread(a: Step) {
    a.SocketStep? || a.EngineClosed?
  }

  /** The steps that touch the engines. */
  predicate EngineStep(a: Step) {
    a.BeginReplace? || a.Install? || a.BeginClose? || a.CloseEngine? || a.Connect?
  }

  predicate SocketEntry(a: Step) {
    a.BeginSocket? || a.FinishSocket? || a.CancelOne?
  }

  ghost predicate OthersStay(s: State, s': State, t: nat) {
    forall u :: u in s'.threads && u != t ==> u in s.threads && s'.threads[u] == s.threads[u]
  }

  lemma EngineStepMoves(s: State, a: Step)
    requires Enabled(s, a) && EngineStep(a)
    ensures OthersStay(s, Apply(s, a), a.thread)
  {
    hide Resumed;
  }

  lemma SocketEntryMoves(s: State, a: Step)
    requires Enabled(s, a) && SocketEntry(a)
    ensures OthersStay(s, Apply(s, a), a.thread)
  {
    hide S.ApplyCancel, S.Init;
  }

  lemma StepMovesOne(s: State, a: Step)
    requires Enabled(s, a) && !NoThread(a)
    ensures OthersStay(s, Apply(s, a), a.thread)
  {
    hide S.Apply, S.ApplyCancel, S.Init, S.Enabled, Resumed;
    if EngineStep(a) {
      EngineStepMoves(s, a);
    } else if SocketEntry(a) {
      SocketEntryMoves(s, a);
    } else {
      hide ApplyInstall, ApplyConnect, ApplyCloseEngine, ApplyBeginSocket, ApplyFinishSocket, ApplyCancelOne;
    }
  }

  /** Where a step that does not touch the engines may leave its thread. */
  predicate EngineIdle(s: State, pc: Pc) {
    && (Closer(pc) ==> s.engines.flag)
    && (pc.ClosesEngine? ==> pc.current == s.engines.installed)
    && (pc.ClosedIt? || pc.Waiting? ==> s.closed)
  }

  lemma OtherStepIdle(s: State, a: Step)
    requires EngineInv(s) && Enabled(s, a) && !EngineStep(a) && !NoThread(a)
    ensures
      var s' := Apply(s, a);
      && s'.engines == s.engines && s'.closed == s.closed && (s'.drained ==> s.drained || s.closed)
      && (a.thread in s'.threads ==> EngineIdle(s, s'.threads[a.thread]))
  {
    hide S.Apply, S.ApplyCancel, S.Init, S.Enabled;
  }

  lemma IdleKeepsEngine(s: State, s': State, t: nat)
    requires EngineInv(s) && OthersStay(s, s', t)
    requires s'.engines == s.engines && s'.closed == s.closed && (s'.drained ==> s.drained || s.closed)
    requires t in s'.threads ==> EngineIdle(s, s'.threads[t])
    ensures EngineInv(s')
  {
  }

  lemma CloseKeepsEngine(s: State, a: Step)
    requires EngineInv(s) && Enabled(s, a) && (a.BeginClose? || a.CloseEngine?)
    ensures EngineInv(Apply(s, a))
  {
  }

  lemma ReplaceKeepsEngine(s: State, a: Step)
    requires EngineInv(s) && Enabled(s, a) && (a.BeginReplace? || a.Install? || a.Connect?)
    ensures EngineInv(Apply(s, a))
  {
    hide Resumed;
  }

  lemma EngineKept(s: State, a: Step)
    requires EngineInv(s) && Enabled(s, a)
    ensures EngineInv(Apply(s, a))
  {
    if EngineStep(a) {
      if a.BeginClose? || a.CloseEngine? {
        CloseKeepsEngine(s, a);
      } else {
        ReplaceKeepsEngine(s, a);
      }
    } else if NoThread(a) {
      var s' := Apply(s, a);
      assert s'.threads == s.threads && s'.engines == s.engines && s'.closed == s.closed && s'.drained == s.drained;
      hide Apply, Enabled;
    } else {
      StepMovesOne(s, a);
      OtherStepIdle(s, a);
      hide Apply, Enabled, EngineInv;
      IdleKeepsEngine(s, Apply(s, a), a.thread);
    }
  }

  lemma BudgetKept(s: State, a: Step)
    requires BudgetOk(s.budget) && Enabled(s, a)
    ensures BudgetOk(Apply(s, a).budget) && Apply(s, a).budget.attempts == s.budget.attempts
  {
    hide S.Apply, S.ApplyCancel, S.Init, S.Enabled;
  }

  lemma InstallKeepsSuccession(s: State, t: nat)
    requires SuccessionInv(s) && Enabled(s, Install(t))
    ensures SuccessionInv(ApplyInstall(s, t))
  {
  }

  lemma OpenTestKeepsSuccession(s: State, t: nat)
    requires SuccessionInv(s) && Enabled(s, OpenTest(t))
    ensures SuccessionInv(ApplyOpenTest(s, t))
  {
    hide Numbered, Unused;
  }

  /** Another engine is made. */
  lemma MakeKeepsSuccession(s: State, s': State, t: nat)
    requires SuccessionInv(s) && t !in s.threads
    requires s'.threads == s.threads[t := Built(s.engines.made)]
    requires s'.engines == Make(s.engines.(flag := s'.engines.flag))
    ensures SuccessionInv(s')
  {
  }

  /** A thread that is no opener moves on, and at most the installed engine is closed. */
  lemma OtherKeepsSuccession(s: State, s': State, t: nat)
    requires SuccessionInv(s)
    requires forall u :: u in s'.threads && u != t ==> u in s.threads && s'.threads[u] == s.threads[u]
    requires t in s'.threads ==> !s'.threads[t].Built? && !s'.threads[t].Installed? && !s'.threads[t].Checked?
    requires
      || s'.engines == s.engines.(flag := s'.engines.flag)
      || s'.engines == MarkClosing(s.engines, s.engines.installed)
    ensures SuccessionInv(s')
  {
  }

  predicate SuccessionStep(a: Step) {
    a.Install? || a.OpenTest? || a.BeginReplace? || a.Connect?
  }

  lemma NoSuccession(s: State, a: Step)
    requires EngineInv(s) && Enabled(s, a) && !SuccessionStep(a) && !NoThread(a)
    ensures
      var s', t := Apply(s, a), a.thread;
      && (t in s'.threads ==> !s'.threads[t].Built? && !s'.threads[t].Installed? && !s'.threads[t].Checked?)
      && (|| s'.engines == s.engines.(flag := s'.engines.flag)
          || s'.engines == MarkClosing(s.engines, s.engines.installed))
  {
    hide S.Apply, S.ApplyCancel, S.Init, S.Enabled, ApplyInstall, ApplyOpenTest, ApplyConnect;
  }

  lemma SuccessionStepKeeps(s: State, a: Step)
    requires SuccessionInv(s) && Enabled(s, a) && SuccessionStep(a)
    ensures SuccessionInv(Apply(s, a))
  {
    hide SuccessionInv, Resumed, ApplyInstall, ApplyOpenTest;
    match a {
      case Install(t) => InstallKeepsSuccession(s, t);
      case OpenTest(t) => OpenTestKeepsSuccession(s, t);
      case BeginReplace(t) => MakeKeepsSuccession(s, Apply(s, a), t);
      case Connect(t) => MakeKeepsSuccession(s, Apply(s, a), t);
    }
  }

  lemma SuccessionKept(s: State, a: Step)
    requires EngineInv(s) && SuccessionInv(s) && Enabled(s, a)
    ensures SuccessionInv(Apply(s, a))
  {
    hide SuccessionInv, EngineInv;
    if SuccessionStep(a) {
      SuccessionStepKeeps(s, a);
    } else if NoThread(a) {
      hide S.Apply, S.Enabled;
      SameKeepsSuccession(s, Apply(s, a));
    } else {
      StepMovesOne(s, a);
      NoSuccession(s, a);
      hide Apply, Enabled;
      OtherKeepsSuccession(s, Apply(s, a), a.thread);
    }
  }

  lemma SameKeepsSuccession(s: State, s': State)
    requires SuccessionInv(s) && s'.threads == s.threads && s'.engines == s.engines
    ensures SuccessionInv(s')
  {
  }

  /** One registered socket replaced by `sock`. */
  function Put(s: State, nsp: string, sock: S.State): State {
    s.(sockets := s.sockets[nsp := sock])
  }

  lemma PutKeepsSockets(s: State, nsp: string, sock: S.State)
    requires SocketsInv(s) && S.Inv(sock)
    ensures SocketsInv(Put(s, nsp, sock))
  {
    hide S.Inv;
  }

  lemma ConnectKeepsSockets(s: State, t: nat)
    requires SocketsInv(s)
    ensures SocketsInv(ApplyConnect(s, t))
  {
    hide S.Inv, Resumed;
    forall nsp | nsp in s.sockets
      ensures S.Inv(Resumed(s.sockets[nsp]))
    {
      ResumedSocket(s.sockets[nsp]);
    }
  }

  lemma CancelOneKeepsSockets(s: State, t: nat, nsp: string)
    requires SocketsInv(s) && Enabled(s, CancelOne(t, nsp))
    ensures SocketsInv(ApplyCancelOne(s, t, nsp))
  {
    hide S.Inv, S.ApplyCancel, T.Quiet;
    var sock := S.ApplyCancel(s.sockets[nsp]);
    CancelledSocket(s.sockets[nsp]);
    PutKeepsSockets(s, nsp, sock);
    assert ApplyCancelOne(s, t, nsp) == Goes(Put(s, nsp, sock), t, Cancelling(s.threads[t].todo - {nsp}));
  }

  lemma BeginSocketKeepsSockets(s: State, t: nat, nsp: string, now: int)
    requires SocketsInv(s)
    ensures SocketsInv(ApplyBeginSocket(s, t, nsp, now))
  {
    hide S.Inv, S.ApplyCancel, S.Init, T.Quiet;
    CreatedSocket(now);
  }

  lemma OtherKeepsSockets(s: State, a: Step)
    requires SocketsInv(s) && Enabled(s, a)
    requires !a.BeginSocket? && !a.SocketStep? && !a.CancelOne? && !a.Connect?
    ensures SocketsInv(Apply(s, a))
  {
    hide S.Apply, S.ApplyCancel, S.Init, S.Enabled, S.Inv, Resumed;
  }

  lemma SocketsKept(s: State, a: Step)
    requires SocketsInv(s) && Enabled(s, a)
    ensures SocketsInv(Apply(s, a))
  {
    hide S.Apply, S.Enabled, S.Inv, T.Quiet;
    hide ApplyBeginSocket, ApplyFinishSocket, ApplyCancelOne, ApplyConnect, ApplyCloseEngine;
    match a {
      case BeginSocket(t, nsp, now) => BeginSocketKeepsSockets(s, t, nsp, now);
      case SocketStep(nsp, step) =>
        SteppedSocket(s.sockets[nsp], step);
        PutKeepsSockets(s, nsp, S.Apply(s.sockets[nsp], step));
      case CancelOne(t, nsp) => CancelOneKeepsSockets(s, t, nsp);
      case Connect(t) => ConnectKeepsSockets(s, t);
      case _ => OtherKeepsSockets(s, a);
    }
  }

  lemma PutKeepsRegistry(s: State, nsp: string, sock: S.State)
    requires RegistryInv(s) && nsp in s.sockets && (T.Quiet(s.sockets[nsp]) ==> T.Quiet(sock))
    ensures RegistryInv(Put(s, nsp, sock))
  {
    hide T.Quiet;
  }

  /** A socket that has become quiet need not be cancelled any more. */
  lemma TodoShrinks(s: State, t: nat, nsp: string)
    requires RegistryInv(s) && t in s.threads && s.threads[t].Cancelling?
    requires nsp in s.sockets && T.Quiet(s.sockets[nsp])
    ensures RegistryInv(Goes(s, t, Cancelling(s.threads[t].todo - {nsp})))
  {
    hide T.Quiet;
  }

  lemma CancelOneKeepsRegistry(s: State, t: nat, nsp: string)
    requires RegistryInv(s) && SocketsInv(s) && t in s.threads && s.threads[t].Cancelling? && nsp in s.sockets
    ensures RegistryInv(ApplyCancelOne(s, t, nsp))
  {
    hide T.Quiet, S.ApplyCancel, S.Inv, RegistryInv;
    CancelledSocket(s.sockets[nsp]);
    var sock := S.ApplyCancel(s.sockets[nsp]);
    PutKeepsRegistry(s, nsp, sock);
    TodoShrinks(Put(s, nsp, sock), t, nsp);
    assert ApplyCancelOne(s, t, nsp) == Goes(Put(s, nsp, sock), t, Cancelling(s.threads[t].todo - {nsp}));
  }

  lemma RegisteringKeepsRegistry(s: State, t: nat, nsp: string, sock: S.State)
    requires EngineInv(s) && RegistryInv(s) && t !in s.threads && s.holder.None?
    requires sock.core.active == 0 && (s.engines.flag ==> T.Quiet(sock))
    ensures RegistryInv(Goes(s, t, Registering(nsp, sock)).(holder := Some(t)))
  {
    hide T.Quiet;
  }

  lemma BeginSocketKeepsRegistry(s: State, t: nat, nsp: string, now: int)
    requires EngineInv(s) && RegistryInv(s) && t !in s.threads && s.holder.None?
    ensures RegistryInv(ApplyBeginSocket(s, t, nsp, now))
  {
    hide T.Quiet, S.ApplyCancel, S.Init, S.Inv, EngineInv, RegistryInv;
    CreatedSocket(now);
    var created := S.Init(now);
    RegisteringKeepsRegistry(s, t, nsp, if s.engines.flag then S.ApplyCancel(created) else created);
  }

  lemma FinishSocketKeepsRegistry(s: State, t: nat)
    requires RegistryInv(s) && t in s.threads && s.threads[t].Registering?
    ensures RegistryInv(ApplyFinishSocket(s, t))
  {
    hide T.Quiet;
  }

  lemma RegistryKept(s: State, a: Step)
    requires EngineInv(s) && RegistryInv(s) && SocketsInv(s) && Enabled(s, a)
    ensures RegistryInv(Apply(s, a))
  {
    hide S.Apply, S.ApplyCancel, S.Init, S.Enabled, S.Inv, T.Quiet, Resumed;
    match a {
      case BeginSocket(t, nsp, now) => BeginSocketKeepsRegistry(s, t, nsp, now);
      case FinishSocket(t) => FinishSocketKeepsRegistry(s, t);
      case SocketStep(nsp, step) =>
        SteppedSocket(s.sockets[nsp], step);
        PutKeepsRegistry(s, nsp, S.Apply(s.sockets[nsp], step));
      case CancelOne(t, nsp) => CancelOneKeepsRegistry(s, t, nsp);
      case _ => OtherKeepsRegistry(s, a);
    }
  }

  /** A thread moves on without touching the registry.  It may enter the part of a close
      behind the snapshot only if that is justified. */
  ghost predicate Moves(s: State, s': State, t: nat) {
    && s'.sockets == s.sockets && s'.holder == s.holder
    && (t in s.threads ==> !s.threads[t].Registering?)
    && (forall u :: u != t ==> (u in s'.threads <==> u in s.threads))
    && (forall u :: u != t && u in s.threads ==> s'.threads[u] == s.threads[u])
    && (t in s'.threads ==>
          && !s'.threads[t].Registering?
          && (PastSnapshot(s'.threads[t]) ==>
                || (s.holder.None? && s'.threads[t] == Cancelling(s.sockets.Keys))
                || BehindCancels(s, t)))
    && (s'.closed ==> s.closed || BehindCancels(s, t))
  }

  predicate BehindCancels(s: State, t: nat) {
    t in s.threads && PastSnapshot(s.threads[t]) && Pending(s, s.threads[t]) == {}
  }

  lemma MovesKeepsRegistry(s: State, s': State, t: nat)
    requires RegistryInv(s) && Moves(s, s', t)
    ensures RegistryInv(s')
  {
    hide T.Quiet;
  }

  lemma ConnectKeepsRegistry(s: State, t: nat)
    requires RegistryInv(s) && Enabled(s, Connect(t))
    ensures RegistryInv(ApplyConnect(s, t))
  {
    hide T.Quiet, Resumed;
  }

  predicate ReplacementStep(a: Step) {
    a.BeginReplace? || a.Install? || a.Abandon? || a.OpenTest? || a.TransportConnect?
  }

  lemma ReplacementMoves(s: State, a: Step)
    requires Enabled(s, a) && ReplacementStep(a)
    ensures Moves(s, Apply(s, a), a.thread)
  {
    hide S.Enabled, S.Apply, S.Init, S.ApplyCancel, T.Quiet, QuietExcept, Resumed;
  }

  lemma CloserMoves(s: State, a: Step)
    requires EngineInv(s) && Enabled(s, a) && !ReplacementStep(a)
    requires !a.BeginSocket? && !a.FinishSocket? && !a.SocketStep? && !a.CancelOne? && !a.Connect? && !a.EngineClosed?
    ensures Moves(s, Apply(s, a), a.thread)
  {
    hide S.Enabled, S.Apply, S.Init, S.ApplyCancel, T.Quiet, QuietExcept, Resumed;
  }

  lemma OtherKeepsRegistry(s: State, a: Step)
    requires EngineInv(s) && RegistryInv(s) && Enabled(s, a)
    requires !a.BeginSocket? && !a.FinishSocket? && !a.SocketStep? && !a.CancelOne?
    ensures RegistryInv(Apply(s, a))
  {
    if a.Connect? {
      ConnectKeepsRegistry(s, a.thread);
    } else if !a.EngineClosed? {
      if ReplacementStep(a) {
        ReplacementMoves(s, a);
      } else {
        CloserMoves(s, a);
      }
      MovesKeepsRegistry(s, Apply(s, a), a.thread);
    }
  }

  lemma PutKeepsDrain(s: State, nsp: string, sock: S.State)
    requires DrainInv(s) && nsp in s.sockets && (s.sockets[nsp].core.active == 0 ==> sock.core.active == 0)
    ensures DrainInv(Put(s, nsp, sock))
  {
  }

  /** While somebody waits for callbacks, or has waited, every socket is quiet. */
  lemma DrainingIsQuiet(s: State, nsp: string)
    requires EngineInv(s) && RegistryInv(s) && nsp in s.sockets
    requires s.drained || exists t :: t in s.threads && s.threads[t].Waiting?
    ensures T.Quiet(s.sockets[nsp])
  {
    hide T.Quiet;
  }

  lemma SocketStepKeepsDrain(s: State, nsp: string, step: S.Step)
    requires EngineInv(s) && RegistryInv(s) && SocketsInv(s) && DrainInv(s)
    requires nsp in s.sockets && S.Enabled(s.sockets[nsp], step) && !step.Resumes?
    ensures DrainInv(ApplySocketStep(s, nsp, step))
  {
    hide S.Apply, S.Enabled, S.Inv, T.Quiet, RegistryInv, EngineInv;
    SteppedSocket(s.sockets[nsp], step);
    if s.drained || exists t :: t in s.threads && s.threads[t].Waiting? {
      DrainingIsQuiet(s, nsp);
      PutKeepsDrain(s, nsp, S.Apply(s.sockets[nsp], step));
    }
  }

  lemma CancelOneKeepsDrain(s: State, t: nat, nsp: string)
    requires SocketsInv(s) && DrainInv(s) && Enabled(s, CancelOne(t, nsp))
    ensures DrainInv(ApplyCancelOne(s, t, nsp))
  {
    hide S.ApplyCancel, S.Inv, T.Quiet;
    var sock := S.ApplyCancel(s.sockets[nsp]);
    CancelledSocket(s.sockets[nsp]);
    PutKeepsDrain(s, nsp, sock);
    assert ApplyCancelOne(s, t, nsp) == Goes(Put(s, nsp, sock), t, Cancelling(s.threads[t].todo - {nsp}));
  }

  lemma SyncSnapshotKeepsDrain(s: State, t: nat)
    requires DrainInv(s)
    ensures DrainInv(Goes(s, t, Waiting(s.sockets.Keys)))
  {
  }

  lemma WaitOneKeepsDrain(s: State, t: nat, nsp: string)
    requires DrainInv(s) && t in s.threads && s.threads[t].Waiting?
    requires nsp in s.sockets && s.sockets[nsp].core.active == 0
    ensures DrainInv(Goes(s, t, Waiting(s.threads[t].todo - {nsp})))
  {
  }

  lemma SyncReturnsKeepsDrain(s: State, t: nat)
    requires DrainInv(s) && t in s.threads && s.threads[t].Waiting? && s.threads[t].todo == {}
    ensures DrainInv(Leaves(s, t).(drained := true))
  {
  }

  predicate DrainStep(a: Step) {
    || a.SocketStep? || a.CancelOne? || a.FinishSocket? || a.Connect?
    || a.SyncSnapshot? || a.WaitOne? || a.SyncReturns?
  }

  lemma NoDrain(s: State, a: Step)
    requires Enabled(s, a) && !DrainStep(a) && !NoThread(a)
    ensures
      var s' := Apply(s, a);
      && s'.sockets == s.sockets && s'.drained == s.drained
      && (a.thread in s'.threads ==> !s'.threads[a.thread].Waiting?)
  {
    hide S.Apply, S.ApplyCancel, S.Init, S.Enabled, Resumed;
  }

  lemma SameKeepsDrain(s: State, s': State, t: nat)
    requires DrainInv(s) && OthersStay(s, s', t) && s'.sockets == s.sockets && s'.drained == s.drained
    requires t in s'.threads ==> !s'.threads[t].Waiting?
    ensures DrainInv(s')
  {
  }

  lemma OtherKeepsDrain(s: State, a: Step)
    requires DrainInv(s) && Enabled(s, a) && !DrainStep(a)
    ensures DrainInv(Apply(s, a))
  {
    hide S.Apply, S.Enabled, DrainInv;
    if a.EngineClosed? {
      BudgetKeepsDrain(s, Apply(s, a).budget);
    } else {
      StepMovesOne(s, a);
      NoDrain(s, a);
      hide Apply, Enabled;
      SameKeepsDrain(s, Apply(s, a), a.thread);
    }
  }

  lemma BudgetKeepsDrain(s: State, b: Budget)
    requires DrainInv(s)
    ensures DrainInv(s.(budget := b))
  {
  }

  lemma DrainKept(s: State, a: Step)
    requires EngineInv(s) && RegistryInv(s) && SocketsInv(s) && DrainInv(s) && Enabled(s, a)
    ensures DrainInv(Apply(s, a))
  {
    hide S.Enabled, RegistryInv, EngineInv, SocketsInv, DrainInv;
    hide ApplyBeginSocket, ApplyFinishSocket, ApplySocketStep, ApplyCancelOne, ApplyConnect, ApplyCloseEngine;
    match a {
      case SocketStep(nsp, step) => SocketStepKeepsDrain(s, nsp, step);
      case CancelOne(t, nsp) => CancelOneKeepsDrain(s, t, nsp);
      case FinishSocket(t) => FinishSocketKeepsDrain(s, t);
      case Connect(_) => ConnectKeepsDrain(s, a);
      case SyncSnapshot(t) => SyncSnapshotKeepsDrain(s, t);
      case WaitOne(t, nsp) => WaitOneKeepsDrain(s, t, nsp);
      case SyncReturns(t) => SyncReturnsKeepsDrain(s, t);
      case _ => OtherKeepsDrain(s, a);
    }
  }

  lemma FinishSocketKeepsDrain(s: State, t: nat)
    requires RegistryInv(s) && DrainInv(s) && t in s.threads && s.threads[t].Registering?
    ensures DrainInv(ApplyFinishSocket(s, t))
  {
    hide T.Quiet;
  }

  lemma ConnectKeepsDrain(s: State, a: Step)
    requires a.Connect? && Enabled(s, a)
    ensures DrainInv(Apply(s, a))
  {
    hide Resumed;
  }

  lemma InvKept(s: State, a: Step)
    requires Inv(s) && Enabled(s, a)
    ensures Inv(Apply(s, a))
  {
    hide Apply, Enabled, EngineInv, SuccessionInv, RegistryInv, DrainInv, SocketsInv, BudgetOk;
    EngineKept(s, a);
    SuccessionKept(s, a);
    RegistryKept(s, a);
    DrainKept(s, a);
    SocketsKept(s, a);
    BudgetKept(s, a);
  }

  lemma {:induction false} RunKeepsInv(s: State, steps: seq<Step>)
    requires Inv(s) && Runnable(s, steps)
    ensures Inv(Run(s, steps))
    decreases |steps|
  {
    hide Apply, Enabled, Inv;
    if steps != [] {
      InvKept(s, steps[0]);
      RunKeepsInv(Apply(s, steps[0]), steps[1..]);
    }
  }

  lemma InReach(attempts: int, steps: seq<Step>)
    requires Runnable(Init(attempts), steps)
    ensures Inv(Run(Init(attempts), steps))
  {
    RunKeepsInv(Init(attempts), steps);
  }

  lemma {:induction false} RunConcat(s: State, a: seq<Step>, b: seq<Step>)
    ensures Runnable(s, a + b) <==> Runnable(s, a) && Runnable(Run(s, a), b)
    ensures Runnable(s, a + b) ==> Run(s, a + b) == Run(Run(s, a), b)
    decreases |a|
  {
    hide Apply, Enabled;
    if a == [] {
      assert a + b == b;
    } else {
      assert (a + b)[0] == a[0] && (a + b)[1..] == a[1..] + b;
      if Enabled(s, a[0]) {
        RunConcat(Apply(s, a[0]), a[1..], b);
      }
    }
  }

  // ----- Shutdown against engine replacement -----

  predicate NoConnect(steps: seq<Step>) {
    forall a :: a in steps ==> !a.Connect?
  }

  /** Between two states of a shut-down client: the same engine is installed, and no thread
      has got past the test of an engine that was closing. */
  ghost predicate Frozen(s: State, s': State) {
    && s'.closed && s'.engines.flag && s'.engines.installed == s.engines.installed
    && s.engines.closing <= s'.engines.closing && s'.engines.superseded == s.engines.superseded
    && (s.drained ==> s'.drained)
    && (forall t :: t in s'.threads && s'.threads[t].Checked? && s'.threads[t].engine in s.engines.closing ==>
          t in s.threads && s.threads[t] == s'.threads[t])
    && s'.budget.announced == s.budget.announced
  }

  lemma StepFreezes(s: State, a: Step)
    requires EngineInv(s) && s.closed && Enabled(s, a) && !a.Connect?
    ensures Frozen(s, Apply(s, a))
  {
    hide S.Apply, S.ApplyCancel, S.Init, S.Enabled;
  }

  lemma FrozenTransitive(a: State, b: State, c: State)
    requires Frozen(a, b) && Frozen(b, c)
    ensures Frozen(a, c)
  {
  }

  lemma {:induction false} RunFreezes(s: State, steps: seq<Step>)
    requires Inv(s) && s.closed && Runnable(s, steps) && NoConnect(steps)
    ensures Frozen(s, Run(s, steps))
    decreases |steps|
  {
    hide Apply, Enabled, Frozen, NoConnect;
    if steps == [] {
      FrozenItself(s);
    } else {
      NoConnectParts(steps);
      StepFreezes(s, steps[0]);
      InvKept(s, steps[0]);
      FrozenIsClosed(s, Apply(s, steps[0]));
      RunFreezes(Apply(s, steps[0]), steps[1..]);
      FrozenTransitive(s, Apply(s, steps[0]), Run(Apply(s, steps[0]), steps[1..]));
    }
  }

  lemma FrozenItself(s: State)
    requires EngineInv(s) && s.closed
    ensures Frozen(s, s)
  {
  }

  lemma FrozenIsClosed(s: State, s': State)
    requires Frozen(s, s')
    ensures s'.closed
  {
  }

  lemma NoConnectParts(steps: seq<Step>)
    requires NoConnect(steps) && steps != []
    ensures !steps[0].Connect? && NoConnect(steps[1..])
  {
    assert steps[0] in steps;
    assert forall a :: a in steps[1..] ==> a in steps;
  }

  /** In every interleaving, once a close has completed and until the next connect, the
      installed engine is closed, it stays the installed one, and no `open` call that tests
      its flag from then on gets through. */
  lemma ClosedEngineStays(attempts: int, before: seq<Step>, after: seq<Step>)
    requires Runnable(Init(attempts), before + after) && Runnable(Init(attempts), before)
    requires Run(Init(attempts), before).closed && NoConnect(after)
    ensures
      var s := Run(Init(attempts), before);
      var s' := Run(Init(attempts), before + after);
      && s'.closed && s'.engines.installed == s.engines.installed
      && (s.engines.installed.Some? ==>
            && s.engines.installed.value in s'.engines.closing
            && forall t :: t in s'.threads && s'.threads[t] == Checked(s.engines.installed.value) ==>
                 t in s.threads && s.threads[t] == Checked(s.engines.installed.value))
  {
    hide Apply, Enabled, Init;
    RunConcat(Init(attempts), before, after);
    InReach(attempts, before);
    RunFreezes(Run(Init(attempts), before), after);
  }

  lemma RunSnoc(s: State, steps: seq<Step>, a: Step)
    requires Runnable(s, steps) && Enabled(Run(s, steps), a)
    ensures Runnable(s, steps + [a]) && Run(s, steps + [a]) == Apply(Run(s, steps), a)
  {
    hide Apply, Enabled;
    RunConcat(s, steps, [a]);
    assert [a][1..] == [];
  }

  lemma RunNothing(s: State)
    ensures Runnable(s, []) && Run(s, []) == s
  {
  }

  /** After a close, until the next connect, an `open` call gets past its test exactly when its
      engine had been superseded before and was not closing when that happened: a close reaches
      the installed engine only. */
  lemma OnlySupersededOpens(attempts: int, steps: seq<Step>, t: nat)
    requires Runnable(Init(attempts), steps)
    requires Run(Init(attempts), steps).closed && Enabled(Run(Init(attempts), steps), OpenTest(t))
    ensures
      var s := Run(Init(attempts), steps);
      var e := s.threads[t].engine;
      && (t in Apply(s, OpenTest(t)).threads <==> e in s.engines.superseded && !s.engines.superseded[e])
      && (e in s.engines.superseded ==> s.engines.installed != Some(e))
  {
    hide Init, Inv, Runnable, Run;
    InReach(attempts, steps);
    OpenerFacts(Run(Init(attempts), steps), t);
  }

  lemma OpenerFacts(s: State, t: nat)
    requires Inv(s) && s.closed && t in s.threads && s.threads[t].Installed?
    ensures
      var e := s.threads[t].engine;
      && (e !in s.engines.closing <==> e in s.engines.superseded && !s.engines.superseded[e])
      && (e in s.engines.superseded ==> s.engines.installed != Some(e))
  {
    hide RegistryInv, DrainInv, SocketsInv;
  }

  function Witness(g: Engines, b: Budget, threads: map<nat, Pc>): State {
    State(g, b, map[], None, threads, false, false)
  }

  lemma Arrive(start: State, steps: seq<Step>, a: Step, s': State) returns (longer: seq<Step>)
    requires Runnable(start, steps) && Enabled(Run(start, steps), a) && Apply(Run(start, steps), a) == s'
    ensures Runnable(start, longer) && Run(start, longer) == s'
  {
    RunSnoc(start, steps, a);
    longer := steps + [a];
  }

  /** A first connect, whose engine is then lost. */
  lemma FirstEngineLost() returns (steps: seq<Step>)
    ensures Runnable(Init(1), steps)
    ensures Run(Init(1), steps) == Witness(Engines(false, Some(0), {}, map[], 1), Budget(1, 1, [0], 0), map[])
  {
    hide Runnable, Run, S.Apply, S.Enabled, S.ApplyCancel, S.Init;
    var s0 := Init(1);
    RunNothing(s0);
    var b := New(1).budget;
    var one := Engines(false, Some(0), {}, map[], 1);
    steps := Arrive(s0, [], Connect(0), Witness(Engines(false, None, {}, map[], 1), b, map[0 := Built(0)]));
    steps := Arrive(s0, steps, Install(0), Witness(one, b, map[0 := Installed(0)]));
    steps := Arrive(s0, steps, OpenTest(0), Witness(one, b, map[0 := Checked(0)]));
    steps := Arrive(s0, steps, TransportConnect(0), Witness(one, b, map[]));
    steps := Arrive(s0, steps, EngineClosed, Witness(one, Budget(1, 1, [0], 0), map[]));
  }

  /** A reconnect worker has installed the second engine. */
  lemma WorkerInstalls() returns (steps: seq<Step>)
    ensures Runnable(Init(1), steps)
    ensures
      Run(Init(1), steps) ==
      Witness(Engines(false, Some(1), {}, map[0 := false], 2), Budget(1, 1, [0], 0), map[1 := Installed(1)])
  {
    hide Runnable, Run, S.Apply, S.Enabled, S.ApplyCancel, S.Init;
    var s0 := Init(1);
    steps := FirstEngineLost();
    var b := Budget(1, 1, [0], 0);
    var one := Engines(false, Some(0), {}, map[], 2);
    var two := Engines(false, Some(1), {}, map[0 := false], 2);
    steps := Arrive(s0, steps, BeginReplace(1), Witness(one, b, map[1 := Built(1)]));
    steps := Arrive(s0, steps, Install(1), Witness(two, b, map[1 := Installed(1)]));
  }

  /** Then a second connect installs the third engine while the worker has not opened its own. */
  lemma SecondConnect() returns (steps: seq<Step>)
    ensures Runnable(Init(1), steps)
    ensures
      Run(Init(1), steps) ==
      Witness(Engines(false, Some(2), {}, map[0 := false, 1 := false], 3), Budget(1, 0, [], 0),
              map[1 := Installed(1), 2 := Installed(2)])
  {
    hide Runnable, Run, S.Apply, S.Enabled, S.ApplyCancel, S.Init;
    var s0 := Init(1);
    steps := WorkerInstalls();
    var b := Budget(1, 0, [], 0);
    var two := Engines(false, Some(1), {}, map[0 := false], 3);
    var three := Engines(false, Some(2), {}, map[0 := false, 1 := false], 3);
    steps := Arrive(s0, steps, Connect(2), Witness(two, b, map[1 := Installed(1), 2 := Built(2)]));
    steps := Arrive(s0, steps, Install(2), Witness(three, b, map[1 := Installed(1), 2 := Installed(2)]));
  }

  /** It opens that engine and returns, and a close begins. */
  lemma ConnectSupersedes() returns (steps: seq<Step>)
    ensures Runnable(Init(1), steps)
    ensures
      Run(Init(1), steps) ==
      Witness(Engines(true, Some(2), {}, map[0 := false, 1 := false], 3), Budget(1, 0, [], 0),
              map[1 := Installed(1), 3 := Flagged])
  {
    hide Runnable, Run, S.Apply, S.Enabled, S.ApplyCancel, S.Init;
    var s0 := Init(1);
    steps := SecondConnect();
    var b := Budget(1, 0, [], 0);
    var three := Engines(false, Some(2), {}, map[0 := false, 1 := false], 3);
    steps := Arrive(s0, steps, OpenTest(2), Witness(three, b, map[1 := Installed(1), 2 := Checked(2)]));
    steps := Arrive(s0, steps, TransportConnect(2), Witness(three, b, map[1 := Installed(1)]));
    steps := Arrive(s0, steps, BeginClose(3), Witness(three.(flag := true), b, map[1 := Installed(1), 3 := Flagged]));
  }

  /** The close completes and the reconnect worker opens the engine it had installed. */
  lemma SupersededEngineMayOpen() returns (steps: seq<Step>)
    ensures Runnable(Init(1), steps)
    ensures
      var s := Run(Init(1), steps);
      && s.closed && s.engines.installed == Some(2) && 1 in s.engines.superseded
      && Enabled(s, OpenTest(1)) && 1 in Apply(s, OpenTest(1)).threads
      && Apply(s, OpenTest(1)).threads[1] == Checked(1)
  {
    hide Runnable, Run, S.Apply, S.Enabled, S.ApplyCancel, S.Init;
    var s0 := Init(1);
    steps := ConnectSupersedes();
    RunSnoc(s0, steps, Snapshot(3));
    steps := steps + [Snapshot(3)];
    RunSnoc(s0, steps, CancelDone(3));
    steps := steps + [CancelDone(3)];
    RunSnoc(s0, steps, ReadEngine(3));
    steps := steps + [ReadEngine(3)];
    RunSnoc(s0, steps, CloseEngine(3));
    steps := steps + [CloseEngine(3)];
  }

  // ----- Shutdown quiescence -----

  /** After a close has completed and before the next connect, every registered socket,
      whenever it was created, has no live timed callback and refuses timed emissions. */
  lemma SocketsQuietAfterClose(attempts: int, before: seq<Step>, after: seq<Step>, nsp: string)
    requires Runnable(Init(attempts), before + after) && Runnable(Init(attempts), before)
    requires Run(Init(attempts), before).closed && NoConnect(after)
    requires nsp in Run(Init(attempts), before + after).sockets
    ensures
      var sock := Run(Init(attempts), before + after).sockets[nsp];
      && T.Quiet(sock)
      && forall t, start, timeout | start <= C.MAX_TIME && timeout > 0 ::
           S.ApplyTimedEmit(sock, t, start, timeout) == sock
  {
    hide Apply, Enabled, Init, S.Inv;
    RunConcat(Init(attempts), before, after);
    InReach(attempts, before);
    InReach(attempts, before + after);
    RunFreezes(Run(Init(attempts), before), after);
    RegistryQuiet(Run(Init(attempts), before + after), nsp);
  }

  lemma RegistryQuiet(s: State, nsp: string)
    requires RegistryInv(s) && s.closed && nsp in s.sockets
    ensures T.Quiet(s.sockets[nsp])
  {
  }

  /** When `sync_close()` returns, no timed callback of any socket is running, and none runs
      until the next connect. */
  lemma NoCallbackAfterSyncClose(attempts: int, before: seq<Step>, after: seq<Step>, nsp: string)
    requires Runnable(Init(attempts), before + after) && Runnable(Init(attempts), before)
    requires Run(Init(attempts), before).drained && NoConnect(after)
    requires nsp in Run(Init(attempts), before + after).sockets
    ensures
      var sock := Run(Init(attempts), before + after).sockets[nsp];
      sock.core.active == 0 && sock.running == {}
  {
    hide Apply, Enabled, Init;
    RunConcat(Init(attempts), before, after);
    InReach(attempts, before);
    InReach(attempts, before + after);
    RunFreezes(Run(Init(attempts), before), after);
  }

  // ----- Reconnect budget -----

  /** Between two connects the announced attempt numbers are 0, 1, 2, ... and there are at
      most `attempts` of them. */
  lemma ReconnectBudget(attempts: int, steps: seq<Step>)
    requires Runnable(Init(attempts), steps)
    ensures
      var s := Run(Init(attempts), steps);
      && (forall i :: 0 <= i < |s.budget.announced| ==> s.budget.announced[i] == i)
      && (|s.budget.announced| == 0 || |s.budget.announced| <= attempts)
  {
    hide Apply, Enabled, EngineInv, SuccessionInv, RegistryInv, DrainInv, SocketsInv;
    InReach(attempts, []);
    RunNothing(Init(attempts));
    InReach(attempts, steps);
    AttemptsFixed(Init(attempts), steps);
  }

  lemma {:induction false} AttemptsFixed(s: State, steps: seq<Step>)
    requires Inv(s) && Runnable(s, steps)
    ensures Run(s, steps).budget.attempts == s.budget.attempts
    decreases |steps|
  {
    hide Apply, Enabled;
    if steps != [] {
      InvKept(s, steps[0]);
      BudgetKept(s, steps[0]);
      AttemptsFixed(Apply(s, steps[0]), steps[1..]);
    }
  }
}
