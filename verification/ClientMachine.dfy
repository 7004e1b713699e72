/** The client's shutdown racing with everything that can replace its engine or add a socket:
    reconnect workers, the polling fallback, `socket()` on any thread, and several `close()`
    or `sync_close()` calls at once.  Each registered socket is a whole socket machine.
    A `connect()` does not overlap a `close()`. */
module ClientMachine {
  import opened Options
  import S = SocketMachine
  import C = SocketCore
  import opened ClientCore
  import opened SocketTheorems

  /** Where a thread inside the client stands; a thread that is elsewhere has no entry. */
  datatype Pc =
    | Built(engine: nat)                       // ensure_engineio: engine made, lock not yet taken
    | Installed(engine: nat)                   // ensure_engineio returned; open() is next
    | Checked(engine: nat)                     // inside open(), past the test of closing_
    | Registering(nsp: string, sock: S.State)  // inside socket(), holding sockets_mutex_
    | Flagged                                  // close(): intentional_close_ set
    | Cancelling(todo: set<string>)            // close(): snapshot taken
    | ReadsEngine                              // close(): sockets done
    | ClosesEngine(current: Option<nat>)       // close(): current engine read
    | ClosedIt                                 // close() finished; sync_close() goes on
    | Waiting(todo: set<string>)               // sync_close(): second snapshot taken

  datatype State = State(
    engines: Engines,
    budget: Budget,
    sockets: map<string, S.State>,
    holder: Option<nat>,             // owner of sockets_mutex_
    threads: map<nat, Pc>,
    // history since the last connect()
    closed: bool,                    // a close() has completed
    drained: bool)                   // a sync_close() has completed

  datatype Step =
    | BeginReplace(thread: nat)
    | Install(thread: nat)
    | Abandon(thread: nat)
    | OpenTest(thread: nat)
    | TransportConnect(thread: nat)
    | BeginSocket(thread: nat, nsp: string, now: int)
    | FinishSocket(thread: nat)
    | SocketStep(nsp: string, step: S.Step)
    | BeginClose(thread: nat)
    | Snapshot(thread: nat)
    | CancelOne(thread: nat, nsp: string)
    | CancelDone(thread: nat)
    | ReadEngine(thread: nat)
    | CloseEngine(thread: nat)
    | CloseReturns(thread: nat)
    | SyncSnapshot(thread: nat)
    | WaitOne(thread: nat, nsp: string)
    | SyncReturns(thread: nat)
    | Connect(thread: nat)
    | EngineClosed

  function Init(attempts: int): State {
    State(New(attempts).engines, New(attempts).budget, map[], None, map[], false, false)
  }

  predicate Closer(pc: Pc) {
    pc.Flagged? || pc.Cancelling? || pc.ReadsEngine? || pc.ClosesEngine? || pc.ClosedIt? || pc.Waiting?
  }

  predicate Enabled(s: State, a: Step) {
    match a
    case BeginReplace(t) => t !in s.threads && s.engines.installed.Some?
    case Install(t) => t in s.threads && s.threads[t].Built?
    case Abandon(t) => t in s.threads && s.threads[t].Installed?
    case OpenTest(t) => t in s.threads && s.threads[t].Installed?
    case TransportConnect(t) => t in s.threads && s.threads[t].Checked?
    case BeginSocket(t, nsp, _) => t !in s.threads && s.holder.None? && nsp !in s.sockets
    case FinishSocket(t) => t in s.threads && s.threads[t].Registering?
    case SocketStep(nsp, step) =>
      nsp in s.sockets && !step.Cancels? && !step.Resumes? && S.Enabled(s.sockets[nsp], step)
    case BeginClose(t) => t !in s.threads
    case Snapshot(t) => t in s.threads && s.threads[t].Flagged? && s.holder.None?
    case CancelOne(t, nsp) => t in s.threads && s.threads[t].Cancelling? && nsp in s.threads[t].todo && nsp in s.sockets
    case CancelDone(t) => t in s.threads && s.threads[t].Cancelling? && s.threads[t].todo == {}
    case ReadEngine(t) => t in s.threads && s.threads[t].ReadsEngine?
    case CloseEngine(t) => t in s.threads && s.threads[t].ClosesEngine?
    case CloseReturns(t) => t in s.threads && s.threads[t].ClosedIt?
    case SyncSnapshot(t) => t in s.threads && s.threads[t].ClosedIt? && s.holder.None?
    case WaitOne(t, nsp) =>
      && t in s.threads && s.threads[t].Waiting? && nsp in s.threads[t].todo
      && nsp in s.sockets && s.sockets[nsp].core.active == 0
    case SyncReturns(t) => t in s.threads && s.threads[t].Waiting? && s.threads[t].todo == {}
    case Connect(t) =>
      t !in s.threads && s.holder.None? && forall u :: u in s.threads ==> !Closer(s.threads[u])
    case EngineClosed => true
  }

  function Goes(s: State, t: nat, pc: Pc): State {
    s.(threads := s.threads[t := pc])
  }

  function Leaves(s: State, t: nat): State {
    s.(threads := s.threads - {t})
  }

  function ApplyInstall(s: State, t: nat): State
    requires t in s.threads && s.threads[t].Built?
  {
    var e := s.threads[t].engine;
    var (g, installed) := TryInstall(s.engines, e);
    if installed then Goes(s, t, Installed(e)).(engines := g) else Leaves(s, t)
  }

  function ApplyOpenTest(s: State, t: nat): State
    requires t in s.threads && s.threads[t].Installed?
  {
    var e := s.threads[t].engine;
    if e in s.engines.closing then Leaves(s, t) else Goes(s, t, Checked(e))
  }

  function ApplyBeginSocket(s: State, t: nat, nsp: string, now: int): State {
    var created := S.Init(now);
    Goes(s, t, Registering(nsp, if s.engines.flag then S.ApplyCancel(created) else created)).(holder := Some(t))
  }

  function ApplyFinishSocket(s: State, t: nat): State
    requires t in s.threads && s.threads[t].Registering?
  {
    var pc := s.threads[t];
    Leaves(s, t).(sockets := s.sockets[pc.nsp := pc.sock], holder := None)
  }

  function ApplySocketStep(s: State, nsp: string, step: S.Step): State
    requires nsp in s.sockets && S.Enabled(s.sockets[nsp], step)
  {
    s.(sockets := s.sockets[nsp := S.Apply(s.sockets[nsp], step)])
  }

  function ApplyCancelOne(s: State, t: nat, nsp: string): State
    requires t in s.threads && s.threads[t].Cancelling? && nsp in s.sockets
  {
    Goes(s, t, Cancelling(s.threads[t].todo - {nsp})).(sockets := s.sockets[nsp := S.ApplyCancel(s.sockets[nsp])])
  }

  function ApplyCloseEngine(s: State, t: nat): State
    requires t in s.threads && s.threads[t].ClosesEngine?
  {
    Goes(s, t, ClosedIt).(engines := MarkClosing(s.engines, s.threads[t].current), closed := true)
  }

  function Resumed(sock: S.State): S.State {
    sock.(core := C.Resume(sock.core))
  }

  function ApplyConnect(s: State, t: nat): State {
    Goes(s, t, Built(s.engines.made)).(
      engines := Make(SetFlag(s.engines, false)), budget := Renew(s.budget), closed := false, drained := false,
      sockets := map nsp | nsp in s.sockets :: Resumed(s.sockets[nsp]))
  }

  function Apply(s: State, a: Step): State
    requires Enabled(s, a)
  {
    match a
    case BeginReplace(t) => Goes(s, t, Built(s.engines.made)).(engines := Make(s.engines))
    case Install(t) => ApplyInstall(s, t)
    case Abandon(t) => Leaves(s, t)
    case OpenTest(t) => ApplyOpenTest(s, t)
    case TransportConnect(t) => Leaves(s, t)
    case BeginSocket(t, nsp, now) => ApplyBeginSocket(s, t, nsp, now)
    case FinishSocket(t) => ApplyFinishSocket(s, t)
    case SocketStep(nsp, step) => ApplySocketStep(s, nsp, step)
    case BeginClose(t) => Goes(s, t, Flagged).(engines := SetFlag(s.engines, true))
    case Snapshot(t) => Goes(s, t, Cancelling(s.sockets.Keys))
    case CancelOne(t, nsp) => ApplyCancelOne(s, t, nsp)
    case CancelDone(t) => Goes(s, t, ReadsEngine)
    case ReadEngine(t) => Goes(s, t, ClosesEngine(s.engines.installed))
    case CloseEngine(t) => ApplyCloseEngine(s, t)
    case CloseReturns(t) => Leaves(s, t)
    case SyncSnapshot(t) => Goes(s, t, Waiting(s.sockets.Keys))
    case WaitOne(t, nsp) => Goes(s, t, Waiting(s.threads[t].todo - {nsp}))
    case SyncReturns(t) => Leaves(s, t).(drained := true)
    case Connect(t) => ApplyConnect(s, t)
    case EngineClosed => s.(budget := AfterLoss(s.engines.flag, s.budget).0)
  }

  predicate Runnable(s: State, steps: seq<Step>)
    decreases |steps|
  {
    steps == [] || (Enabled(s, steps[0]) && Runnable(Apply(s, steps[0]), steps[1..]))
  }

  function Run(s: State, steps: seq<Step>): State
    requires Runnable(s, steps)
    decreases |steps|
  {
    if steps == [] then s else Run(Apply(s, steps[0]), steps[1..])
  }

  // ----- The invariant -----

  /** Shutdown is under way or over exactly under the flag, and a closer that has read the
      engine holds the one that is still installed. */
  predicate EngineInv(s: State) {
    && (forall t :: t in s.threads && Closer(s.threads[t]) ==> s.engines.flag)
    && (forall t :: t in s.threads && s.threads[t].ClosesEngine? ==> s.threads[t].current == s.engines.installed)
    && (forall t :: t in s.threads && (s.threads[t].ClosedIt? || s.threads[t].Waiting?) ==> s.closed)
    && (s.closed ==>
          s.engines.flag && (s.engines.installed.Some? ==> s.engines.installed.value in s.engines.closing))
    && (s.drained ==> s.closed)
  }

  predicate Numbered(g: Engines) {
    && (g.installed.Some? ==> g.installed.value < g.made && g.installed.value !in g.superseded)
    && (forall e :: e in g.superseded ==> e < g.made)
    && (forall e :: e in g.closing ==> g.installed == Some(e) || e in g.superseded)
    && (forall e :: e in g.superseded ==> (e in g.closing <==> g.superseded[e]))
  }

  /** Not installed yet, and never before. */
  predicate Unused(g: Engines, e: nat) {
    e < g.made && g.installed != Some(e) && e !in g.superseded
  }

  /** An engine about to be installed is new and nobody else's; one about to be opened is
      installed or superseded; and a superseded engine is closing exactly if it was when it was
      replaced. */
  predicate SuccessionInv(s: State) {
    && Numbered(s.engines)
    && (forall t :: t in s.threads && s.threads[t].Built? ==> Unused(s.engines, s.threads[t].engine))
    && (forall t, u :: t in s.threads && u in s.threads && t != u && s.threads[t].Built? && s.threads[u].Built? ==>
          s.threads[t].engine != s.threads[u].engine)
    && (forall t :: t in s.threads && (s.threads[t].Installed? || s.threads[t].Checked?) ==>
          s.engines.installed == Some(s.threads[t].engine) || s.threads[t].engine in s.engines.superseded)
  }

  /** The sockets a closer at `pc` still has to cancel. */
  function Pending(s: State, pc: Pc): set<string> {
    if pc.Cancelling? then pc.todo else {}
  }

  predicate PastSnapshot(pc: Pc) {
    Closer(pc) && !pc.Flagged?
  }

  predicate QuietExcept(s: State, todo: set<string>) {
    forall nsp :: nsp in s.sockets && nsp !in todo ==> Quiet(s.sockets[nsp])
  }

  /** A socket being registered is under the lock, and idle; if it was begun after the flag
      was set it is quiet. */
  predicate RegistryInv(s: State) {
    && (forall t :: t in s.threads && s.threads[t].Registering? ==>
          s.holder == Some(t) && s.threads[t].sock.core.active == 0)
    && (forall t :: t in s.threads && PastSnapshot(s.threads[t]) ==> QuietExcept(s, Pending(s, s.threads[t])))
    && (s.closed ==> QuietExcept(s, {}))
    && (forall t, u :: t in s.threads && u in s.threads && s.threads[t].Registering? && PastSnapshot(s.threads[u]) ==>
          Quiet(s.threads[t].sock))
    && (forall t :: t in s.threads && s.threads[t].Registering? && s.closed ==> Quiet(s.threads[t].sock))
  }

  predicate IdleExcept(s: State, todo: set<string>) {
    forall nsp :: nsp in s.sockets && nsp !in todo ==> s.sockets[nsp].core.active == 0
  }

  predicate DrainInv(s: State) {
    && (forall t :: t in s.threads && s.threads[t].Waiting? ==> IdleExcept(s, s.threads[t].todo))
    && (s.drained ==> IdleExcept(s, {}))
  }

  predicate SocketsInv(s: State) {
    && (forall nsp :: nsp in s.sockets ==> S.Inv(s.sockets[nsp]))
    && (forall t :: t in s.threads && s.threads[t].Registering? ==> S.Inv(s.threads[t].sock))
  }

  predicate Inv(s: State) {
    EngineInv(s) && SuccessionInv(s) && RegistryInv(s) && DrainInv(s) && SocketsInv(s) && BudgetOk(s.budget)
  }
}
