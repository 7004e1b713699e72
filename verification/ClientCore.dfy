/** The client's critical sections as functions on values.  The client object is proved to act
    on its fields as these functions say, and the steps of the concurrent machine are built
    from the same functions. */
module ClientCore {
  import opened Options
  import C = SocketCore

  // ----- Engines -----

  /** Engines are numbered in the order they are made. */
  datatype Engines = Engines(
    flag: bool,                      // intentional_close_
    installed: Option<nat>,          // engineio_
    closing: set<nat>,               // engines a close has marked
    superseded: map<nat, bool>,      // history: engines replaced, and whether they were closing then
    made: nat)

  /** `ensure_engineio` before it takes the lock; the engine's number is the old `made`. */
  function Make(g: Engines): Engines {
    g.(made := g.made + 1)
  }

  /** `ensure_engineio` with the lock held: a replacement is refused once shutdown has begun. */
  function TryInstall(g: Engines, e: nat): (Engines, bool) {
    if g.flag then (g, false)
    else
      (g.(installed := Some(e),
          superseded := match g.installed
                        case None => g.superseded
                        case Some(before) => g.superseded[before := before in g.closing]),
       true)
  }

  function SetFlag(g: Engines, flag: bool): Engines {
    g.(flag := flag)
  }

  /** `close()` on the engine that was read, if there was one. */
  function MarkClosing(g: Engines, current: Option<nat>): Engines {
    match current
    case None => g
    case Some(e) => g.(closing := g.closing + {e})
  }

  // ----- Reconnect budget -----

  datatype Budget = Budget(attempts: int, used: int, announced: seq<int>, failures: nat)

  predicate BudgetOk(b: Budget) {
    && 0 <= b.used && (b.used == 0 || b.used <= b.attempts)
    && |b.announced| == b.used && forall i :: 0 <= i < |b.announced| ==> b.announced[i] == i
  }

  function Renew(b: Budget): Budget {
    b.(used := 0, announced := [])
  }

  /** `schedule_reconnect` up to the announcement. */
  function Announce(b: Budget): (Budget, bool) {
    if b.used >= b.attempts then (b.(failures := b.failures + 1), false)
    else (b.(used := b.used + 1, announced := b.announced + [b.used]), true)
  }

  /** What the loss of an engine does to the budget. */
  function AfterLoss(flag: bool, b: Budget): (Budget, bool) {
    if !flag && b.attempts > 0 then Announce(b) else (b, false)
  }

  // ----- Sockets -----

  /** A socket as `socket()` makes it: refusing timed emissions once shutdown has begun. */
  function Created(flag: bool): C.Core {
    if flag then C.Cancel(C.Fresh()) else C.Fresh()
  }

  /** A socket after `close()` has cancelled and disconnected it. */
  function Shut(c: C.Core): C.Core {
    C.Cancel(c).(connected := false)
  }

  function Disconnected(c: C.Core): (r: C.Core)
    ensures r == c.(connected := false)
  {
    C.MarkConnected(c, false).0
  }

  // ----- Whole calls, without interference -----

  datatype View = View(engines: Engines, budget: Budget, sockets: map<string, C.Core>)

  function New(attempts: int): View {
    View(Engines(false, None, {}, map[], 0), Budget(attempts, 0, [], 0), map[])
  }

  /** `ensure_engineio`. */
  function Replaced(g: Engines): Engines {
    TryInstall(Make(g), g.made).0
  }

  function AfterConnect(v: View): View {
    View(Replaced(SetFlag(v.engines, false)), Renew(v.budget), map nsp | nsp in v.sockets :: C.Resume(v.sockets[nsp]))
  }

  function AfterReplace(v: View): View {
    v.(engines := Replaced(v.engines))
  }

  function AfterSocket(v: View, nsp: string): View {
    if nsp in v.sockets then v else v.(sockets := v.sockets[nsp := Created(v.engines.flag)])
  }

  function AfterEngineClosed(v: View): View {
    View(v.engines, AfterLoss(v.engines.flag, v.budget).0, map nsp | nsp in v.sockets :: Disconnected(v.sockets[nsp]))
  }

  function AfterClose(v: View): View {
    View(MarkClosing(SetFlag(v.engines, true), v.engines.installed), v.budget,
         map nsp | nsp in v.sockets :: Shut(v.sockets[nsp]))
  }

  /** What a completed `close()` leaves behind. */
  predicate ShutDown(v: View) {
    && v.engines.flag
    && (v.engines.installed.Some? ==> v.engines.installed.value in v.engines.closing)
    && forall nsp :: nsp in v.sockets ==> C.Refusing(v.sockets[nsp])
  }

  // ----- Sequences of calls -----

  datatype Call = Connects | Replaces | Opens(nsp: string) | LosesEngine | Closes

  function After(v: View, call: Call): View {
    match call
    case Connects => AfterConnect(v)
    case Replaces => AfterReplace(v)
    case Opens(nsp) => AfterSocket(v, nsp)
    case LosesEngine => AfterEngineClosed(v)
    case Closes => AfterClose(v)
  }

  function AfterAll(v: View, calls: seq<Call>): View
    decreases |calls|
  {
    if calls == [] then v else AfterAll(After(v, calls[0]), calls[1..])
  }

  lemma CloseShutsDown(v: View)
    ensures ShutDown(AfterClose(v)) && AfterClose(v).engines.installed == v.engines.installed
  {
  }

  /** Nothing but a connect undoes a shutdown: the engine stays installed and closed, every
      socket, new or old, refuses timed emissions, and no reconnect is announced. */
  lemma {:induction false} ShutDownLasts(v: View, calls: seq<Call>)
    requires ShutDown(v) && Connects !in calls
    ensures
      var v' := AfterAll(v, calls);
      && ShutDown(v') && v'.engines.installed == v.engines.installed && v'.budget == v.budget
      && v.sockets.Keys <= v'.sockets.Keys
    decreases |calls|
  {
    if calls != [] {
      assert calls[0] in calls && forall c :: c in calls[1..] ==> c in calls;
      ShutDownLasts(After(v, calls[0]), calls[1..]);
    }
  }
}
