/** The Engine.IO client and the Socket.IO client as objects.  Each method, run without
    interference, is proved to act on the fields as the functions of `EngineCore` and
    `ClientCore` say; `ClientRefinement` shows that sequences of these calls are runs of the
    concurrent machine. */
module Client {
  import opened Options
  import opened Json
  import opened PacketText
  import opened JsonParser
  import Polling
  import E = EngineCore
  import S = SocketCore
  import C = ClientCore
  import Backoff

  class Engine {
    ghost const number: nat
    var open: bool
    var closing: bool
    var heartbeatStop: bool
    var heartbeats: nat
    var sid: string
    var interval: int
    var timeout: int
    var lastPong: int
    var connects: seq<string>
    var transportClosed: bool
    var sent: seq<Frame>
    var frames: seq<Frame>
    var notices: seq<E.Notice>

    ghost function View(): E.Core
      reads this
    {
      E.Core(E.Flags(open, closing, heartbeatStop, heartbeats), sid, interval, timeout, lastPong,
             connects, transportClosed, sent, frames, notices)
    }

    constructor (ghost number: nat)
      ensures this.number == number && View() == E.Fresh()
    {
      this.number := number;
      open, closing, heartbeatStop, heartbeats := false, false, true, 0;
      sid, interval, timeout, lastPong := "", 25000, 20000, 0;
      connects, transportClosed, sent, frames, notices := [], false, [], [], [];
    }

    method Open(url: string)
      modifies this
      ensures View() == E.OpenCall(old(View()), url)
      ensures connects == old(connects) + if old(closing) then [] else [url]
      ensures old(closing) ==> View() == old(View())
      ensures !old(closing) ==> !open && sid == "" && !closing
    {
      if closing {
        return;
      }
      open, sid := false, "";
      connects := connects + [url];
    }

    method Close()
      modifies this
      ensures View() == E.CloseCall(old(View())) && closing
      ensures old(closing) ==> View() == old(View())
      ensures !old(closing) ==> transportClosed && heartbeatStop && !open
    {
      var was := closing;
      closing := true;
      if was {
        return;
      }
      heartbeatStop := true;
      open, transportClosed := false, true;
    }

    method Send(frame: Frame)
      modifies this
      ensures View() == E.SendCall(old(View()), frame)
      ensures |sent| == |old(sent)| + if open then 1 else 0
      ensures open ==> Polling.Dispatch(sent[|old(sent)|]) == [frame]
    {
      E.SendReachesPeer(frame);
      if !open {
        return;
      }
      match frame {
        case Attachment(_) => sent := sent + [frame];
        case Text(text) => sent := sent + [Text("4" + text)];
      }
    }

    method StartHeartbeat()
      modifies this`heartbeatStop, this`heartbeats
      ensures View() == E.StartHeartbeat(old(View()))
      ensures heartbeats == old(heartbeats) + if open && !closing then 1 else 0
      ensures heartbeatStop == (old(heartbeatStop) && !(open && !closing))
    {
      if !open || closing {
        return;
      }
      heartbeatStop := false;
      heartbeats := heartbeats + 1;
    }

    method HandleMessage(message: Frame, parse: string -> Option<E.Handshake>, now: int)
      modifies this
      ensures View() == E.Receive(old(View()), message, parse, now)
      ensures frames == old(frames) + Polling.Dispatch(message)
      ensures sent == old(sent) + if E.Typed(message, '2') then [Text("3")] else []
      ensures notices == old(notices) +
                if E.Typed(message, '0') then [E.OpenNotice]
                else if E.Typed(message, '1') then [E.CloseNotice("server closed connection")] else []
      ensures !E.Typed(message, '0') ==> (sid, interval, timeout) == old((sid, interval, timeout))
      ensures E.Typed(message, '0') ==>
                match parse(message.text[1..])
                case None => sid == "" && (interval, timeout) == old((interval, timeout))
                case Some(h) => sid == h.sid && interval == h.interval && timeout == h.timeout
    {
      E.ReceiveEffects(View(), message, parse, now);
      E.ReceiveSession(View(), message, parse, now);
      if message.Attachment? {
        frames := frames + [message];
        return;
      }
      var payload := message.text;
      if payload == "" {
        return;
      }
      var rest := payload[1..];
      match payload[0] {
        case '0' => HandleHandshake(parse(rest), now);
        case '1' =>
          open, heartbeatStop := false, true;
          notices := notices + [E.CloseNotice(E.SERVER_CLOSED)];
        case '2' =>
          lastPong := now;
          sent := sent + [Text("3")];
        case '3' =>
          lastPong := now;
        case '4' =>
          frames := frames + [Text(rest)];
        case _ =>
      }
    }

    method HandleHandshake(handshake: Option<E.Handshake>, now: int)
      modifies this
      ensures View() == E.Shake(old(View()), handshake, now)
    {
      hide E.StartHeartbeat;
      Greet(handshake, now);
      StartHeartbeat();
      notices := notices + [E.OpenNotice];
    }

    method Greet(handshake: Option<E.Handshake>, now: int)
      modifies this
      ensures View() == E.Greeted(old(View()), handshake, now) && open && lastPong == now
      ensures match handshake
              case None => sid == "" && (interval, timeout) == old((interval, timeout))
              case Some(h) => sid == h.sid && interval == h.interval && timeout == h.timeout
    {
      heartbeatStop := true;
      if handshake.Some? {
        interval, timeout := handshake.value.interval, handshake.value.timeout;
      }
      lastPong := now;
      sid := if handshake.None? then "" else handshake.value.sid;
      open := true;
    }

    method TransportClosed(reason: string)
      modifies this
      ensures View() == E.TransportEnds(old(View()), reason)
      ensures !open && heartbeatStop && notices == old(notices) + [E.CloseNotice(reason)]
    {
      open, heartbeatStop := false, true;
      notices := notices + [E.CloseNotice(reason)];
    }
  }

  // ----- The Socket.IO client -----

  const UINT_MAX := 0xffff_ffff

  /** What the reconnect handler is told, and whether a worker was started. */
  datatype Reconnection =
    | Failed
    | Announced(attempt: int, delay: int, shown: int, started: bool)

  /** Every socket accepts timed emissions again and is otherwise as before. */
  predicate Reopened(a: map<string, S.Core>, b: map<string, S.Core>) {
    b.Keys == a.Keys && forall nsp :: nsp in a ==> b[nsp] == a[nsp].(closed := false)
  }

  lemma ResumedAll(a: map<string, S.Core>)
    ensures Reopened(a, map nsp | nsp in a :: S.Resume(a[nsp]))
  {
  }

  /** Every socket is disconnected and otherwise as before. */
  predicate Disconnected(a: map<string, S.Core>, b: map<string, S.Core>) {
    b.Keys == a.Keys && forall nsp :: nsp in a ==> b[nsp] == a[nsp].(connected := false)
  }

  lemma DisconnectedAll(a: map<string, S.Core>)
    ensures Disconnected(a, map nsp | nsp in a :: C.Disconnected(a[nsp]))
  {
  }

  /** A closed socket: cancelled, disconnected, its timed packets gone and the rest untouched. */
  predicate SocketShut(before: S.Core, after: S.Core) {
    after == before.(closed := true, connected := false, live := {}, deadlines := map[],
                     buffer := S.Purge(before.buffer, before.live))
  }

  lemma ShutIs(c: S.Core)
    ensures SocketShut(c, C.Shut(c))
  {
  }

  class Client {
    const attempts: int              // options_.reconnect_attempts
    const forcePolling: bool
    const delay: int                 // options_.reconnect_delay
    const delayMax: int
    const jitter: real
    var flag: bool                   // intentional_close_
    var polling: bool
    var engine: Engine?
    var used: int
    var announced: seq<int>          // attempt numbers given to the reconnect handler
    var failures: nat                // calls of the failure handler
    var sockets: map<string, S.Core>
    var auths: map<string, Json>
    ghost var made: nat
    ghost var closing: set<nat>
    ghost var superseded: map<nat, bool>

    ghost function View(): C.View
      reads this
    {
      C.View(C.Engines(flag, if engine == null then None else Some(engine.number), closing, superseded, made),
             C.Budget(attempts, used, announced, failures), sockets)
    }

    ghost predicate Valid()
      reads this, engine
    {
      && (engine != null ==> engine.number < made && (engine.closing <==> engine.number in closing))
      && (forall e :: e in closing ==> e < made)
      && C.BudgetOk(View().budget) && auths.Keys == sockets.Keys
    }

    constructor (attempts: int, forcePolling: bool, delay: int, delayMax: int, jitter: real)
      ensures Valid() && View() == C.New(attempts) && engine == null && this.attempts == attempts
    {
      this.attempts, this.forcePolling := attempts, forcePolling;
      this.delay, this.delayMax, this.jitter := delay, delayMax, jitter;
      flag, polling, engine, used, announced, failures := false, false, null, 0, [], 0;
      sockets, auths := map[], map[];
      made, closing, superseded := 0, {}, map[];
    }

    /** A loop over the registered sockets. */
    method UpdateAll(f: S.Core -> S.Core)
      modifies this`sockets
      ensures sockets == map nsp | nsp in old(sockets) :: f(old(sockets)[nsp])
    {
      var todo := sockets.Keys;
      while todo != {}
        invariant todo <= old(sockets).Keys && sockets.Keys == old(sockets).Keys
        invariant forall nsp :: nsp in sockets ==>
                    sockets[nsp] == if nsp in todo then old(sockets)[nsp] else f(old(sockets)[nsp])
        decreases |todo|
      {
        var nsp :| nsp in todo;
        sockets := sockets[nsp := f(sockets[nsp])];
        todo := todo - {nsp};
      }
    }

    method EnsureEngine() returns (r: Engine?)
      requires Valid()
      modifies this`engine, this`made, this`superseded
      ensures Valid() && View() == C.AfterReplace(old(View()))
      ensures if old(flag) then r == null && engine == old(engine)
              else r != null && r == engine && fresh(r) && r.View() == E.Fresh()
    {
      var candidate := new Engine(made);
      made := made + 1;
      if flag {
        return null;
      }
      if engine != null {
        superseded := superseded[engine.number := engine.number in closing];
      }
      engine := candidate;
      return candidate;
    }

    method ReopenAll()
      modifies this`sockets
      ensures sockets == (map nsp | nsp in old(sockets) :: S.Resume(old(sockets)[nsp]))
      ensures Reopened(old(sockets), sockets)
    {
      hide S.Resume, Reopened;
      ResumedAll(sockets);
      UpdateAll(S.Resume);
    }

    method Reset()
      requires Valid()
      modifies this`flag, this`sockets, this`polling, this`used, this`announced
      ensures Valid() && polling == forcePolling
      ensures
        View() == C.View(C.SetFlag(old(View()).engines, false), C.Renew(old(View()).budget),
                         map nsp | nsp in old(sockets) :: S.Resume(old(sockets)[nsp]))
      ensures !flag && used == 0 && announced == []
      ensures Reopened(old(sockets), sockets)
    {
      hide S.Resume, Reopened;
      flag := false;
      ReopenAll();
      polling, used, announced := forcePolling, 0, [];
    }

    method Connect(url: string)
      requires Valid()
      modifies this
      ensures Valid() && View() == C.AfterConnect(old(View())) && polling == forcePolling
      ensures !flag && used == 0 && announced == []
      ensures Reopened(old(sockets), sockets)
      ensures engine != null && fresh(engine) && engine.View() == E.OpenCall(E.Fresh(), url)
      ensures engine.connects == [url] && !engine.closing
    {
      Reset();
      var candidate := EnsureEngine();
      if candidate != null {
        candidate.Open(url);
      }
    }

    /** `socket()`; `greeted` when a CONNECT packet was sent. */
    method SocketFor(nsp: string, auth: Json) returns (greeted: bool)
      requires Valid()
      modifies this`sockets, this`auths
      ensures Valid() && View() == C.AfterSocket(old(View()), NormalNamespace(nsp))
      ensures sockets.Keys == old(sockets.Keys) + {if nsp == "" then "/" else nsp}
      ensures forall other :: other in old(sockets) ==> sockets[other] == old(sockets)[other]
      ensures NormalNamespace(nsp) !in old(sockets) ==>
                sockets[NormalNamespace(nsp)] == S.Core(false, false, flag, 0, {}, {}, [], 0, map[])
      ensures greeted <==> NormalNamespace(nsp) !in old(sockets) && engine != null && engine.open
      ensures auths == if auth.Null? && NormalNamespace(nsp) in old(sockets) then old(auths)
                       else old(auths)[NormalNamespace(nsp) := auth]
    {
      var name := if nsp == "" then "/" else nsp;
      if name in sockets {
        if !auth.Null? {
          auths := auths[name := auth];
        }
        return false;
      }
      var socket := S.Fresh();
      if flag {
        socket := S.Cancel(socket);
      }
      sockets := sockets[name := socket];
      auths := auths[name := auth];
      greeted := engine != null && engine.open;
    }

    /** `close()`; a DISCONNECT packet is sent for each socket in `farewells`. */
    method Close() returns (farewells: set<string>)
      requires Valid()
      modifies this`flag, this`sockets, this`closing, engine
      ensures Valid() && View() == C.AfterClose(old(View())) && C.ShutDown(View())
      ensures flag && sockets.Keys == old(sockets.Keys) && (engine != null ==> engine.closing)
      ensures forall nsp :: nsp in sockets ==> SocketShut(old(sockets)[nsp], sockets[nsp])
      ensures farewells == set nsp | nsp in old(sockets) && old(sockets)[nsp].connected
      ensures engine != null ==> engine.View() == E.CloseCall(old(engine.View()))
    {
      flag := true;
      farewells := CancelAll();
      forall nsp | nsp in sockets
        ensures SocketShut(old(sockets)[nsp], sockets[nsp])
      {
        ShutIs(old(sockets)[nsp]);
      }
      if engine != null {
        engine.Close();
        closing := closing + {engine.number};
      }
      C.CloseShutsDown(old(View()));
    }

    method CancelOne(before: S.Core) returns (socket: S.Core, farewell: bool)
      ensures socket == C.Shut(before) && farewell == before.connected
    {
      socket := S.Cancel(before);
      farewell := socket.connected;
      if farewell {
        socket := socket.(connected := false);
      }
    }

    /** The loop of `close()` over its snapshot of the sockets. */
    method CancelAll() returns (farewells: set<string>)
      modifies this`sockets
      ensures sockets == map nsp | nsp in old(sockets) :: C.Shut(old(sockets)[nsp])
      ensures farewells == set nsp | nsp in old(sockets) && old(sockets)[nsp].connected
    {
      hide C.Shut;
      farewells := {};
      var todo := sockets.Keys;
      while todo != {}
        invariant todo <= old(sockets).Keys && sockets.Keys == old(sockets).Keys
        invariant forall nsp :: nsp in sockets ==>
                    sockets[nsp] == if nsp in todo then old(sockets)[nsp] else C.Shut(old(sockets)[nsp])
        invariant forall nsp :: nsp in farewells <==> nsp in old(sockets) && nsp !in todo && old(sockets)[nsp].connected
        decreases |todo|
      {
        var nsp :| nsp in todo;
        var socket, farewell := CancelOne(sockets[nsp]);
        if farewell {
          farewells := farewells + {nsp};
        }
        sockets := sockets[nsp := socket];
        todo := todo - {nsp};
      }
    }

    /** `schedule_reconnect`.  `sample` is the random number drawn, and `closes` is what the flag
        reads after the handler has been called. */
    method ScheduleReconnect(sample: real, closes: bool) returns (r: Reconnection)
      requires Valid()
      modifies this`used, this`announced, this`failures
      ensures Valid() && View() == old(View()).(budget := C.Announce(old(View()).budget).0)
      ensures r.Failed? <==> old(used) >= attempts
      ensures r.Failed? ==> used == old(used) && announced == old(announced) && failures == old(failures) + 1
      ensures r.Announced? ==> used == old(used) + 1 && failures == old(failures)
      ensures r.Announced? ==>
                && r.attempt == old(used) && announced == old(announced) + [r.attempt] && r.started == !closes
                && r.delay == Backoff.Delay(delay, delayMax, jitter, r.attempt + 1, sample)
                && 0 <= r.delay <= Backoff.AtLeastZero(delayMax) && r.shown <= r.delay && 0 <= r.shown <= UINT_MAX
    {
      hide Backoff.Delay;
      if used >= attempts {
        failures := failures + 1;
        return Failed;
      }
      var attempt := used;
      used := used + 1;
      announced := announced + [attempt];
      var wait := Backoff.Delay(delay, delayMax, jitter, used, sample);
      Backoff.DelayBoundedAndMonotone(delay, delayMax, jitter, used, used, sample, sample);
      return Announced(attempt, wait, if wait < UINT_MAX then wait else UINT_MAX, !closes);
    }

    /** `on_engineio_close`: sockets are marked disconnected and, unless shutting down, the next
        reconnect is announced or failure is reported. */
    method EngineClosed(sample: real, closes: bool) returns (r: Option<Reconnection>)
      requires Valid()
      modifies this`sockets, this`used, this`announced, this`failures
      ensures Valid() && View() == C.AfterEngineClosed(old(View()))
      ensures r.Some? <==> !flag && attempts > 0
      ensures r.Some? ==> (r.value.Failed? <==> old(used) >= attempts)
      ensures announced == old(announced) + if r.Some? && r.value.Announced? then [old(used)] else []
      ensures Disconnected(old(sockets), sockets)
    {
      hide C.Disconnected, Disconnected;
      DisconnectedAll(sockets);
      UpdateAll(C.Disconnected);
      if !flag && attempts > 0 {
        var next := ScheduleReconnect(sample, closes);
        return Some(next);
      }
      return None;
    }

    /** The reconnect worker after its delay.  `closes` is what the flag reads after the handler
        has been called: then the engine is installed but not opened. */
    method Reconnect(url: string, closes: bool)
      requires Valid()
      modifies this`engine, this`made, this`superseded
      ensures Valid() && (old(flag) ==> View() == old(View()) && engine == old(engine))
      ensures !old(flag) ==>
                && View() == C.AfterReplace(old(View())) && engine != null && fresh(engine)
                && engine.View() == if closes then E.Fresh() else E.OpenCall(E.Fresh(), url)
    {
      if flag {
        return;
      }
      var candidate := EnsureEngine();
      if candidate != null {
        if closes {
          return;
        }
        candidate.Open(url);
      }
    }

    /** The polling fallback happens at most once per connect and never after shutdown. */
    method Fallback(url: string)
      requires Valid()
      modifies this`engine, this`made, this`superseded, this`polling
      ensures Valid()
      ensures old(flag) || old(polling) ==> View() == old(View()) && polling == old(polling)
      ensures !old(flag) && !old(polling) ==>
                && View() == C.AfterReplace(old(View())) && polling && engine != null && fresh(engine)
                && engine.View() == E.OpenCall(E.Fresh(), url)
    {
      if flag || polling {
        return;
      }
      polling := true;
      Reconnect(url, false);
    }
  }
}
