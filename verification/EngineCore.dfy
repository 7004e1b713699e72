/** The Engine.IO client on values: the effect of each of its calls, made of the actions that
    the calls are divided into when threads interleave. */
module EngineCore {
  import opened Options
  import opened JsonParser
  import Polling

  datatype Handshake = Handshake(sid: string, interval: int, timeout: int)

  datatype Notice = OpenNotice | CloseNotice(reason: string)

  /** The atomic flags, and how many heartbeat workers have been started. */
  datatype Flags = Flags(open: bool, closing: bool, stop: bool, heartbeats: nat)

  function SetOpen(f: Flags, open: bool): Flags {
    f.(open := open)
  }

  /** The exchange at the head of `close()`; true for the caller that goes on. */
  function Mark(f: Flags): (Flags, bool) {
    (f.(closing := true), !f.closing)
  }

  function RequestStop(f: Flags): Flags {
    f.(stop := true)
  }

  /** The test of `start_heartbeat_timer`. */
  predicate MayStart(f: Flags) {
    f.open && !f.closing
  }

  function StartWorker(f: Flags): Flags {
    f.(stop := false, heartbeats := f.heartbeats + 1)
  }

  datatype Core = Core(
    flags: Flags,
    sid: string,
    interval: int,
    timeout: int,
    lastPong: int,
    connects: seq<string>,           // URLs the transport was asked to connect to
    transportClosed: bool,
    sent: seq<Frame>,                // handed to the transport
    frames: seq<Frame>,              // handed to the parser
    notices: seq<Notice>)

  function Fresh(): Core {
    Core(Flags(false, false, true, 0), "", 25000, 20000, 0, [], false, [], [], [])
  }

  function OpenCall(c: Core, url: string): Core {
    if c.flags.closing then c else c.(flags := SetOpen(c.flags, false), sid := "", connects := c.connects + [url])
  }

  function CloseCall(c: Core): Core {
    var (marked, first) := Mark(c.flags);
    if first then c.(flags := SetOpen(RequestStop(marked), false), transportClosed := true) else c.(flags := marked)
  }

  /** What an engine passes to the transport for one frame of the parser. */
  function Prefixed(frame: Frame): Frame {
    match frame
    case Text(text) => Text("4" + text)
    case Attachment(_) => frame
  }

  /** The peer's dispatch undoes what sending adds. */
  lemma SendReachesPeer(frame: Frame)
    ensures Polling.Dispatch(Prefixed(frame)) == [frame]
  {
    if frame.Text? {
      assert ("4" + frame.text)[1..] == frame.text;
    }
  }

  function SendCall(c: Core, frame: Frame): Core {
    if c.flags.open then c.(sent := c.sent + [Prefixed(frame)]) else c
  }

  function StartHeartbeat(c: Core): Core {
    if MayStart(c.flags) then c.(flags := StartWorker(c.flags)) else c
  }

  /** A text packet of the given Engine.IO type. */
  predicate Typed(message: Frame, kind: char) {
    message.Text? && message.text != "" && message.text[0] == kind
  }

  /** A handshake before it starts the heartbeat; `parsed` is nothing when its text is not JSON. */
  function Greeted(c: Core, parsed: Option<Handshake>, now: int): Core {
    var g := c.(flags := SetOpen(RequestStop(c.flags), true), lastPong := now, sid := "");
    match parsed
    case None => g
    case Some(h) => g.(sid := h.sid, interval := h.interval, timeout := h.timeout)
  }

  function Shake(c: Core, parsed: Option<Handshake>, now: int): Core {
    StartHeartbeat(Greeted(c, parsed, now)).(notices := c.notices + [OpenNotice])
  }

  function TransportEnds(c: Core, reason: string): Core {
    c.(flags := RequestStop(SetOpen(c.flags, false)), notices := c.notices + [CloseNotice(reason)])
  }

  const SERVER_CLOSED := "server closed connection"

  /** `handle_transport_message`. */
  function Receive(c: Core, message: Frame, parse: string -> Option<Handshake>, now: int): Core {
    if Typed(message, '0') then Shake(c, parse(message.text[1..]), now)
    else if Typed(message, '1') then TransportEnds(c, SERVER_CLOSED)
    else if Typed(message, '2') then c.(lastPong := now, sent := c.sent + [Text("3")])
    else if Typed(message, '3') then c.(lastPong := now)
    else c.(frames := c.frames + Polling.Dispatch(message))
  }

  /** Whatever the message, the parser is given what `Dispatch` says, a ping and nothing else
      is answered, and only a handshake, a ping or a pong counts as a sign of life. */
  lemma ReceiveEffects(c: Core, message: Frame, parse: string -> Option<Handshake>, now: int)
    ensures
      var c' := Receive(c, message, parse, now);
      && c'.frames == c.frames + Polling.Dispatch(message)
      && c'.sent == c.sent + (if Typed(message, '2') then [Text("3")] else [])
      && c'.lastPong == (if Typed(message, '0') || Typed(message, '2') || Typed(message, '3') then now else c.lastPong)
      && c'.connects == c.connects && c'.transportClosed == c.transportClosed
  {
  }

  /** Only a handshake and a close packet touch the flags. */
  lemma ReceiveFlags(c: Core, message: Frame, parse: string -> Option<Handshake>, now: int)
    ensures
      var f, f' := c.flags, Receive(c, message, parse, now).flags;
      && (!Typed(message, '0') && !Typed(message, '1') ==> f' == f)
      && (Typed(message, '1') ==> f' == RequestStop(SetOpen(f, false)))
      && (Typed(message, '0') ==>
            var greeted := SetOpen(RequestStop(f), true);
            f' == if f.closing then greeted else StartWorker(greeted))
  {
    hide Polling.Dispatch;
  }

  /** A handshake that parses sets session and timing to its own values, one that does not clears
      the session only, and every other message leaves all three alone.  The application is told
      of each handshake and each close packet, and of nothing else. */
  lemma ReceiveSession(c: Core, message: Frame, parse: string -> Option<Handshake>, now: int)
    ensures
      var c' := Receive(c, message, parse, now);
      && (!Typed(message, '0') ==> c'.sid == c.sid && c'.interval == c.interval && c'.timeout == c.timeout)
      && (Typed(message, '0') ==>
            match parse(message.text[1..])
            case None => c'.sid == "" && c'.interval == c.interval && c'.timeout == c.timeout
            case Some(h) => c'.sid == h.sid && c'.interval == h.interval && c'.timeout == h.timeout)
      && c'.notices == c.notices +
           (if Typed(message, '0') then [OpenNotice]
            else if Typed(message, '1') then [CloseNotice("server closed connection")] else [])
  {
    hide Polling.Dispatch;
  }

  /** An open call asks the transport to connect exactly when no close has begun, and then starts
      from a closed engine without a session. */
  lemma OpenCallEffects(c: Core, url: string)
    ensures
      var c' := OpenCall(c, url);
      && c'.connects == c.connects + (if c.flags.closing then [] else [url])
      && (c.flags.closing ==> c' == c)
      && (!c.flags.closing ==> !c'.flags.open && c'.sid == "" && !c'.flags.closing)
  {
  }

  /** The first close closes the transport and asks the heartbeat to stop; every close leaves the
      engine closing, and a later one changes nothing. */
  lemma CloseCallEffects(c: Core)
    ensures
      var c' := CloseCall(c);
      && c'.flags.closing && (c.flags.closing ==> c' == c)
      && (!c.flags.closing ==> c'.transportClosed && c'.flags.stop && !c'.flags.open)
      && c'.connects == c.connects && c'.sent == c.sent && c'.frames == c.frames && c'.notices == c.notices
  {
  }

  lemma TransportEndsEffects(c: Core, reason: string)
    ensures
      var c' := TransportEnds(c, reason);
      !c'.flags.open && c'.flags.stop && c'.notices == c.notices + [CloseNotice(reason)]
  {
  }
}
