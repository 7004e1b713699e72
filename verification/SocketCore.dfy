/** The fields a socket keeps under its mutex and the effect of each critical section on
    them.  The scheduler's deadline map is part of the value because every access to it
    from the socket happens inside one of these sections; the worker's own access is the
    separate section `Claimed`. */
module SocketCore {
  import opened AckScheduler

  /** A queued event.  `id` is the ack id or -1.  `thread` and `tag` name the emission: the
      socket never looks at the payload, so its identity stands for it. */
  datatype Packet = Packet(id: int, thread: nat, tag: nat)

  datatype Status = Acknowledged | Timeout

  /** What an emission decided while it held the lock. */
  datatype Submission =
    | Rejected     // timed emission after shutdown: std::logic_error
    | Discarded    // the deadline passed before the packet could be queued
    | Queued
    | Direct       // to be sent by the caller after it drops the lock

  datatype FlushStep =
    | FlushDone
    | FlushSend(packet: Packet)
    | FlushExpired(packet: Packet)

  datatype AckOutcome =
    | Unknown
    | Untimed
    | Timed(status: Status)

  datatype Core = Core(
    connected: bool,
    flushing: bool,
    closed: bool,
    nextId: int,
    live: set<int>,        // keys of timed_acks_
    pending: set<int>,     // keys of pending_acks_
    buffer: seq<Packet>,
    active: int,
    deadlines: map<int, Time>)

  function Fresh(): Core {
    Core(false, false, false, 0, {}, {}, [], 0, map[])
  }

  /** `send_buffer_` after `erase(remove_if(...))` over the packets with an id in `ids`. */
  function Purge(buffer: seq<Packet>, ids: set<int>): (r: seq<Packet>)
    ensures |r| <= |buffer|
  {
    if buffer == [] then []
    else if buffer[0].id in ids then Purge(buffer[1..], ids)
    else [buffer[0]] + Purge(buffer[1..], ids)
  }

  /** A purged buffer keeps exactly the other packets, in their order. */
  lemma {:induction false} PurgeKeepsOthers(buffer: seq<Packet>, ids: set<int>)
    ensures forall p :: p in Purge(buffer, ids) <==> p in buffer && p.id !in ids
  {
    if buffer != [] {
      PurgeKeepsOthers(buffer[1..], ids);
      assert buffer == [buffer[0]] + buffer[1..];
    }
  }

  predicate Increasing(buffer: seq<Packet>) {
    forall i, j :: 0 <= i < j < |buffer| ==> buffer[i].tag < buffer[j].tag
  }

  lemma {:induction false} PurgeKeepsOrder(buffer: seq<Packet>, ids: set<int>)
    requires Increasing(buffer)
    ensures Increasing(Purge(buffer, ids))
  {
    if buffer != [] {
      PurgeKeepsOrder(buffer[1..], ids);
      PurgeKeepsOthers(buffer[1..], ids);
      var r := Purge(buffer[1..], ids);
      forall j | 0 <= j < |r|
        ensures buffer[0].tag < r[j].tag
      {
        assert r[j] in buffer[1..];
      }
    }
  }

  const MAX_TIME: Time := 0x7fff_ffff_ffff_ffff
  const NANOS_PER_MILLI := 1_000_000

  /** Deadline of a timed emission that read the clock at `start`, in nanoseconds: clamped
      to the end of the clock's range instead of overflowing it. */
  function DeadlineFor(start: Time, timeoutMillis: int): (d: Time)
    requires start <= MAX_TIME && timeoutMillis > 0
    ensures start <= d <= MAX_TIME
    ensures d == MAX_TIME || d == start + timeoutMillis * NANOS_PER_MILLI
    ensures start + (timeoutMillis + 1) * NANOS_PER_MILLI <= MAX_TIME ==> d == start + timeoutMillis * NANOS_PER_MILLI
    ensures start + (timeoutMillis + 1) * NANOS_PER_MILLI > MAX_TIME ==> d == MAX_TIME
  {
    var remaining := (MAX_TIME - start) / NANOS_PER_MILLI;
    if timeoutMillis >= remaining then MAX_TIME else start + timeoutMillis * NANOS_PER_MILLI
  }

  /** `ack_scheduler::expired` and the result of `remove`: a missing id counts as expired. */
  predicate Expired(c: Core, id: int, now: Time) {
    id in c.deadlines ==> c.deadlines[id] <= now
  }

  /** First section of an emission with an untimed callback; the id is the old `nextId`. */
  function AllocateAck(c: Core): Core {
    c.(nextId := c.nextId + 1, pending := c.pending + {c.nextId})
  }

  function SendOrBuffer(c: Core, p: Packet): (Core, Submission) {
    if !c.connected || c.flushing then (c.(buffer := c.buffer + [p]), Queued) else (c, Direct)
  }

  /** Timed emission; `p.id` is ignored and replaced by the id allocated here. */
  function EmitTimed(c: Core, p: Packet, deadline: Time, now: Time): (Core, Submission) {
    if c.closed then (c, Rejected)
    else
      var id := c.nextId;
      var c1 := c.(nextId := id + 1, live := c.live + {id}, deadlines := c.deadlines[id := deadline]);
      if Expired(c1, id, now) then (c1, Discarded) else SendOrBuffer(c1, p.(id := id))
  }

  /** `expire_ack`: true when the callback was still live and is now the caller's to run. */
  function Expire(c: Core, id: int): (Core, bool) {
    if id !in c.live then (c, false)
    else (c.(live := c.live - {id}, active := c.active + 1, buffer := Purge(c.buffer, {id})), true)
  }

  function DispatchAck(c: Core, id: int, now: Time): (Core, AckOutcome) {
    if id in c.live then
      (c.(live := c.live - {id}, active := c.active + 1, buffer := Purge(c.buffer, {id}),
          deadlines := c.deadlines - {id}),
       Timed(if Expired(c, id, now) then Timeout else Acknowledged))
    else if id in c.pending then (c.(pending := c.pending - {id}), Untimed)
    else (c, Unknown)
  }

  /** One pass of the flush loop. */
  function FlushOnce(c: Core, now: Time): (Core, FlushStep) {
    if !c.connected || c.buffer == [] then (c.(flushing := false), FlushDone)
    else
      var p := c.buffer[0];
      (c.(buffer := c.buffer[1..]),
       if p.id in c.live && Expired(c, p.id, now) then FlushExpired(p) else FlushSend(p))
  }

  function Cancel(c: Core): (r: Core)
    ensures r.connected == c.connected
  {
    c.(closed := true, deadlines := map[], buffer := Purge(c.buffer, c.live), live := {})
  }

  /** Rejects timed emissions and has no callback left to invoke. */
  predicate Refusing(c: Core) {
    c.closed && c.live == {}
  }

  function Resume(c: Core): Core {
    c.(closed := false)
  }

  function Finish(c: Core): Core {
    c.(active := c.active - 1)
  }

  /** True when the caller must run the flush loop. */
  function MarkConnected(c: Core, connected: bool): (Core, bool) {
    if connected && !c.connected && !c.flushing then (c.(connected := true, flushing := true), true)
    else (c.(connected := connected), false)
  }

  /** The worker takes the least entry out of the deadline map. */
  function Claimed(c: Core, id: int): Core {
    c.(deadlines := c.deadlines - {id})
  }
}
