/** One socket under every interleaving of its threads.  A step is one critical section, or
    one action a thread performs after it dropped the lock; any enabled step may come next.
    The clock only moves forward.  Beside the socket's own fields the state records where
    each thread stands and a history of what has happened. */
module SocketMachine {
  import opened AckScheduler
  import opened SocketCore

  /** The deadline worker.  `Asleep` and `AsleepUntil` mean: waiting, with no notification
      outstanding. */
  datatype Worker =
    | Absent
    | Ready
    | Asleep
    | AsleepUntil(wake: Time)
    | Holds(id: int)        // claimed, lock dropped, expire_ack not yet entered
    | Calling(id: int)      // running a timeout callback

  /** When a thread last held the lock, and whether the socket was connected then. */
  datatype Moment = Moment(at: Time, connected: bool)

  /** Where one call of `flush_send_buffer` stands. */
  datatype Flusher =
    | AtTop
    | Sends(packet: Packet, decided: Moment)
    | Expires(packet: Packet)
    | InCallback(id: int)

  datatype DirectSend = DirectSend(packet: Packet, decided: Moment)

  /** A packet given to the client; `decided` is when the sending thread last held the lock. */
  datatype Handed = Handed(packet: Packet, buffered: bool, decided: Moment)

  datatype Invocation = Invocation(id: int, status: Status, at: Time)

  datatype State = State(
    core: Core,
    now: Time,
    worker: Worker,
    flushers: map<nat, Flusher>,     // the calls of flush_send_buffer that have not returned
    sending: map<nat, DirectSend>,   // emitting threads about to send outside the lock
    ids: map<nat, int>,              // emitting threads that hold an untimed ack id
    running: set<int>,               // timed callbacks being executed
    // history
    flushes: nat,                    // calls of flush_send_buffer so far
    registered: map<int, Time>,      // every timed ack id and its deadline
    untimed: set<int>,               // every untimed ack id
    answered: seq<int>,              // untimed callbacks invoked
    cancelled: set<int>,
    invoked: seq<Invocation>,
    emitted: seq<Packet>,
    handed: seq<Handed>,
    dropped: set<Packet>)

  datatype Step =
    | Tick(elapsed: nat)
    | AllocateId(thread: nat)
    | Emit(thread: nat)
    | TimedEmit(thread: nat, start: Time, timeout: int)
    | DirectSent(thread: nat)
    | WorkerSleeps
    | WorkerSleepsUntil(wake: Time)
    | WorkerWakes
    | WorkerClaims(id: int)
    | WorkerExpires
    | Ack(id: int)
    | FlushLooks(call: nat)
    | FlushActs(call: nat)
    | CallbackReturns(id: int)
    | Cancels
    | Resumes
    | Marked(connected: bool)

  function Init(now: Time): State {
    State(SocketCore.Fresh(), now, Absent, map[], map[], map[], {}, 0, map[], {}, [], {}, [], [], [], {})
  }

  /** `condition.notify_one()` while holding the scheduler's lock. */
  function Notify(w: Worker): Worker {
    if w.Asleep? || w.AsleepUntil? then Ready else w
  }

  predicate HasPacket(f: Flusher) {
    f.Sends? || f.Expires?
  }

  predicate Idle(s: State, thread: nat) {
    thread !in s.sending && thread !in s.ids
  }

  predicate Enabled(s: State, a: Step) {
    match a
    case Tick(_) => true
    case AllocateId(t) => Idle(s, t)
    case Emit(t) => t !in s.sending
    case TimedEmit(t, start, timeout) => Idle(s, t) && start <= s.now && start <= MAX_TIME && timeout > 0
    case DirectSent(t) => t in s.sending
    case WorkerSleeps => s.worker.Ready? && s.core.deadlines == map[]
    case WorkerSleepsUntil(wake) =>
      && s.worker.Ready? && s.now < wake
      && exists id :: id in s.core.deadlines && IsLeast(s.core.deadlines, id) && s.core.deadlines[id] == wake
    case WorkerWakes => s.worker.Asleep? || s.worker.AsleepUntil?
    case WorkerClaims(id) =>
      s.worker.Ready? && IsLeast(s.core.deadlines, id) && s.core.deadlines[id] <= s.now
    case WorkerExpires => s.worker.Holds?
    case Ack(_) => true
    case FlushLooks(f) => f in s.flushers && s.flushers[f].AtTop?
    case FlushActs(f) => f in s.flushers && HasPacket(s.flushers[f])
    case CallbackReturns(id) => id in s.running
    case Cancels => true
    case Resumes => true
    case Marked(_) => true
  }

  function Here(s: State): Moment {
    Moment(s.now, s.core.connected)
  }

  /** Record what an emission decided under the lock. */
  function Submit(s: State, p: Packet, decision: Submission): State {
    match decision
    case Rejected => s
    case Discarded => s.(dropped := s.dropped + {p})
    case Queued => s
    case Direct => s.(sending := s.sending[p.thread := DirectSend(p, Here(s))])
  }

  function ApplyAllocate(s: State, t: nat): State {
    s.(core := AllocateAck(s.core), ids := s.ids[t := s.core.nextId], untimed := s.untimed + {s.core.nextId})
  }

  function ApplyEmit(s: State, t: nat): State {
    var id := if t in s.ids then s.ids[t] else -1;
    var p := Packet(id, t, |s.emitted|);
    var (c, decision) := SendOrBuffer(s.core, p);
    Submit(s.(core := c, ids := s.ids - {t}, emitted := s.emitted + [p]), p, decision)
  }

  function ApplyTimedEmit(s: State, t: nat, start: Time, timeout: int): State
    requires start <= MAX_TIME && timeout > 0
  {
    var deadline := DeadlineFor(start, timeout);
    var p := Packet(s.core.nextId, t, |s.emitted|);
    var (c, decision) := EmitTimed(s.core, p.(id := -1), deadline, s.now);
    if decision.Rejected? then s
    else
      Submit(s.(core := c,
                worker := if s.worker.Absent? then Ready else Notify(s.worker),
                registered := s.registered[p.id := deadline],
                emitted := s.emitted + [p]), p, decision)
  }

  function ApplyDirectSent(s: State, t: nat): State
    requires t in s.sending
  {
    s.(sending := s.sending - {t},
       handed := s.handed + [Handed(s.sending[t].packet, false, s.sending[t].decided)])
  }

  function ApplyClaim(s: State, id: int): State {
    s.(core := Claimed(s.core, id), worker := Holds(id))
  }

  /** The packets a purge of `ids` takes out of the buffer. */
  function Purged(s: State, ids: set<int>): set<Packet> {
    set p | p in s.core.buffer && p.id in ids
  }

  /** The history of a callback leaving `live` to be run. */
  function Invoke(s: State, id: int, status: Status): State {
    s.(running := s.running + {id},
       invoked := s.invoked + [Invocation(id, status, s.now)],
       dropped := s.dropped + Purged(s, {id}))
  }

  function ApplyExpire(s: State, id: int): State {
    var (c, fired) := Expire(s.core, id);
    if fired then Invoke(s, id, Timeout).(core := c) else s
  }

  function ApplyWorkerExpires(s: State): State
    requires s.worker.Holds?
  {
    var id := s.worker.id;
    ApplyExpire(s, id).(worker := if id in s.core.live then Calling(id) else Ready)
  }

  function ApplyAck(s: State, id: int): State {
    var (c, outcome) := DispatchAck(s.core, id, s.now);
    match outcome
    case Unknown => s
    case Untimed => s.(core := c, answered := s.answered + [id])
    case Timed(status) =>
      Invoke(s, id, status).(core := c, worker := if id in s.core.deadlines then Notify(s.worker) else s.worker)
  }

  function ApplyFlushLooks(s: State, f: nat): State {
    var (c, step) := FlushOnce(s.core, s.now);
    s.(core := c,
       flushers := match step
                   case FlushDone => s.flushers - {f}
                   case FlushSend(p) => s.flushers[f := Sends(p, Here(s))]
                   case FlushExpired(p) => s.flushers[f := Expires(p)])
  }

  function ApplyFlushActs(s: State, f: nat): State
    requires f in s.flushers && HasPacket(s.flushers[f])
  {
    var p := s.flushers[f].packet;
    if s.flushers[f].Sends? then
      s.(flushers := s.flushers[f := AtTop], handed := s.handed + [Handed(p, true, s.flushers[f].decided)])
    else
      ApplyExpire(s, p.id).(
        flushers := s.flushers[f := if p.id in s.core.live then InCallback(p.id) else AtTop],
        dropped := s.dropped + Purged(s, if p.id in s.core.live then {p.id} else {}) + {p})
  }

  /** The flushers once the callback `id` has returned. */
  function BackAtTop(flushers: map<nat, Flusher>, id: int): (r: map<nat, Flusher>)
    ensures r.Keys == flushers.Keys
    ensures forall f :: f in r ==> r[f] == if flushers[f] == InCallback(id) then AtTop else flushers[f]
  {
    map f | f in flushers :: if flushers[f] == InCallback(id) then AtTop else flushers[f]
  }

  function ApplyReturn(s: State, id: int): State {
    s.(core := SocketCore.Finish(s.core),
       running := s.running - {id},
       worker := if s.worker == Calling(id) then Ready else s.worker,
       flushers := BackAtTop(s.flushers, id))
  }

  function ApplyCancel(s: State): State {
    s.(core := SocketCore.Cancel(s.core),
       worker := Notify(s.worker),
       cancelled := s.cancelled + s.core.live,
       dropped := s.dropped + Purged(s, s.core.live))
  }

  function ApplyMarked(s: State, connected: bool): State {
    var (c, flush) := MarkConnected(s.core, connected);
    if flush then s.(core := c, flushers := s.flushers[s.flushes := AtTop], flushes := s.flushes + 1)
    else s.(core := c)
  }

  function Apply(s: State, a: Step): State
    requires Enabled(s, a)
  {
    match a
    case Tick(elapsed) => s.(now := s.now + elapsed)
    case AllocateId(t) => ApplyAllocate(s, t)
    case Emit(t) => ApplyEmit(s, t)
    case TimedEmit(t, start, timeout) => ApplyTimedEmit(s, t, start, timeout)
    case DirectSent(t) => ApplyDirectSent(s, t)
    case WorkerSleeps => s.(worker := Asleep)
    case WorkerSleepsUntil(wake) => s.(worker := AsleepUntil(wake))
    case WorkerWakes => s.(worker := Ready)
    case WorkerClaims(id) => ApplyClaim(s, id)
    case WorkerExpires => ApplyWorkerExpires(s)
    case Ack(id) => ApplyAck(s, id)
    case FlushLooks(f) => ApplyFlushLooks(s, f)
    case FlushActs(f) => ApplyFlushActs(s, f)
    case CallbackReturns(id) => ApplyReturn(s, id)
    case Cancels => ApplyCancel(s)
    case Resumes => s.(core := Resume(s.core))
    case Marked(connected) => ApplyMarked(s, connected)
  }

  predicate Runnable(s: State, steps: seq<Step>)
    decreases |steps|
  {
    steps == [] || (Enabled(s, steps[0]) && Runnable(Apply(s, steps[0]), steps[1..]))
  }

  function Run(s: State, steps: seq<Step>): State
    requires Runnable(s, steps)
    decreases |steps|
  {
    if steps == [] then s else Run(Apply(s, steps[0]), steps[1..])
  }

  // ----- The invariant, one concern at a time -----

  predicate Invoked(s: State, id: int) {
    exists i :: 0 <= i < |s.invoked| && s.invoked[i].id == id
  }

  /** Ack ids come from one counter, and every id in use is known to the history. */
  predicate Ids(s: State) {
    && (forall id :: id in s.registered ==> 0 <= id < s.core.nextId)
    && (forall id :: id in s.untimed ==> 0 <= id < s.core.nextId && id !in s.registered)
    && s.core.nextId >= 0
    && s.core.live <= s.registered.Keys
    && s.core.pending <= s.untimed
    && (forall id :: id in s.untimed ==> id in s.core.pending || id in s.answered)
    && (forall id :: id in s.answered ==> id in s.untimed)
    && (forall i :: 0 <= i < |s.answered| ==> s.answered[i] !in s.core.pending)
    && (forall i, j :: 0 <= i < j < |s.answered| ==> s.answered[i] != s.answered[j])
    && (forall id :: id in s.core.deadlines ==> id in s.registered && s.registered[id] == s.core.deadlines[id])
    && (forall t :: t in s.ids ==> s.ids[t] in s.untimed)
  }

  /** Every timed ack is live, cancelled or invoked, in one way only, and invoked once. */
  predicate Fates(s: State) {
    && s.cancelled <= s.registered.Keys
    && s.cancelled !! s.core.live
    && (forall i :: 0 <= i < |s.invoked| ==>
          && s.invoked[i].id in s.registered
          && s.invoked[i].id !in s.core.live
          && s.invoked[i].id !in s.cancelled)
    && (forall i, j :: 0 <= i < j < |s.invoked| ==> s.invoked[i].id != s.invoked[j].id)
    && (forall id :: id in s.registered ==> id in s.core.live || id in s.cancelled || Invoked(s, id))
  }

  predicate Reached(s: State, id: int) {
    id in s.registered && s.registered[id] <= s.now
  }

  /** A live callback is in the deadline map or in the worker's hands, and whatever was
      taken to be expired had reached its deadline. */
  predicate Linked(s: State) {
    && (forall id :: id in s.core.live ==> id in s.core.deadlines || s.worker == Holds(id))
    && (s.worker.Holds? ==> Reached(s, s.worker.id))
    && (forall f :: f in s.flushers && s.flushers[f].Expires? ==> Reached(s, s.flushers[f].packet.id))
  }

  predicate Sound(s: State, v: Invocation) {
    && v.id in s.registered && v.at <= s.now
    && (v.status.Timeout? ==> s.registered[v.id] <= v.at)
    && (v.status.Acknowledged? ==> v.at < s.registered[v.id])
  }

  predicate Outcomes(s: State) {
    forall i :: 0 <= i < |s.invoked| ==> Sound(s, s.invoked[i])
  }

  /** A worker that waits un-notified will wake in time for every deadline. */
  predicate Alarms(s: State) {
    && (s.worker.Asleep? ==> s.core.deadlines == map[])
    && (s.worker.AsleepUntil? ==> forall id :: id in s.core.deadlines ==> s.worker.wake <= s.core.deadlines[id])
    && (s.worker.Absent? ==> s.core.deadlines == map[])
  }

  predicate Counted(s: State) {
    && s.core.active == |s.running|
    && (forall id :: id in s.running ==> Invoked(s, id))
    && (s.worker.Calling? ==> s.worker.id in s.running)
    && (forall f :: f in s.flushers && s.flushers[f].InCallback? ==> s.flushers[f].id in s.running)
  }

  predicate Alone(s: State) {
    forall f, g :: f in s.flushers && g in s.flushers ==> f == g
  }

  /** At most one call is flushing, exactly while the flag is set; without one a connected
      socket has nothing buffered. */
  predicate Flushing(s: State) {
    && (s.core.flushing <==> s.flushers != map[])
    && Alone(s) && (forall f :: f in s.flushers ==> f < s.flushes)
    && (s.core.connected && !s.core.flushing ==> s.core.buffer == [])
  }

  /** What the threads and the logs agree on. */
  predicate Agreed(s: State) {
    Ids(s) && Fates(s) && Linked(s) && Outcomes(s) && Alarms(s) && Counted(s) && Flushing(s)
  }

  // ----- Where packets are -----

  /** A packet is identified by its place in the emission order. */
  predicate Known(s: State, p: Packet) {
    p.tag < |s.emitted| && s.emitted[p.tag] == p
  }

  predicate Held(s: State, p: Packet) {
    exists f :: f in s.flushers && HasPacket(s.flushers[f]) && s.flushers[f].packet == p
  }

  predicate AboutToSend(s: State, p: Packet) {
    p.thread in s.sending && s.sending[p.thread].packet == p
  }

  predicate WasHanded(s: State, p: Packet) {
    exists i :: 0 <= i < |s.handed| && s.handed[i].packet == p
  }

  /** `earlier` went out first, so if both come from one thread, or both went through the
      buffer, it was also emitted first. */
  predicate OutBefore(earlier: Handed, later: Packet, laterBuffered: bool) {
    (earlier.packet.thread == later.thread || (earlier.buffered && laterBuffered)) ==> earlier.packet.tag < later.tag
  }

  predicate Recorded(s: State) {
    && (forall i :: 0 <= i < |s.emitted| ==> s.emitted[i].tag == i && s.emitted[i].id < s.core.nextId)
    && (forall i :: 0 <= i < |s.core.buffer| ==> Known(s, s.core.buffer[i]))
    && (forall i :: 0 <= i < |s.handed| ==> Known(s, s.handed[i].packet))
    && (forall f :: f in s.flushers && HasPacket(s.flushers[f]) ==> Known(s, s.flushers[f].packet))
    && (forall t :: t in s.sending ==> s.sending[t].packet.thread == t && Known(s, s.sending[t].packet))
    && (forall p :: p in s.dropped ==> Known(s, p))
  }

  predicate BufferOrdered(s: State) {
    && Increasing(s.core.buffer)
    && (forall f, i :: f in s.flushers && HasPacket(s.flushers[f]) && 0 <= i < |s.core.buffer| ==>
          s.flushers[f].packet.tag < s.core.buffer[i].tag)
    && (forall t, i :: t in s.sending && 0 <= i < |s.core.buffer| ==> s.core.buffer[i].thread != t)
    && (forall t, f :: t in s.sending && f in s.flushers && HasPacket(s.flushers[f]) ==>
          s.flushers[f].packet.thread != t)
  }

  predicate HandedOrdered(s: State) {
    && (forall i, j :: 0 <= i < j < |s.handed| ==> OutBefore(s.handed[i], s.handed[j].packet, s.handed[j].buffered))
    && (forall i, j :: 0 <= i < |s.handed| && 0 <= j < |s.core.buffer| ==>
          OutBefore(s.handed[i], s.core.buffer[j], true))
    && (forall i, f :: 0 <= i < |s.handed| && f in s.flushers && HasPacket(s.flushers[f]) ==>
          OutBefore(s.handed[i], s.flushers[f].packet, true))
    && (forall i, t :: 0 <= i < |s.handed| && t in s.sending ==> OutBefore(s.handed[i], s.sending[t].packet, false))
  }

  predicate Placed(s: State, p: Packet) {
    p in s.core.buffer || Held(s, p) || AboutToSend(s, p) || WasHanded(s, p) || p in s.dropped
  }

  /** No emission is lost, and a dropped one is nowhere else. */
  predicate Conserved(s: State) {
    && (forall i :: 0 <= i < |s.emitted| ==> Placed(s, s.emitted[i]))
    && (forall p :: p in s.dropped ==> p !in s.core.buffer && !Held(s, p) && !AboutToSend(s, p))
    && (forall i :: 0 <= i < |s.handed| ==> s.handed[i].packet !in s.dropped)
  }

  /** Only timed emissions are dropped, and one whose callback is still live is overdue.  A
      timed packet waits in the buffer only while its callback is live. */
  predicate DropsJustified(s: State) {
    && (forall p :: p in s.dropped ==> p.id in s.registered && (p.id in s.core.live ==> Reached(s, p.id)))
    && (forall i :: 0 <= i < |s.core.buffer| ==>
          s.core.buffer[i].id in s.registered ==> s.core.buffer[i].id in s.core.live)
  }

  predicate InTime(s: State, p: Packet, decided: Moment) {
    decided.connected && (p.id in s.registered ==> decided.at < s.registered[p.id])
  }

  /** Nothing is sent that was decided while disconnected, or once its deadline had been seen
      to pass. */
  predicate Timely(s: State) {
    && (forall i :: 0 <= i < |s.handed| ==> InTime(s, s.handed[i].packet, s.handed[i].decided))
    && (forall f :: f in s.flushers && s.flushers[f].Sends? ==>
          InTime(s, s.flushers[f].packet, s.flushers[f].decided))
    && (forall t :: t in s.sending ==> InTime(s, s.sending[t].packet, s.sending[t].decided))
  }

  predicate Delivered(s: State) {
    Recorded(s) && BufferOrdered(s) && HandedOrdered(s) && Conserved(s) && DropsJustified(s) && Timely(s)
  }

  predicate Inv(s: State) {
    Agreed(s) && Delivered(s)
  }
}
