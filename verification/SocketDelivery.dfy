/** What every step keeps of the send buffer: order, conservation, and what may be dropped. */
module SocketDelivery {
  import opened AckScheduler
  import opened SocketCore
  import opened SocketMachine

  // ----- Steps that move no packet -----

  predicate SamePackets(s: State, s': State) {
    && s'.core.buffer == s.core.buffer && s'.sending == s.sending && s'.handed == s.handed
    && s'.dropped == s.dropped && s'.emitted == s.emitted && s'.registered == s.registered
    && s'.core.live == s.core.live && s'.core.nextId >= s.core.nextId && s'.now >= s.now
    && SameHeld(s.flushers, s'.flushers)
  }

  /** The same flushers hold the same packets. */
  predicate SameHeld(a: map<nat, Flusher>, b: map<nat, Flusher>) {
    && (forall f :: f in a && HasPacket(a[f]) ==> f in b && b[f] == a[f])
    && (forall f :: f in b && HasPacket(b[f]) ==> f in a && b[f] == a[f])
  }

  predicate NoneHeld(flushers: map<nat, Flusher>) {
    forall f :: f in flushers ==> !HasPacket(flushers[f])
  }

  lemma HeldKept(s: State, s': State, p: Packet)
    requires SameHeld(s.flushers, s'.flushers) && Held(s, p)
    ensures Held(s', p)
  {
    var f :| f in s.flushers && HasPacket(s.flushers[f]) && s.flushers[f].packet == p;
    assert f in s'.flushers && s'.flushers[f] == s.flushers[f];
  }

  lemma SameHeldKeepsHeld(s: State, s': State)
    requires SameHeld(s.flushers, s'.flushers)
    ensures forall p :: Held(s, p) <==> Held(s', p)
  {
    forall p | Held(s, p)
      ensures Held(s', p)
    {
      HeldKept(s, s', p);
    }
    forall p | Held(s', p)
      ensures Held(s, p)
    {
      HeldKept(s', s, p);
    }
  }

  lemma SamePacketsKeepsOrder(s: State, s': State)
    requires Recorded(s) && BufferOrdered(s) && HandedOrdered(s) && SamePackets(s, s')
    ensures Recorded(s') && BufferOrdered(s') && HandedOrdered(s')
  {
  }

  lemma SamePacketsKeepsConserved(s: State, s': State)
    requires Conserved(s) && SamePackets(s, s')
    ensures Conserved(s')
  {
    SameHeldKeepsHeld(s, s');
    hide Held, SameHeld;
    assert forall p :: WasHanded(s, p) ==> WasHanded(s', p);
    forall i | 0 <= i < |s.emitted|
      ensures Placed(s', s'.emitted[i])
    {
      assert Placed(s, s.emitted[i]);
    }
  }

  lemma SamePacketsKeepsDrops(s: State, s': State)
    requires DropsJustified(s) && Timely(s) && SamePackets(s, s')
    ensures DropsJustified(s') && Timely(s')
  {
  }

  lemma SamePacketsKept(s: State, s': State)
    requires Delivered(s) && SamePackets(s, s')
    ensures Delivered(s')
  {
    hide Recorded, BufferOrdered, HandedOrdered, Conserved, DropsJustified, Timely, SamePackets;
    SamePacketsKeepsOrder(s, s');
    SamePacketsKeepsConserved(s, s');
    SamePacketsKeepsDrops(s, s');
  }

  // ----- Emissions -----

  /** A new packet `p`, queued, discarded or taken by its thread; `deadline` is set when it
      is timed. */
  predicate Emits(s: State, s': State, p: Packet, decision: Submission, timed: bool, deadline: Time) {
    && p.tag == |s.emitted| && s'.emitted == s.emitted + [p] && p.thread !in s.sending
    && s.core.nextId <= s'.core.nextId && p.id < s'.core.nextId
    && s'.registered == (if timed then s.registered[p.id := deadline] else s.registered)
    && s'.core.live == (if timed then s.core.live + {p.id} else s.core.live)
    && (timed ==> p.id == s.core.nextId) && (!timed ==> p.id !in s.registered)
    && s'.flushers == s.flushers && s'.handed == s.handed && s'.now == s.now
    && s'.core.buffer == (if decision.Queued? then s.core.buffer + [p] else s.core.buffer)
    && s'.dropped == (if decision.Discarded? then s.dropped + {p} else s.dropped)
    && s'.sending == (if decision.Direct? then s.sending[p.thread := DirectSend(p, Here(s))] else s.sending)
    && !decision.Rejected?
    && (decision.Direct? ==>
          s.core.connected && s.core.buffer == [] && NoneHeld(s.flushers) && (timed ==> s.now < deadline))
    && (decision.Discarded? ==> timed && deadline <= s.now)
  }

  lemma EmitIsEmits(s: State, t: nat)
    requires Ids(s) && Flushing(s) && t !in s.sending
    ensures
      var p := Packet(if t in s.ids then s.ids[t] else -1, t, |s.emitted|);
      Emits(s, ApplyEmit(s, t), p, SendOrBuffer(s.core, p).1, false, 0)
  {
  }

  lemma TimedEmitIsEmits(s: State, t: nat, start: Time, timeout: int)
    requires Ids(s) && Flushing(s) && t !in s.sending && start <= MAX_TIME && timeout > 0 && !s.core.closed
    ensures
      var p := Packet(s.core.nextId, t, |s.emitted|);
      var deadline := DeadlineFor(start, timeout);
      var decision := EmitTimed(s.core, p.(id := -1), deadline, s.now).1;
      Emits(s, ApplyTimedEmit(s, t, start, timeout), p, decision, true, deadline)
  {
  }

  lemma KnownGrows(s: State, s': State, p: Packet)
    requires s'.emitted == s.emitted + [p] && p.tag == |s.emitted|
    ensures forall q :: Known(s, q) ==> Known(s', q)
    ensures Known(s', p)
  {
  }

  lemma EmitsKeepsRecorded(s: State, s': State, p: Packet, decision: Submission, timed: bool, deadline: Time)
    requires Recorded(s) && Emits(s, s', p, decision, timed, deadline)
    ensures Recorded(s')
  {
    KnownGrows(s, s', p);
    hide Known, NoneHeld;
  }

  lemma EmitsKeepsBufferOrder(s: State, s': State, p: Packet, decision: Submission, timed: bool, deadline: Time)
    requires Recorded(s) && BufferOrdered(s) && Emits(s, s', p, decision, timed, deadline)
    ensures BufferOrdered(s')
  {
  }

  lemma EmitsKeepsHandedOrder(s: State, s': State, p: Packet, decision: Submission, timed: bool, deadline: Time)
    requires Recorded(s) && HandedOrdered(s) && Emits(s, s', p, decision, timed, deadline)
    ensures HandedOrdered(s')
  {
  }

  lemma EmitsKeepsConserved(s: State, s': State, p: Packet, decision: Submission, timed: bool, deadline: Time)
    requires Recorded(s) && Conserved(s) && Emits(s, s', p, decision, timed, deadline)
    ensures Conserved(s')
  {
    assert forall q :: WasHanded(s, q) ==> WasHanded(s', q);
    forall i | 0 <= i < |s'.emitted|
      ensures Placed(s', s'.emitted[i])
    {
      if i < |s.emitted| {
        assert Placed(s, s.emitted[i]);
      } else {
        assert s'.emitted[i] == p;
        assert decision.Queued? ==> s'.core.buffer[|s.core.buffer|] == p;
      }
    }
  }

  lemma EmitsKeepsDrops(s: State, s': State, p: Packet, decision: Submission, timed: bool, deadline: Time)
    requires Ids(s) && Recorded(s) && DropsJustified(s) && Emits(s, s', p, decision, timed, deadline)
    ensures DropsJustified(s')
  {
    assert forall q :: Known(s, q) ==> q.id < s.core.nextId;
    hide Known, NoneHeld;
  }

  lemma EmitsKeepsTimely(s: State, s': State, p: Packet, decision: Submission, timed: bool, deadline: Time)
    requires Ids(s) && Recorded(s) && Timely(s) && Emits(s, s', p, decision, timed, deadline)
    ensures Timely(s')
  {
    assert forall q :: Known(s, q) ==> q.id < s.core.nextId;
    hide Known, NoneHeld;
  }

  lemma EmitsKeepsDelivered(s: State, s': State, p: Packet, decision: Submission, timed: bool, deadline: Time)
    requires Ids(s) && Delivered(s) && Emits(s, s', p, decision, timed, deadline)
    ensures Delivered(s')
  {
    hide Recorded, BufferOrdered, HandedOrdered, Conserved, DropsJustified, Timely, Emits;
    EmitsKeepsRecorded(s, s', p, decision, timed, deadline);
    EmitsKeepsBufferOrder(s, s', p, decision, timed, deadline);
    EmitsKeepsHandedOrder(s, s', p, decision, timed, deadline);
    EmitsKeepsConserved(s, s', p, decision, timed, deadline);
    EmitsKeepsDrops(s, s', p, decision, timed, deadline);
    EmitsKeepsTimely(s, s', p, decision, timed, deadline);
  }

  // ----- Purges -----

  /** The packets with an id in `ids` leave the buffer because those callbacks stop being
      live; `extra` is the packet a flusher gives up at the same time. */
  predicate Purges(s: State, s': State, ids: set<int>, extra: set<Packet>) {
    && ids <= s.core.live && s'.core.live == s.core.live - ids
    && s'.core.buffer == Purge(s.core.buffer, ids)
    && s'.dropped == s.dropped + Purged(s, ids) + extra
    && s'.sending == s.sending && s'.handed == s.handed && s'.emitted == s.emitted
    && s'.registered == s.registered && s'.core.nextId == s.core.nextId && s'.now == s.now
    && (if extra == {} then s'.flushers == s.flushers
        else
          && Alone(s) && NoneHeld(s'.flushers)
          && exists f :: f in s.flushers && s.flushers[f].Expires? && extra == {s.flushers[f].packet})
  }

  /** Every packet of the first buffer was in the second. */
  predicate Within(buffer: seq<Packet>, larger: seq<Packet>) {
    forall j :: 0 <= j < |buffer| ==> exists k :: 0 <= k < |larger| && larger[k] == buffer[j]
  }

  lemma PurgeWithin(buffer: seq<Packet>, ids: set<int>)
    ensures Within(Purge(buffer, ids), buffer)
  {
    PurgeKeepsOthers(buffer, ids);
    forall j | 0 <= j < |Purge(buffer, ids)|
      ensures exists k :: 0 <= k < |buffer| && buffer[k] == Purge(buffer, ids)[j]
    {
      assert Purge(buffer, ids)[j] in buffer;
    }
  }

  lemma PurgesKeepsRecorded(s: State, s': State, ids: set<int>, extra: set<Packet>)
    requires Recorded(s) && Purges(s, s', ids, extra)
    ensures Recorded(s')
  {
    PurgeWithin(s.core.buffer, ids);
  }

  lemma PurgesKeepsOrder(s: State, s': State, ids: set<int>, extra: set<Packet>)
    requires BufferOrdered(s) && HandedOrdered(s) && Purges(s, s', ids, extra)
    ensures BufferOrdered(s') && HandedOrdered(s')
  {
    PurgeWithin(s.core.buffer, ids);
    PurgeKeepsOrder(s.core.buffer, ids);
  }

  lemma HandedIsGone(s: State, i: nat)
    requires BufferOrdered(s) && HandedOrdered(s) && i < |s.handed|
    ensures s.handed[i].packet !in s.core.buffer && !Held(s, s.handed[i].packet)
  {
    assert forall j :: 0 <= j < |s.core.buffer| ==> OutBefore(s.handed[i], s.core.buffer[j], true);
  }

  lemma PurgesPlaces(s: State, s': State, ids: set<int>, extra: set<Packet>, p: Packet)
    requires Purges(s, s', ids, extra) && Placed(s, p)
    ensures Placed(s', p)
  {
    PurgeKeepsOthers(s.core.buffer, ids);
    assert WasHanded(s, p) ==> WasHanded(s', p);
  }

  lemma PurgesKeepsConserved(s: State, s': State, ids: set<int>, extra: set<Packet>)
    requires Recorded(s) && BufferOrdered(s) && HandedOrdered(s) && Conserved(s) && Purges(s, s', ids, extra)
    ensures Conserved(s')
  {
    forall i | 0 <= i < |s'.emitted|
      ensures Placed(s', s'.emitted[i])
    {
      PurgesPlaces(s, s', ids, extra, s.emitted[i]);
    }
    forall i | 0 <= i < |s.handed|
      ensures s.handed[i].packet !in s.core.buffer && !Held(s, s.handed[i].packet)
    {
      HandedIsGone(s, i);
    }
    PurgeKeepsOthers(s.core.buffer, ids);
    hide HandedOrdered, Purge;
  }

  lemma PurgesKeepsDrops(s: State, s': State, ids: set<int>, extra: set<Packet>)
    requires Ids(s) && Linked(s) && DropsJustified(s) && Timely(s) && Purges(s, s', ids, extra)
    ensures DropsJustified(s') && Timely(s')
  {
    PurgeKeepsOthers(s.core.buffer, ids);
    forall j | 0 <= j < |s'.core.buffer|
      ensures s'.core.buffer[j].id in s.registered ==> s'.core.buffer[j].id in s'.core.live
    {
      assert s'.core.buffer[j] in s.core.buffer;
    }
  }

  lemma PurgesKeepsDelivered(s: State, s': State, ids: set<int>, extra: set<Packet>)
    requires Ids(s) && Linked(s) && Delivered(s) && Purges(s, s', ids, extra)
    ensures Delivered(s')
  {
    hide Recorded, BufferOrdered, HandedOrdered, Conserved, DropsJustified, Timely, Purges;
    PurgesKeepsRecorded(s, s', ids, extra);
    PurgesKeepsOrder(s, s', ids, extra);
    PurgesKeepsConserved(s, s', ids, extra);
    PurgesKeepsDrops(s, s', ids, extra);
  }

  lemma {:induction false} PurgeNothing(buffer: seq<Packet>)
    ensures Purge(buffer, {}) == buffer
  {
    if buffer != [] {
      PurgeNothing(buffer[1..]);
      assert buffer == [buffer[0]] + buffer[1..];
    }
  }

  // ----- Packets that go out -----

  predicate HandsOver(s: State, s': State, h: Handed) {
    && s'.handed == s.handed + [h]
    && s'.core == s.core && s'.dropped == s.dropped && s'.emitted == s.emitted
    && s'.registered == s.registered && s'.now == s.now
  }

  lemma HandsOverPlaces(s: State, s': State, h: Handed)
    requires HandsOver(s, s', h)
    ensures forall p :: WasHanded(s, p) ==> WasHanded(s', p)
    ensures WasHanded(s', h.packet)
  {
    forall p | WasHanded(s, p)
      ensures WasHanded(s', p)
    {
      var i :| 0 <= i < |s.handed| && s.handed[i].packet == p;
      assert s'.handed[i].packet == p;
    }
    assert s'.handed[|s.handed|].packet == h.packet;
  }

  lemma FlushSendKeepsRecorded(s: State, f: nat)
    requires Alone(s) && Recorded(s) && f in s.flushers && s.flushers[f].Sends?
    ensures Recorded(ApplyFlushActs(s, f))
  {
  }

  lemma FlushSendKeepsBufferOrder(s: State, f: nat)
    requires Alone(s) && Recorded(s) && BufferOrdered(s) && f in s.flushers && s.flushers[f].Sends?
    ensures BufferOrdered(ApplyFlushActs(s, f))
  {
  }

  lemma FlushSendKeepsHandedOrder(s: State, f: nat)
    requires Alone(s) && Recorded(s) && BufferOrdered(s) && HandedOrdered(s) && f in s.flushers && s.flushers[f].Sends?
    ensures HandedOrdered(ApplyFlushActs(s, f))
  {
    hide Known;
  }

  lemma FlushSendKeepsConserved(s: State, f: nat)
    requires Alone(s) && Recorded(s) && HandedOrdered(s) && Conserved(s) && f in s.flushers && s.flushers[f].Sends?
    ensures Conserved(ApplyFlushActs(s, f))
  {
    var s' := ApplyFlushActs(s, f);
    HandsOverPlaces(s, s', Handed(s.flushers[f].packet, true, s.flushers[f].decided));
    assert Held(s, s.flushers[f].packet);
    forall i | 0 <= i < |s.emitted|
      ensures Placed(s', s'.emitted[i])
    {
      assert Placed(s, s.emitted[i]);
    }
  }

  lemma FlushSendKeepsDrops(s: State, f: nat)
    requires Alone(s) && DropsJustified(s) && Timely(s) && f in s.flushers && s.flushers[f].Sends?
    ensures
      var s' := ApplyFlushActs(s, f);
      DropsJustified(s') && Timely(s')
  {
  }

  lemma FlushSendKeepsDelivered(s: State, f: nat)
    requires Alone(s) && Delivered(s) && f in s.flushers && s.flushers[f].Sends?
    ensures Delivered(ApplyFlushActs(s, f))
  {
    hide Recorded, BufferOrdered, HandedOrdered, Conserved, DropsJustified, Timely, ApplyFlushActs;
    FlushSendKeepsRecorded(s, f);
    FlushSendKeepsBufferOrder(s, f);
    FlushSendKeepsHandedOrder(s, f);
    FlushSendKeepsConserved(s, f);
    FlushSendKeepsDrops(s, f);
  }

  lemma DirectSentKeepsRecorded(s: State, t: nat)
    requires Recorded(s) && t in s.sending
    ensures Recorded(ApplyDirectSent(s, t))
  {
  }

  lemma DirectSentKeepsBufferOrder(s: State, t: nat)
    requires Recorded(s) && BufferOrdered(s) && t in s.sending
    ensures BufferOrdered(ApplyDirectSent(s, t))
  {
  }

  lemma DirectSentKeepsHandedOrder(s: State, t: nat)
    requires Recorded(s) && BufferOrdered(s) && HandedOrdered(s) && t in s.sending
    ensures HandedOrdered(ApplyDirectSent(s, t))
  {
    hide Known;
  }

  lemma DirectSentKeepsConserved(s: State, t: nat)
    requires Recorded(s) && HandedOrdered(s) && Conserved(s) && t in s.sending
    ensures Conserved(ApplyDirectSent(s, t))
  {
    var s' := ApplyDirectSent(s, t);
    SameHeldKeepsHeld(s, s');
    HandsOverPlaces(s, s', Handed(s.sending[t].packet, false, s.sending[t].decided));
    hide Held;
    assert AboutToSend(s, s.sending[t].packet);
    forall i | 0 <= i < |s.emitted|
      ensures Placed(s', s'.emitted[i])
    {
      assert Placed(s, s.emitted[i]);
    }
  }

  lemma DirectSentKeepsDrops(s: State, t: nat)
    requires DropsJustified(s) && Timely(s) && t in s.sending
    ensures
      var s' := ApplyDirectSent(s, t);
      DropsJustified(s') && Timely(s')
  {
  }

  lemma DirectSentKeepsDelivered(s: State, t: nat)
    requires Delivered(s) && t in s.sending
    ensures Delivered(ApplyDirectSent(s, t))
  {
    hide Recorded, BufferOrdered, HandedOrdered, Conserved, DropsJustified, Timely, ApplyDirectSent;
    DirectSentKeepsRecorded(s, t);
    DirectSentKeepsBufferOrder(s, t);
    DirectSentKeepsHandedOrder(s, t);
    DirectSentKeepsConserved(s, t);
    DirectSentKeepsDrops(s, t);
  }

  /** The flusher takes the oldest packet. */
  predicate Pops(s: State, s': State, f: nat) {
    && Alone(s) && f in s.flushers && s.flushers[f].AtTop? && s.core.buffer != []
    && f in s'.flushers && s'.flushers == s.flushers[f := s'.flushers[f]] && HasPacket(s'.flushers[f])
    && s'.flushers[f].packet == s.core.buffer[0] && s'.core.buffer == s.core.buffer[1..]
    && s'.sending == s.sending && s'.handed == s.handed && s'.dropped == s.dropped && s'.emitted == s.emitted
    && s'.registered == s.registered && s'.core.live == s.core.live && s'.core.nextId == s.core.nextId
    && s'.now == s.now
    && (s'.flushers[f].Sends? ==> InTime(s', s'.flushers[f].packet, s'.flushers[f].decided))
  }

  lemma PopsKeepsRecorded(s: State, s': State, f: nat)
    requires Recorded(s) && Pops(s, s', f)
    ensures Recorded(s')
  {
  }

  lemma PopsKeepsOrder(s: State, s': State, f: nat)
    requires BufferOrdered(s) && HandedOrdered(s) && Pops(s, s', f)
    ensures BufferOrdered(s') && HandedOrdered(s')
  {
    hide InTime;
  }

  lemma PopsKeepsConserved(s: State, s': State, f: nat)
    requires Recorded(s) && BufferOrdered(s) && Conserved(s) && Pops(s, s', f)
    ensures Conserved(s')
  {
    assert s.core.buffer == [s.core.buffer[0]] + s.core.buffer[1..];
    assert forall p :: WasHanded(s, p) ==> WasHanded(s', p);
    forall i | 0 <= i < |s.emitted|
      ensures Placed(s', s'.emitted[i])
    {
      assert Placed(s, s.emitted[i]);
    }
  }

  lemma PopsKeepsDrops(s: State, s': State, f: nat)
    requires DropsJustified(s) && Timely(s) && Pops(s, s', f)
    ensures DropsJustified(s') && Timely(s')
  {
  }

  lemma FlushLooksPops(s: State, f: nat)
    requires Ids(s) && Linked(s) && DropsJustified(s) && Alone(s) && f in s.flushers && s.flushers[f].AtTop?
    ensures
      var s' := ApplyFlushLooks(s, f);
      if f in s'.flushers then Pops(s, s', f) else SamePackets(s, s')
  {
  }

  lemma FlushLooksKeepsDelivered(s: State, f: nat)
    requires Ids(s) && Linked(s) && Alone(s) && Delivered(s) && f in s.flushers && s.flushers[f].AtTop?
    ensures Delivered(ApplyFlushLooks(s, f))
  {
    hide Recorded, BufferOrdered, HandedOrdered, Conserved, DropsJustified, Timely, ApplyFlushLooks, Pops, SamePackets;
    var s' := ApplyFlushLooks(s, f);
    FlushLooksPops(s, f);
    if f in s'.flushers {
      PopsKeepsRecorded(s, s', f);
      PopsKeepsOrder(s, s', f);
      PopsKeepsConserved(s, s', f);
      PopsKeepsDrops(s, s', f);
    } else {
      SamePacketsKept(s, s');
    }
  }

  // ----- All steps -----

  lemma FlushActsKeepsDelivered(s: State, f: nat)
    requires Ids(s) && Linked(s) && Alone(s) && Delivered(s) && f in s.flushers && HasPacket(s.flushers[f])
    ensures Delivered(ApplyFlushActs(s, f))
  {
    hide Delivered;
    if s.flushers[f].Sends? {
      FlushSendKeepsDelivered(s, f);
    } else {
      var p := s.flushers[f].packet;
      PurgeNothing(s.core.buffer);
      PurgesKeepsDelivered(s, ApplyFlushActs(s, f), if p.id in s.core.live then {p.id} else {}, {p});
    }
  }

  lemma WorkerExpiresKeepsDelivered(s: State)
    requires Ids(s) && Linked(s) && Delivered(s) && s.worker.Holds?
    ensures Delivered(ApplyWorkerExpires(s))
  {
    hide Delivered;
    var s' := ApplyWorkerExpires(s);
    if s.worker.id in s.core.live {
      assert Purges(s, s', {s.worker.id}, {});
      PurgesKeepsDelivered(s, s', {s.worker.id}, {});
    } else {
      SamePacketsKept(s, s');
    }
  }

  lemma AckPurges(s: State, id: int)
    ensures
      var s' := ApplyAck(s, id);
      if id in s.core.live then Purges(s, s', {id}, {}) else SamePackets(s, s')
  {
    hide Purge, Notify, Purged, HasPacket;
  }

  lemma AckKeepsDelivered(s: State, id: int)
    requires Ids(s) && Linked(s) && Delivered(s)
    ensures Delivered(ApplyAck(s, id))
  {
    hide Delivered, ApplyAck, Purges, SamePackets, Ids, Linked;
    AckPurges(s, id);
    if id in s.core.live {
      PurgesKeepsDelivered(s, ApplyAck(s, id), {id}, {});
    } else {
      SamePacketsKept(s, ApplyAck(s, id));
    }
  }

  lemma CancelKeepsDelivered(s: State)
    requires Ids(s) && Linked(s) && Delivered(s)
    ensures Delivered(ApplyCancel(s))
  {
    hide Delivered;
    assert Purges(s, ApplyCancel(s), s.core.live, {});
    PurgesKeepsDelivered(s, ApplyCancel(s), s.core.live, {});
  }

  lemma EmissionKeepsDelivered(s: State, a: Step)
    requires Agreed(s) && Delivered(s) && Enabled(s, a)
    requires a.Emit? || a.TimedEmit?
    ensures Delivered(Apply(s, a))
  {
    hide Delivered;
    if a.Emit? {
      EmitIsEmits(s, a.thread);
      var p := Packet(if a.thread in s.ids then s.ids[a.thread] else -1, a.thread, |s.emitted|);
      EmitsKeepsDelivered(s, ApplyEmit(s, a.thread), p, SendOrBuffer(s.core, p).1, false, 0);
    } else if !s.core.closed {
      TimedEmitIsEmits(s, a.thread, a.start, a.timeout);
      var p := Packet(s.core.nextId, a.thread, |s.emitted|);
      var deadline := DeadlineFor(a.start, a.timeout);
      EmitsKeepsDelivered(s, ApplyTimedEmit(s, a.thread, a.start, a.timeout), p,
                          EmitTimed(s.core, p.(id := -1), deadline, s.now).1, true, deadline);
    }
  }

  predicate WorkerOnly(a: Step) {
    a.WorkerSleeps? || a.WorkerSleepsUntil? || a.WorkerWakes? || a.WorkerClaims? || a.Tick?
  }

  lemma WorkerOnlySame(s: State, a: Step)
    requires Enabled(s, a) && WorkerOnly(a)
    ensures SamePackets(s, Apply(s, a))
  {
    hide HasPacket;
  }

  predicate SocketOnly(a: Step) {
    a.AllocateId? || a.CallbackReturns? || a.Resumes? || a.Marked?
  }

  lemma SocketOnlySame(s: State, a: Step)
    requires Flushing(s) && Enabled(s, a) && SocketOnly(a)
    ensures SamePackets(s, Apply(s, a))
  {
  }

  lemma OtherStepKeepsDelivered(s: State, a: Step)
    requires Flushing(s) && Delivered(s) && Enabled(s, a) && (WorkerOnly(a) || SocketOnly(a))
    ensures Delivered(Apply(s, a))
  {
    hide Delivered, Apply, SamePackets, Flushing;
    if WorkerOnly(a) {
      WorkerOnlySame(s, a);
    } else {
      SocketOnlySame(s, a);
    }
    SamePacketsKept(s, Apply(s, a));
  }

  lemma DeliveredKept(s: State, a: Step)
    requires Agreed(s) && Delivered(s) && Enabled(s, a)
    ensures Delivered(Apply(s, a))
  {
    hide Delivered;
    match a {
      case Emit(_) => EmissionKeepsDelivered(s, a);
      case TimedEmit(_, _, _) => EmissionKeepsDelivered(s, a);
      case DirectSent(t) => DirectSentKeepsDelivered(s, t);
      case WorkerExpires => WorkerExpiresKeepsDelivered(s);
      case Ack(id) => AckKeepsDelivered(s, id);
      case Cancels => CancelKeepsDelivered(s);
      case FlushLooks(f) => FlushLooksKeepsDelivered(s, f);
      case FlushActs(f) => FlushActsKeepsDelivered(s, f);
      case _ => OtherStepKeepsDelivered(s, a);
    }
  }
}
