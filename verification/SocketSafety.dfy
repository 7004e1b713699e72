/** What every step of the socket's threads keeps of the acknowledgement bookkeeping. */
module SocketSafety {
  import opened AckScheduler
  import opened SocketCore
  import opened SocketMachine

  lemma InvokedGrows(s: State, s': State)
    requires s.invoked <= s'.invoked
    ensures forall id :: Invoked(s, id) ==> Invoked(s', id)
    ensures forall i :: |s.invoked| <= i < |s'.invoked| ==> Invoked(s', s'.invoked[i].id)
  {
    forall id | Invoked(s, id)
      ensures Invoked(s', id)
    {
      var i :| 0 <= i < |s.invoked| && s.invoked[i].id == id;
      assert s'.invoked[i].id == id;
    }
  }

  /** The history and the callbacks in flight are as before. */
  predicate SameFates(s: State, s': State) {
    && s'.registered == s.registered && s'.cancelled == s.cancelled && s'.invoked == s.invoked
    && s'.core.live == s.core.live && s'.running == s.running && s'.core.active == s.core.active
    && s'.now == s.now
    && (!s'.worker.Calling? || s'.worker == s.worker)
    && (forall f :: f in s'.flushers && s'.flushers[f].InCallback? ==>
          f in s.flushers && s.flushers[f] == s'.flushers[f])
  }

  lemma SameFatesKept(s: State, s': State)
    requires Fates(s) && Outcomes(s) && Counted(s) && SameFates(s, s')
    ensures Fates(s') && Outcomes(s') && Counted(s')
  {
    InvokedGrows(s, s');
    forall i | 0 <= i < |s.invoked|
      ensures Sound(s', s'.invoked[i])
    {
      assert Sound(s, s.invoked[i]);
    }
  }

  /** A live callback leaves for the invocation log, whichever thread runs it. */
  predicate Invokes(s: State, s': State, id: int, status: Status) {
    && id in s.core.live
    && s'.core.live == s.core.live - {id} && s'.core.active == s.core.active + 1
    && s'.registered == s.registered && s'.cancelled == s.cancelled && s'.now == s.now
    && s'.running == s.running + {id}
    && s'.invoked == s.invoked + [Invocation(id, status, s.now)]
    && (s'.worker == Calling(id) || !s'.worker.Calling? || s'.worker == s.worker)
    && (forall f :: f in s'.flushers && s'.flushers[f].InCallback? && s'.flushers[f] != InCallback(id) ==>
          f in s.flushers && s.flushers[f] == s'.flushers[f])
  }

  lemma InvokesKeepsFates(s: State, s': State, id: int, status: Status)
    requires Ids(s) && Fates(s) && Invokes(s, s', id, status)
    ensures Fates(s')
  {
    InvokedGrows(s, s');
    assert Invoked(s', s'.invoked[|s.invoked|].id);
  }

  lemma InvokesKeepsCounted(s: State, s': State, id: int, status: Status)
    requires Fates(s) && Counted(s) && Invokes(s, s', id, status)
    ensures Counted(s')
  {
    InvokedGrows(s, s');
    assert Invoked(s', s'.invoked[|s.invoked|].id);
    assert id !in s.running;
  }

  lemma InvokesKeepsOutcomes(s: State, s': State, id: int, status: Status)
    requires Outcomes(s) && Invokes(s, s', id, status) && Sound(s', Invocation(id, status, s.now))
    ensures Outcomes(s')
  {
    forall i | 0 <= i < |s.invoked|
      ensures Sound(s', s'.invoked[i])
    {
      assert Sound(s, s.invoked[i]);
    }
  }

  lemma TimeoutKeepsAgreed(s: State, s': State, id: int)
    requires Agreed(s) && Reached(s, id) && Invokes(s, s', id, Timeout)
    requires Ids(s') && Linked(s') && Alarms(s') && Flushing(s')
    ensures Agreed(s')
  {
    InvokesKeepsFates(s, s', id, Timeout);
    InvokesKeepsCounted(s, s', id, Timeout);
    InvokesKeepsOutcomes(s, s', id, Timeout);
  }

  lemma WorkerExpiresKeepsAgreed(s: State)
    requires Agreed(s) && s.worker.Holds?
    ensures Agreed(ApplyWorkerExpires(s))
  {
    hide Fates, Outcomes, Counted;
    var s' := ApplyWorkerExpires(s);
    if s.worker.id in s.core.live {
      TimeoutKeepsAgreed(s, s', s.worker.id);
    } else {
      SameFatesKept(s, s');
    }
  }

  lemma FlushActsKeepsFlushing(s: State, f: nat)
    requires Flushing(s) && f in s.flushers && HasPacket(s.flushers[f])
    ensures Flushing(ApplyFlushActs(s, f))
  {
    hide Purged;
    assert f in ApplyFlushActs(s, f).flushers;
  }

  lemma FlushActsKeepsTied(s: State, f: nat)
    requires Tied(s) && f in s.flushers && HasPacket(s.flushers[f])
    ensures Tied(ApplyFlushActs(s, f))
  {
    hide Flushing, Linked, Ids, Alarms, ApplyFlushActs;
    FlushActsKeepsFlushing(s, f);
    FlushActsKeepsLinked(s, f);
    FlushActsKeepsIds(s, f);
  }

  lemma FlushActsKeepsIds(s: State, f: nat)
    requires Ids(s) && Alarms(s) && f in s.flushers && HasPacket(s.flushers[f])
    ensures Ids(ApplyFlushActs(s, f)) && Alarms(ApplyFlushActs(s, f))
  {
    hide Purge, Purged;
  }

  lemma FlushActsKeepsLinked(s: State, f: nat)
    requires Ids(s) && Linked(s) && f in s.flushers && HasPacket(s.flushers[f])
    ensures Linked(ApplyFlushActs(s, f))
  {
    hide Purge, Purged, Ids;
  }

  lemma FlushActsKeepsAgreed(s: State, f: nat)
    requires Agreed(s) && f in s.flushers && HasPacket(s.flushers[f])
    ensures Agreed(ApplyFlushActs(s, f))
  {
    hide Fates, Outcomes, Counted, Flushing, Alarms;
    var s' := ApplyFlushActs(s, f);
    FlushActsKeepsTied(s, f);
    if s.flushers[f].Expires? && s.flushers[f].packet.id in s.core.live {
      TimeoutKeepsAgreed(s, s', s.flushers[f].packet.id);
    } else {
      SameFatesKept(s, s');
    }
  }

  /** The part of the invariant that does not speak of the invocation log. */
  predicate Tied(s: State) {
    Ids(s) && Linked(s) && Alarms(s) && Flushing(s)
  }

  lemma AckKeepsIds(s: State, id: int)
    requires Ids(s)
    ensures Ids(ApplyAck(s, id))
  {
    hide Purge, Purged;
  }

  lemma AckKeepsLinked(s: State, id: int)
    requires Ids(s) && Linked(s)
    ensures Linked(ApplyAck(s, id))
  {
    hide Purge, Purged;
  }

  lemma AckKeepsAlarms(s: State, id: int)
    requires Alarms(s)
    ensures Alarms(ApplyAck(s, id))
  {
    hide Purge, Purged;
  }

  lemma AckKeepsFlushing(s: State, id: int)
    requires Flushing(s)
    ensures Flushing(ApplyAck(s, id))
  {
    hide Purged;
  }

  lemma AckKeepsTied(s: State, id: int)
    requires Tied(s)
    ensures Tied(ApplyAck(s, id))
  {
    hide Ids, Linked, Alarms, Flushing, ApplyAck;
    AckKeepsIds(s, id);
    AckKeepsLinked(s, id);
    AckKeepsAlarms(s, id);
    AckKeepsFlushing(s, id);
  }

  lemma AckKeepsAgreed(s: State, id: int)
    requires Agreed(s)
    ensures Agreed(ApplyAck(s, id))
  {
    hide Fates, Outcomes, Counted, Flushing, Alarms;
    var s' := ApplyAck(s, id);
    AckKeepsTied(s, id);
    if id in s.core.live {
      var status := if Expired(s.core, id, s.now) then Timeout else Acknowledged;
      assert status.Timeout? ==> Reached(s, id);
      InvokesKeepsFates(s, s', id, status);
      InvokesKeepsCounted(s, s', id, status);
      InvokesKeepsOutcomes(s, s', id, status);
    } else {
      SameFatesKept(s, s');
    }
  }

  /** A timed emission that was not rejected, apart from where its packet went. */
  predicate Registers(s: State, s': State, deadline: Time) {
    var id := s.core.nextId;
    && s'.core.nextId == id + 1
    && s'.core.live == s.core.live + {id}
    && s'.core.deadlines == s.core.deadlines[id := deadline]
    && s'.registered == s.registered[id := deadline]
    && s'.worker == (if s.worker.Absent? then Ready else Notify(s.worker))
    && s'.core.pending == s.core.pending && s'.core.active == s.core.active
    && s'.core.connected == s.core.connected && s'.core.flushing == s.core.flushing
    && s'.untimed == s.untimed && s'.answered == s.answered
    && s'.cancelled == s.cancelled && s'.invoked == s.invoked
    && s'.running == s.running && s'.now == s.now && s'.ids == s.ids
    && s'.flushers == s.flushers && s'.flushes == s.flushes
    && (s'.core.buffer == s.core.buffer || !s.core.connected || s.core.flushing)
  }

  /** What the locked part of a timed emission does to the socket. */
  lemma EmitTimedRegisters(c: Core, p: Packet, deadline: Time, now: Time)
    requires !c.closed
    ensures
      var (c', decision) := EmitTimed(c, p, deadline, now);
      && !decision.Rejected?
      && c' == c.(nextId := c.nextId + 1, live := c.live + {c.nextId}, deadlines := c.deadlines[c.nextId := deadline],
                  buffer := c'.buffer)
      && (c'.buffer == c.buffer || !c.connected || c.flushing)
  {
  }

  lemma TimedEmitRegisters(s: State, t: nat, start: Time, timeout: int)
    requires start <= MAX_TIME && timeout > 0
    ensures
      var s' := ApplyTimedEmit(s, t, start, timeout);
      if s.core.closed then s' == s else Registers(s, s', DeadlineFor(start, timeout))
  {
    if !s.core.closed {
      EmitTimedRegisters(s.core, Packet(-1, t, |s.emitted|), DeadlineFor(start, timeout), s.now);
      hide EmitTimed, DeadlineFor;
    }
  }

  lemma RegistersKeepsFates(s: State, s': State, deadline: Time)
    requires Ids(s) && Fates(s) && Outcomes(s) && Counted(s) && Registers(s, s', deadline)
    ensures Fates(s') && Outcomes(s') && Counted(s')
  {
    InvokedGrows(s, s');
    forall i | 0 <= i < |s.invoked|
      ensures Sound(s', s'.invoked[i])
    {
      assert Sound(s, s.invoked[i]);
    }
  }

  lemma RegistersKeepsAgreed(s: State, s': State, deadline: Time)
    requires Agreed(s) && Registers(s, s', deadline)
    ensures Agreed(s')
  {
    RegistersKeepsFates(s, s', deadline);
  }

  lemma TimedEmitKeepsAgreed(s: State, t: nat, start: Time, timeout: int)
    requires Agreed(s) && start <= MAX_TIME && timeout > 0
    ensures Agreed(ApplyTimedEmit(s, t, start, timeout))
  {
    TimedEmitRegisters(s, t, start, timeout);
    if !s.core.closed {
      RegistersKeepsAgreed(s, ApplyTimedEmit(s, t, start, timeout), DeadlineFor(start, timeout));
    }
  }

  lemma EmitKeepsAgreed(s: State, t: nat)
    requires Agreed(s) && t !in s.sending
    ensures Agreed(ApplyEmit(s, t))
  {
    hide Fates, Outcomes, Counted;
    SameFatesKept(s, ApplyEmit(s, t));
  }

  lemma AllocateKeepsAgreed(s: State, t: nat)
    requires Agreed(s) && Idle(s, t)
    ensures Agreed(ApplyAllocate(s, t))
  {
    hide Fates, Outcomes, Counted;
    SameFatesKept(s, ApplyAllocate(s, t));
  }

  lemma FlushLooksKeepsAgreed(s: State, f: nat)
    requires Agreed(s) && f in s.flushers && s.flushers[f].AtTop?
    ensures Agreed(ApplyFlushLooks(s, f))
  {
    hide Fates, Outcomes, Counted;
    SameFatesKept(s, ApplyFlushLooks(s, f));
    FlushLooksKeepsFlushing(s, f);
    hide Flushing;
  }

  lemma FlushLooksKeepsFlushing(s: State, f: nat)
    requires Flushing(s) && f in s.flushers && s.flushers[f].AtTop?
    ensures Flushing(ApplyFlushLooks(s, f))
  {
    assert s.flushers - {f} == map[];
    assert s.core.connected && s.core.buffer != [] ==> f in ApplyFlushLooks(s, f).flushers;
  }

  lemma ReturnKeepsAgreed(s: State, id: int)
    requires Agreed(s) && id in s.running
    ensures Agreed(ApplyReturn(s, id))
  {
    InvokedGrows(s, ApplyReturn(s, id));
    assert Outcomes(ApplyReturn(s, id)) by {
      assert forall i :: 0 <= i < |s.invoked| ==> Sound(s, s.invoked[i]);
    }
  }

  lemma CancelKeepsAgreed(s: State)
    requires Agreed(s)
    ensures Agreed(ApplyCancel(s))
  {
    InvokedGrows(s, ApplyCancel(s));
    assert Outcomes(ApplyCancel(s)) by {
      assert forall i :: 0 <= i < |s.invoked| ==> Sound(s, s.invoked[i]);
    }
  }

  lemma ClaimKeepsAgreed(s: State, id: int)
    requires Agreed(s) && s.worker.Ready? && id in s.core.deadlines && s.core.deadlines[id] <= s.now
    ensures Agreed(ApplyClaim(s, id))
  {
    hide Fates, Outcomes, Counted;
    SameFatesKept(s, ApplyClaim(s, id));
  }

  lemma TickKeepsAgreed(s: State, elapsed: nat)
    requires Agreed(s)
    ensures Agreed(s.(now := s.now + elapsed))
  {
    InvokedGrows(s, s.(now := s.now + elapsed));
    assert forall i :: 0 <= i < |s.invoked| ==> Sound(s, s.invoked[i]);
  }

  /** The worker goes to sleep or wakes. */
  lemma RestKeepsAgreed(s: State, w: Worker)
    requires Agreed(s) && !s.worker.Holds? && !w.Holds? && !w.Calling? && Alarms(s.(worker := w))
    ensures Agreed(s.(worker := w))
  {
    hide Fates, Outcomes, Counted, Alarms;
    SameFatesKept(s, s.(worker := w));
  }

  lemma WorkerRestsKeepsAgreed(s: State, a: Step)
    requires Agreed(s) && Enabled(s, a) && (a.WorkerSleeps? || a.WorkerSleepsUntil? || a.WorkerWakes?)
    ensures Agreed(Apply(s, a))
  {
    var s' := Apply(s, a);
    assert s' == s.(worker := s'.worker) && Alarms(s');
    hide Agreed, Alarms, Apply;
    RestKeepsAgreed(s, s'.worker);
  }

  lemma DirectSentKeepsAgreed(s: State, t: nat)
    requires Agreed(s) && t in s.sending
    ensures Agreed(ApplyDirectSent(s, t))
  {
    hide Fates, Outcomes, Counted;
    SameFatesKept(s, ApplyDirectSent(s, t));
  }

  lemma ResumeKeepsAgreed(s: State)
    requires Agreed(s)
    ensures Agreed(s.(core := Resume(s.core)))
  {
    hide Fates, Outcomes, Counted;
    SameFatesKept(s, s.(core := Resume(s.core)));
  }

  lemma MarkedKeepsTied(s: State, connected: bool)
    requires Tied(s)
    ensures Tied(ApplyMarked(s, connected))
  {
    if MarkConnected(s.core, connected).1 {
      assert s.flushes in ApplyMarked(s, connected).flushers;
    }
  }

  /** A flush is started only when no other is under way. */
  lemma MarkedKeepsAgreed(s: State, connected: bool)
    requires Agreed(s)
    ensures Agreed(ApplyMarked(s, connected))
  {
    hide Fates, Outcomes, Counted, Ids, Linked, Flushing, Alarms;
    MarkedKeepsTied(s, connected);
    SameFatesKept(s, ApplyMarked(s, connected));
  }

  predicate OwnStep(a: Step) {
    a.Tick? || a.AllocateId? || a.Emit? || a.TimedEmit? || a.WorkerClaims?
  }

  lemma OwnStepKeepsAgreed(s: State, a: Step)
    requires Agreed(s) && Enabled(s, a) && OwnStep(a)
    ensures Agreed(Apply(s, a))
  {
    hide Agreed;
    match a {
      case Tick(elapsed) => TickKeepsAgreed(s, elapsed);
      case AllocateId(t) => AllocateKeepsAgreed(s, t);
      case Emit(t) => EmitKeepsAgreed(s, t);
      case TimedEmit(t, start, timeout) => TimedEmitKeepsAgreed(s, t, start, timeout);
      case WorkerClaims(id) => ClaimKeepsAgreed(s, id);
    }
  }

  lemma AgreedKept(s: State, a: Step)
    requires Agreed(s) && Enabled(s, a)
    ensures Agreed(Apply(s, a))
  {
    hide Agreed;
    if OwnStep(a) {
      OwnStepKeepsAgreed(s, a);
    } else {
      match a {
        case WorkerExpires => WorkerExpiresKeepsAgreed(s);
        case Ack(id) => AckKeepsAgreed(s, id);
        case FlushLooks(f) => FlushLooksKeepsAgreed(s, f);
        case FlushActs(f) => FlushActsKeepsAgreed(s, f);
        case CallbackReturns(id) => ReturnKeepsAgreed(s, id);
        case Cancels => CancelKeepsAgreed(s);
        case Marked(connected) => MarkedKeepsAgreed(s, connected);
        case DirectSent(t) => DirectSentKeepsAgreed(s, t);
        case Resumes => ResumeKeepsAgreed(s);
        case _ => WorkerRestsKeepsAgreed(s, a);
      }
    }
  }
}
