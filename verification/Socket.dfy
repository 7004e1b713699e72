/** The socket object.  Each method is one critical section (or, for the flush loop, the
    sequence of them when no other thread intervenes) and is proved to act on the fields as
    the functions of `SocketCore` say. */
module Socket {
  import opened Options
  import opened AckScheduler
  import opened SocketCore

  /** An application callback, known to the socket only by identity. */
  datatype Callback = Callback(tag: nat)

  lemma {:induction false} PurgeAppend(a: seq<Packet>, b: seq<Packet>, ids: set<int>)
    ensures Purge(a + b, ids) == Purge(a, ids) + Purge(b, ids)
  {
    if a == [] {
      assert a + b == b;
    } else {
      assert (a + b)[0] == a[0] && (a + b)[1..] == a[1..] + b;
      PurgeAppend(a[1..], b, ids);
    }
  }

  lemma {:induction false} PurgeTwice(buffer: seq<Packet>, a: set<int>, b: set<int>)
    ensures Purge(Purge(buffer, a), b) == Purge(buffer, a + b)
  {
    if buffer != [] {
      PurgeTwice(buffer[1..], a, b);
      if buffer[0].id !in a {
        var rest := Purge(buffer[1..], a);
        assert Purge(buffer, a) == [buffer[0]] + rest;
        assert ([buffer[0]] + rest)[1..] == rest;
      }
    }
  }

  /** The live callbacks whose deadline has passed or been claimed. */
  function Overdue(c: Core, now: Time): set<int> {
    set id | id in c.live && Expired(c, id, now)
  }

  /** Progress of a flush that started in `before`: what was sent, followed by what is still
      to be sent, is what the first buffer holds that is not overdue. */
  predicate Flushed(before: Core, now: Time, c: Core, sent: seq<Packet>, timedOut: seq<int>) {
    && c.connected && c.deadlines == before.deadlines
    && sent + Purge(c.buffer, Overdue(c, now)) == Purge(before.buffer, Overdue(before, now))
    && (forall id :: id in timedOut ==> id in Overdue(before, now))
    && c.live == before.live - (set id | id in timedOut)
    && c.active == before.active + |timedOut|
  }

  lemma FlushedStart(c: Core, now: Time)
    requires c.connected
    ensures Flushed(c, now, c, [], [])
  {
    assert c.live == c.live - {};
  }

  lemma FlushedDone(before: Core, now: Time, c: Core, sent: seq<Packet>, timedOut: seq<int>)
    requires Flushed(before, now, c, sent, timedOut)
    ensures c.connected && c.live == before.live - (set id | id in timedOut) && c.active == before.active + |timedOut|
    ensures c.buffer == [] ==> sent == Purge(before.buffer, Overdue(before, now))
    ensures forall id :: id in timedOut ==> id in Overdue(before, now)
  {
  }

  lemma FlushedSend(before: Core, now: Time, c: Core, sent: seq<Packet>, timedOut: seq<int>)
    requires Flushed(before, now, c, sent, timedOut) && c.buffer != []
    requires !(c.buffer[0].id in c.live && Expired(c, c.buffer[0].id, now))
    ensures Flushed(before, now, c.(buffer := c.buffer[1..]), sent + [c.buffer[0]], timedOut)
  {
    var c' := c.(buffer := c.buffer[1..]);
    assert Overdue(c', now) == Overdue(c, now);
    var rest := Purge(c.buffer[1..], Overdue(c, now));
    assert sent + ([c.buffer[0]] + rest) == (sent + [c.buffer[0]]) + rest;
  }

  lemma FlushedExpire(before: Core, now: Time, c: Core, sent: seq<Packet>, timedOut: seq<int>)
    requires Flushed(before, now, c, sent, timedOut) && c.buffer != []
    requires c.buffer[0].id in c.live && Expired(c, c.buffer[0].id, now)
    ensures
      var id := c.buffer[0].id;
      Flushed(before, now, Expire(c.(buffer := c.buffer[1..]), id).0, sent, timedOut + [id])
  {
    var id := c.buffer[0].id;
    var c' := Expire(c.(buffer := c.buffer[1..]), id).0;
    assert {id} + Overdue(c', now) == Overdue(c, now);
    PurgeTwice(c.buffer[1..], {id}, Overdue(c', now));
    assert id in Overdue(before, now);
  }

  class Socket {
    var connected: bool
    var flushing: bool
    var closed: bool
    var nextId: int
    var timedAcks: map<int, Callback>
    var pendingAcks: map<int, Callback>
    var buffer: seq<Packet>
    var active: int
    var scheduler: Scheduler?

    ghost predicate Valid()
      reads this, scheduler
    {
      scheduler != null ==>
        scheduler.Valid() && forall id :: id in scheduler.deadlines ==> id < nextId
    }

    ghost function View(): Core
      reads this, scheduler
    {
      Core(connected, flushing, closed, nextId, timedAcks.Keys, pendingAcks.Keys, buffer, active,
           if scheduler == null then map[] else scheduler.deadlines)
    }

    constructor ()
      ensures Valid() && View() == SocketCore.Fresh() && scheduler == null
    {
      connected, flushing, closed, nextId, active := false, false, false, 0, 0;
      timedAcks, pendingAcks, buffer := map[], map[], [];
      scheduler := null;
    }

    /** `erase(remove_if(...))` on the send buffer. */
    method PurgeBuffer(ids: set<int>)
      modifies this`buffer
      ensures buffer == Purge(old(buffer), ids)
    {
      var kept: seq<Packet> := [];
      var i := 0;
      while i < |buffer|
        invariant 0 <= i <= |buffer| && buffer == old(buffer)
        invariant kept == Purge(buffer[..i], ids)
      {
        assert buffer[..i + 1] == buffer[..i] + [buffer[i]];
        PurgeAppend(buffer[..i], [buffer[i]], ids);
        if buffer[i].id !in ids {
          kept := kept + [buffer[i]];
        }
        i := i + 1;
      }
      assert buffer[..i] == buffer;
      buffer := kept;
    }

    method AllocateAckId(callback: Callback) returns (id: int)
      requires Valid()
      modifies this
      ensures Valid() && View() == AllocateAck(old(View())) && id == old(nextId) && nextId == id + 1
      ensures pendingAcks == old(pendingAcks)[id := callback] && timedAcks == old(timedAcks)
      ensures scheduler == old(scheduler)
    {
      id := nextId;
      nextId := nextId + 1;
      pendingAcks := pendingAcks[id := callback];
    }

    method Submit(p: Packet) returns (decision: Submission)
      requires Valid()
      modifies this
      ensures Valid() && (View(), decision) == SendOrBuffer(old(View()), p)
      ensures decision == if old(connected) && !old(flushing) then Direct else Queued
      ensures buffer == old(buffer) + if decision.Queued? then [p] else []
      ensures timedAcks == old(timedAcks) && pendingAcks == old(pendingAcks) && scheduler == old(scheduler)
    {
      if !connected || flushing {
        buffer := buffer + [p];
        return Queued;
      }
      return Direct;
    }

    /** The locked part of a timed emission, with the scheduler created on first use. */
    method SubmitTimed(p: Packet, deadline: Time, now: Time, callback: Callback) returns (decision: Submission)
      requires Valid()
      modifies this, scheduler
      ensures Valid() && (View(), decision) == EmitTimed(old(View()), p, deadline, now)
      ensures decision == if old(closed) then Rejected
                          else if deadline <= now then Discarded
                          else if old(connected) && !old(flushing) then Direct else Queued
      ensures buffer == old(buffer) + if decision.Queued? then [p.(id := old(nextId))] else []
      ensures !decision.Rejected? ==> scheduler != null && nextId == old(nextId) + 1
      ensures !decision.Rejected? ==> View().deadlines == old(View().deadlines)[old(nextId) := deadline]
      ensures scheduler != old(scheduler) ==> old(scheduler) == null && fresh(scheduler)
      ensures timedAcks == if decision.Rejected? then old(timedAcks) else old(timedAcks)[old(nextId) := callback]
      ensures pendingAcks == old(pendingAcks)
    {
      if closed {
        return Rejected;
      }
      if scheduler == null {
        scheduler := new Scheduler();
      }
      var id := nextId;
      nextId := nextId + 1;
      timedAcks := timedAcks[id := callback];
      scheduler.Add(id, deadline);
      assert timedAcks.Keys == old(timedAcks.Keys) + {id};
      var expired := scheduler.Expired(id, now);
      if expired {
        return Discarded;
      }
      decision := Submit(p.(id := id));
    }

    /** A timed emission that read the clock at `start` and took the lock at `now`; nothing, and
        no change, for a timeout or callback that is not valid: std::invalid_argument. */
    method Emit(p: Packet, timeout: int, callback: Option<Callback>, start: Time, now: Time)
      returns (decision: Option<Submission>)
      requires Valid() && start <= MAX_TIME
      modifies this, scheduler
      ensures Valid() && (decision.None? <==> timeout <= 0 || callback.None?)
      ensures decision.None? ==>
                View() == old(View()) && timedAcks == old(timedAcks) && scheduler == old(scheduler)
      ensures decision.Some? ==>
                (View(), decision.value) == EmitTimed(old(View()), p, DeadlineFor(start, timeout), now)
      ensures decision.Some? && !decision.value.Rejected? ==>
                timedAcks == old(timedAcks)[old(nextId) := callback.value]
      ensures scheduler != old(scheduler) ==> old(scheduler) == null && fresh(scheduler)
      ensures pendingAcks == old(pendingAcks)
    {
      if timeout <= 0 || callback.None? {
        return None;
      }
      var remaining := (MAX_TIME - start) / NANOS_PER_MILLI;
      var deadline := if timeout >= remaining then MAX_TIME else start + timeout * NANOS_PER_MILLI;
      var submitted := SubmitTimed(p, deadline, now, callback.value);
      return Some(submitted);
    }

    /** `expire_ack`: hands back the callback to run, if it was still live. */
    method ExpireAck(id: int) returns (callback: Option<Callback>)
      requires Valid()
      modifies this
      ensures Valid() && (View(), callback.Some?) == Expire(old(View()), id)
      ensures timedAcks == old(timedAcks) - {id} && pendingAcks == old(pendingAcks) && scheduler == old(scheduler)
      ensures callback == if id in old(timedAcks) then Some(old(timedAcks)[id]) else None
      ensures callback.Some? ==> active == old(active) + 1 && buffer == Purge(old(buffer), {id})
      ensures callback.None? ==> active == old(active) && buffer == old(buffer)
    {
      if id !in timedAcks {
        assert timedAcks - {id} == timedAcks;
        return None;
      }
      callback := Some(timedAcks[id]);
      timedAcks := timedAcks - {id};
      active := active + 1;
      PurgeBuffer({id});
    }

    /** Arrival of an ack: hands back the callback it belongs to and how to call it. */
    method DispatchAck(id: int, now: Time) returns (outcome: AckOutcome, callback: Option<Callback>)
      requires Valid()
      modifies this, scheduler
      ensures Valid() && (View(), outcome) == SocketCore.DispatchAck(old(View()), id, now)
      ensures timedAcks == old(timedAcks) - {id} && scheduler == old(scheduler)
      ensures id in old(timedAcks) ==>
                && callback == Some(old(timedAcks)[id]) && pendingAcks == old(pendingAcks)
                && outcome == Timed(if Expired(old(View()), id, now) then Timeout else Acknowledged)
                && active == old(active) + 1 && buffer == Purge(old(buffer), {id})
                && View().deadlines == old(View().deadlines) - {id}
      ensures id !in old(timedAcks) && id in old(pendingAcks) ==>
                && outcome == Untimed && callback == Some(old(pendingAcks)[id])
                && pendingAcks == old(pendingAcks) - {id}
      ensures id !in old(timedAcks) ==> active == old(active) && buffer == old(buffer)
      ensures outcome.Unknown? <==> id !in old(timedAcks) && id !in old(pendingAcks)
      ensures outcome.Unknown? ==> callback == None && View() == old(View()) && pendingAcks == old(pendingAcks)
    {
      if id in timedAcks {
        var expired := true;
        if scheduler != null {
          expired := scheduler.Remove(id, now);
        }
        ghost var none: map<int, Time> := map[];
        assert none - {id} == none;
        callback := Some(timedAcks[id]);
        active := active + 1;
        timedAcks := timedAcks - {id};
        PurgeBuffer({id});
        return Timed(if expired then Timeout else Acknowledged), callback;
      }
      assert timedAcks - {id} == timedAcks;
      if id !in pendingAcks {
        return Unknown, None;
      }
      callback := Some(pendingAcks[id]);
      pendingAcks := pendingAcks - {id};
      return Untimed, callback;
    }

    method FlushOnce(now: Time) returns (step: FlushStep)
      requires Valid()
      modifies this
      ensures Valid() && (View(), step) == SocketCore.FlushOnce(old(View()), now)
      ensures step.FlushDone? <==> !connected || old(buffer) == []
      ensures step.FlushDone? ==> !flushing && buffer == old(buffer)
      ensures !step.FlushDone? ==>
                && flushing == old(flushing) && old(buffer) == [step.packet] + buffer
                && (step.FlushExpired? <==> step.packet.id in Overdue(old(View()), now))
      ensures timedAcks == old(timedAcks) && pendingAcks == old(pendingAcks) && scheduler == old(scheduler)
    {
      if !connected || buffer == [] {
        flushing := false;
        return FlushDone;
      }
      var p := buffer[0];
      buffer := buffer[1..];
      var expired := p.id in timedAcks;
      if expired && scheduler != null {
        expired := scheduler.Expired(p.id, now);
      }
      return if expired then FlushExpired(p) else FlushSend(p);
    }

    /** The whole flush loop at a fixed time: while connected it sends exactly the packets that
        are not overdue, oldest first, and empties the buffer; the callbacks it takes are live
        and overdue.  While disconnected it does nothing but clear the flag. */
    method Flush(now: Time) returns (sent: seq<Packet>, timedOut: seq<int>)
      requires Valid()
      modifies this
      ensures Valid() && connected == old(connected) && !flushing && scheduler == old(scheduler)
      ensures !connected ==> sent == [] && timedOut == [] && View() == old(View()).(flushing := false)
      ensures connected ==> buffer == [] && sent == Purge(old(buffer), Overdue(old(View()), now))
      ensures forall id :: id in timedOut ==> id in Overdue(old(View()), now)
      ensures timedAcks.Keys == old(timedAcks.Keys) - (set id | id in timedOut)
      ensures active == old(active) + |timedOut|
    {
      hide Flushed, Purge, Overdue;
      sent, timedOut := [], [];
      ghost var before := View();
      if connected {
        FlushedStart(before, now);
      }
      while true
        invariant Valid() && scheduler == old(scheduler) && connected == old(connected)
        invariant connected ==> Flushed(before, now, View(), sent, timedOut)
        invariant !connected ==> View() == before && sent == [] && timedOut == []
        decreases |buffer|
      {
        ghost var c := View();
        var step := FlushOnce(now);
        if step.FlushDone? {
          if connected {
            FlushedDone(before, now, c, sent, timedOut);
          }
          break;
        } else if step.FlushSend? {
          FlushedSend(before, now, c, sent, timedOut);
          sent := sent + [step.packet];
        } else {
          FlushedExpire(before, now, c, sent, timedOut);
          var callback := ExpireAck(step.packet.id);
          timedOut := timedOut + [step.packet.id];
        }
      }
    }

    method CancelTimedAcks() returns (cancelled: map<int, Callback>)
      requires Valid()
      modifies this, scheduler
      ensures Valid() && View() == Cancel(old(View()))
      ensures closed && View().deadlines == map[] && buffer == Purge(old(buffer), old(timedAcks.Keys))
      ensures connected == old(connected) && flushing == old(flushing) && active == old(active)
      ensures cancelled == old(timedAcks) && timedAcks == map[] && pendingAcks == old(pendingAcks)
      ensures scheduler == old(scheduler)
    {
      closed := true;
      if scheduler != null {
        scheduler.Clear();
      }
      PurgeBuffer(timedAcks.Keys);
      cancelled := timedAcks;
      timedAcks := map[];
    }

    method ResumeTimedAcks()
      requires Valid()
      modifies this`closed
      ensures Valid() && View() == Resume(old(View())) && !closed
    {
      closed := false;
    }

    method FinishTimedAck()
      requires Valid()
      modifies this`active
      ensures Valid() && View() == SocketCore.Finish(old(View())) && active == old(active) - 1
    {
      active := active - 1;
    }

    method MarkConnected(now: bool) returns (shouldFlush: bool)
      requires Valid()
      modifies this`connected, this`flushing
      ensures Valid() && (View(), shouldFlush) == SocketCore.MarkConnected(old(View()), now)
      ensures connected == now && flushing == (old(flushing) || shouldFlush)
      ensures shouldFlush <==> now && !old(connected) && !old(flushing)
    {
      var was := connected;
      connected := now;
      shouldFlush := false;
      if now && !was && !flushing {
        flushing := true;
        shouldFlush := true;
      }
    }
  }
}
