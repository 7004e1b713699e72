/** The write queue of the WebSocket transport.  Its handlers run one at a time on a strand;
    the closing flag may be set by any thread between them.  The stream takes one
    asynchronous write at a time and reports its completion, possibly with an error. */
module WritePump {
  datatype Item = Item(payload: string, binary: bool)

  datatype State = State(
    queue: seq<Item>,
    inProgress: bool,
    closing: bool,
    stream: bool,          // the WebSocket stream exists
    // environment and history
    inFlight: nat,         // asynchronous writes started and not completed
    accepted: seq<Item>,   // what was put into the queue
    issued: seq<Item>,     // what was given to the stream
    popped: nat,
    failed: bool,          // the last write that completed did so with an error
    streamless: bool)      // the last attempt to start a write found no stream

  datatype Step =
    | Enqueue(item: Item)
    | StreamCreated
    | Completed(ok: bool)
    | SetClosing
    | Shutdown

  function Init(): State {
    State([], false, false, false, 0, [], [], 0, false, false)
  }

  predicate Enabled(s: State, a: Step) {
    match a
    case Completed(_) => s.inFlight > 0
    case Shutdown => s.closing
    case _ => true
  }

  /** Start the next write.  The front's payload is moved out; the item itself stays in the
      queue until the write completes. */
  function Pump(s: State): State {
    if s.closing then s
    else if !s.stream then s.(inProgress := false, streamless := true)
    else if s.queue == [] then s.(inProgress := false, streamless := false)
    else
      s.(queue := [Item("", s.queue[0].binary)] + s.queue[1..],
         inFlight := s.inFlight + 1,
         issued := s.issued + [s.queue[0]],
         streamless := false)
  }

  function Apply(s: State, a: Step): State
    requires Enabled(s, a)
  {
    match a
    case Enqueue(item) =>
      if s.closing then s
      else
        var queued := s.(queue := s.queue + [item], accepted := s.accepted + [item], inProgress := true);
        if s.inProgress then queued else Pump(queued)
    case StreamCreated => s.(stream := true)
    case Completed(ok) =>
      var done := s.(inFlight := s.inFlight - 1, failed := !ok);
      if s.closing then done
      else
        var rest := done.(queue := if s.queue == [] then [] else s.queue[1..],
                          popped := if s.queue == [] then s.popped else s.popped + 1);
        if ok then Pump(rest) else rest.(inProgress := false)
    case SetClosing => s.(closing := true)
    case Shutdown => s.(queue := [], inProgress := false)
  }

  predicate Runnable(s: State, steps: seq<Step>)
    decreases |steps|
  {
    steps == [] || (Enabled(s, steps[0]) && Runnable(Apply(s, steps[0]), steps[1..]))
  }

  function Run(s: State, steps: seq<Step>): State
    requires Runnable(s, steps)
    decreases |steps|
  {
    if steps == [] then s else Run(Apply(s, steps[0]), steps[1..])
  }

  /** The queue holds what was accepted and not yet popped; while a write is in flight its
      item is the front, with the payload moved out. */
  predicate Consistent(s: State) {
    && s.inFlight <= 1
    && s.popped <= |s.accepted|
    && (s.inProgress <==> s.inFlight == 1)
    && (s.inFlight == 0 ==> s.queue == s.accepted[s.popped..] && s.issued == s.accepted[..s.popped])
    && (s.inFlight == 1 ==>
          && s.popped < |s.accepted| && s.queue != []
          && s.queue[0] == Item("", s.accepted[s.popped].binary)
          && s.queue[1..] == s.accepted[s.popped + 1..]
          && s.issued == s.accepted[..s.popped + 1])
    && (s.inFlight == 0 && s.queue != [] ==> s.failed || s.streamless)
  }

  predicate Inv(s: State) {
    && s.inFlight <= 1 && s.issued <= s.accepted
    && (!s.closing ==> Consistent(s))
  }

  lemma PumpKeeps(s: State)
    requires !s.closing && s.inProgress && s.inFlight == 0 && s.popped <= |s.accepted|
    requires s.queue == s.accepted[s.popped..] && s.issued == s.accepted[..s.popped]
    ensures Inv(Pump(s))
  {
    if s.stream && s.queue != [] {
      assert s.accepted[..s.popped + 1] == s.accepted[..s.popped] + [s.queue[0]];
    }
  }

  lemma EnqueueKeeps(s: State, item: Item)
    requires Inv(s) && !s.closing
    ensures Inv(Apply(s, Enqueue(item)))
  {
    var queued := s.(queue := s.queue + [item], accepted := s.accepted + [item], inProgress := true);
    assert queued.accepted[s.popped..] == s.accepted[s.popped..] + [item];
    assert queued.accepted[..s.popped] == s.accepted[..s.popped];
    if s.inProgress {
      assert queued.queue[1..] == s.queue[1..] + [item];
      assert queued.accepted[s.popped + 1..] == s.accepted[s.popped + 1..] + [item];
      assert queued.accepted[..s.popped + 1] == s.accepted[..s.popped + 1];
    } else {
      PumpKeeps(queued);
    }
  }

  lemma CompletedKeeps(s: State, ok: bool)
    requires Inv(s) && !s.closing && s.inFlight > 0
    ensures Inv(Apply(s, Completed(ok)))
  {
    var rest := s.(inFlight := 0, queue := s.queue[1..], popped := s.popped + 1);
    if ok {
      PumpKeeps(rest);
    }
  }

  lemma InvKept(s: State, a: Step)
    requires Inv(s) && Enabled(s, a)
    ensures Inv(Apply(s, a))
  {
    if !s.closing {
      match a
      case Enqueue(item) => EnqueueKeeps(s, item);
      case Completed(ok) => CompletedKeeps(s, ok);
      case _ =>
    }
  }

  lemma {:induction false} RunKeepsInv(s: State, steps: seq<Step>)
    requires Inv(s) && Runnable(s, steps)
    ensures Inv(Run(s, steps))
    decreases |steps|
  {
    if steps != [] {
      InvKept(s, steps[0]);
      RunKeepsInv(Apply(s, steps[0]), steps[1..]);
    }
  }

  /** What callers queue before the closing flag is set, read off the steps alone. */
  function Offered(steps: seq<Step>): seq<Item> {
    if steps == [] || steps[0].SetClosing? then []
    else (if steps[0].Enqueue? then [steps[0].item] else []) + Offered(steps[1..])
  }

  lemma {:induction false} ClosedAcceptsNothing(s: State, steps: seq<Step>)
    requires s.closing && Runnable(s, steps)
    ensures Run(s, steps).accepted == s.accepted
    decreases |steps|
  {
    if steps != [] {
      ClosedAcceptsNothing(Apply(s, steps[0]), steps[1..]);
    }
  }

  lemma StepAccepts(s: State, a: Step)
    requires !s.closing && Enabled(s, a) && !a.SetClosing?
    ensures Apply(s, a).accepted == s.accepted + (if a.Enqueue? then [a.item] else []) && !Apply(s, a).closing
  {
  }

  lemma {:induction false} AcceptedIsOffered(s: State, steps: seq<Step>)
    requires !s.closing && Runnable(s, steps)
    ensures Run(s, steps).accepted == s.accepted + Offered(steps)
    decreases |steps|
  {
    if steps != [] {
      if steps[0].SetClosing? {
        ClosedAcceptsNothing(Apply(s, steps[0]), steps[1..]);
      } else {
        StepAccepts(s, steps[0]);
        hide Apply, Enabled;
        AcceptedIsOffered(Apply(s, steps[0]), steps[1..]);
      }
    }
  }

  /** In every run: what the stream is given is a prefix of what callers queued before closing,
      so nothing is reordered, skipped or written twice, with or without write errors; at most
      one write is outstanding; and until closing its payload is the one moved out of the queue's
      front and everything behind it is still queued. */
  lemma {:induction false} WritesInOrder(steps: seq<Step>)
    requires Runnable(Init(), steps)
    ensures
      var s, offered := Run(Init(), steps), Offered(steps);
      && s.issued <= offered && s.inFlight <= 1
      && (!s.closing && s.inFlight == 1 ==>
            s.issued != [] && s.queue == [Item("", s.issued[|s.issued| - 1].binary)] + offered[|s.issued|..])
      && (!s.closing && s.inFlight == 0 ==> s.queue == offered[|s.issued|..])
  {
    hide Run, Runnable, Offered, Consistent;
    RunKeepsInv(Init(), steps);
    AcceptedIsOffered(Init(), steps);
    var s := Run(Init(), steps);
    assert s.accepted == Offered(steps);
    if !s.closing {
      QueueIs(s);
    }
  }

  lemma QueueIs(s: State)
    requires Consistent(s)
    ensures s.inFlight == 1 ==>
              && s.issued != []
              && s.queue == [Item("", s.issued[|s.issued| - 1].binary)] + s.accepted[|s.issued|..]
    ensures s.inFlight == 0 ==> s.queue == s.accepted[|s.issued|..]
  {
    if s.inFlight == 1 {
      assert s.queue == [s.queue[0]] + s.queue[1..];
      assert s.issued[|s.issued| - 1] == s.accepted[s.popped];
    }
  }

  /** Payloads wait without a write only if the last completed write failed or the last attempt
      to start one found no stream. */
  lemma WaitsOnlyWhenStalled(steps: seq<Step>)
    requires Runnable(Init(), steps)
    ensures
      var s := Run(Init(), steps);
      !s.closing && s.inFlight == 0 && s.queue != [] ==> s.failed || s.streamless
  {
    RunKeepsInv(Init(), steps);
  }

  /** A stalled queue is not stuck: with a stream, the next payload that is queued starts the
      write of the oldest one that waits, not of itself. */
  lemma EnqueueRestarts(steps: seq<Step>, item: Item)
    requires Runnable(Init(), steps)
    requires
      var s := Run(Init(), steps);
      !s.closing && s.stream && s.inFlight == 0
    ensures
      var s := Run(Init(), steps);
      var s' := Apply(s, Enqueue(item));
      && s'.inFlight == 1 && s'.issued == s.issued + [if s.queue != [] then s.queue[0] else item]
      && s'.accepted == s.accepted + [item] && s'.issued <= s'.accepted
  {
    RunKeepsInv(Init(), steps);
    var s := Run(Init(), steps);
    InvKept(s, Enqueue(item));
  }

  /** The transport's fields and handlers. */
  class Transport {
    var queue: seq<Item>
    var inProgress: bool
    var closing: bool
    var stream: bool
    ghost var inFlight: nat
    ghost var accepted: seq<Item>
    ghost var issued: seq<Item>
    ghost var popped: nat
    ghost var failed: bool
    ghost var streamless: bool

    ghost function View(): State
      reads this
    {
      State(queue, inProgress, closing, stream, inFlight, accepted, issued, popped, failed, streamless)
    }

    constructor ()
      ensures View() == Init()
    {
      queue, inProgress, closing, stream := [], false, false, false;
      inFlight, accepted, issued, popped, failed, streamless := 0, [], [], 0, false, false;
    }

    /** Hands the next payload to the stream, if there is one to write. */
    method PumpQueue() returns (write: seq<Item>)
      modifies this
      ensures View() == Pump(old(View())) && issued == old(issued) + write
      ensures write == if !closing && stream && old(queue) != [] then [old(queue)[0]] else []
      ensures inFlight == old(inFlight) + |write| && |queue| == |old(queue)|
      ensures !closing && write == [] ==> !inProgress
    {
      if closing {
        return [];
      }
      if !stream {
        inProgress := false;
        streamless := true;
        return [];
      }
      streamless := false;
      if queue == [] {
        inProgress := false;
        return [];
      }
      write := [queue[0]];
      queue := queue[0 := Item("", queue[0].binary)];
      inFlight := inFlight + 1;
      issued := issued + write;
    }

    method QueueWrite(item: Item) returns (write: seq<Item>)
      modifies this
      ensures View() == Apply(old(View()), Enqueue(item)) && issued == old(issued) + write
      ensures accepted == old(accepted) + if closing then [] else [item]
      ensures |queue| == |old(queue)| + if closing then 0 else 1
      ensures !closing && old(inProgress) ==> write == [] && queue == old(queue) + [item]
      ensures !closing && !old(inProgress) && stream ==> write == [(old(queue) + [item])[0]]
      ensures closing || !stream ==> write == []
    {
      if closing {
        return [];
      }
      queue := queue + [item];
      accepted := accepted + [item];
      var shouldStart := !inProgress;
      inProgress := true;
      write := [];
      if shouldStart {
        write := PumpQueue();
      }
    }

    method OnWritten(ok: bool) returns (write: seq<Item>)
      requires inFlight > 0
      modifies this
      ensures View() == Apply(old(View()), Completed(ok)) && issued == old(issued) + write
      ensures closing ==> queue == old(queue) && write == []
      ensures !closing ==> |queue| == if old(queue) == [] then 0 else |old(queue)| - 1
      ensures write == if !closing && ok && stream && |old(queue)| > 1 then [old(queue)[1]] else []
    {
      inFlight := inFlight - 1;
      failed := !ok;
      write := [];
      if closing {
        return;
      }
      if queue != [] {
        queue := queue[1..];
        popped := popped + 1;
      }
      if !ok {
        inProgress := false;
        return;
      }
      write := PumpQueue();
    }

    method ShutdownOnStrand()
      requires closing
      modifies this`queue, this`inProgress
      ensures View() == Apply(old(View()), Shutdown) && queue == [] && !inProgress
    {
      queue := [];
      inProgress := false;
    }
  }
}
