/** The Socket.IO parser: one packet becomes a text frame and one binary frame per
    attachment, and a decoder that sees one frame at a time puts packets back together. */
module JsonParser {
  import opened Options
  import opened Json
  import opened PacketText

  datatype Frame = Text(text: string) | Attachment(bytes: Bytes)

  // ----- Encoding -----

  predicate CarriesBinary(t: PacketType) {
    t.Event? || t.BinaryEvent? || t.Ack? || t.BinaryAck?
  }

  /** The type a packet is sent with: binary exactly when it has attachments. */
  function SentType(t: PacketType, attachments: int): PacketType {
    if attachments == 0 then
      if t.BinaryEvent? then Event else if t.BinaryAck? then Ack else t
    else
      if t.Event? then BinaryEvent else if t.Ack? then BinaryAck else t
  }

  function Attachments(p: Packet): seq<Bytes> {
    if CarriesBinary(p.kind) then Deconstruct(p.data, 0).1 else []
  }

  /** The packet whose header is printed. */
  function Outgoing(p: Packet): Packet {
    var n := |Attachments(p)|;
    Packet(SentType(p.kind, n), p.nsp, p.id, if CarriesBinary(p.kind) then Deconstruct(p.data, 0).0 else p.data, n)
  }

  /** Nothing when there are more attachments than an `int` can count: std::length_error. */
  function Encode(codec: Codec, p: Packet): Option<seq<Frame>> {
    var attachments := Attachments(p);
    if |attachments| > INT_MAX then None
    else
      Some([Text(HeaderText(codec, Outgoing(p)))] + AttachmentFrames(attachments))
  }

  function AttachmentFrames(attachments: seq<Bytes>): (r: seq<Frame>)
    ensures |r| == |attachments|
    ensures forall i :: 0 <= i < |r| ==> r[i] == Attachment(attachments[i])
  {
    seq(|attachments|, i requires 0 <= i < |attachments| => Attachment(attachments[i]))
  }

  /** Writing the frames one after the other. */
  method EncodeFrames(codec: Codec, p: Packet) returns (ok: bool, frames: seq<Frame>)
    ensures ok <==> Encode(codec, p).Some?
    ensures ok ==> frames == Encode(codec, p).value
    ensures ok <==> LeafCount(p) <= 0x7fff_ffff
    ensures ok ==> |frames| == 1 + LeafCount(p) && frames[0].Text? && frames[0].text != ""
    ensures ok ==> TypeDigit(Expected(p).kind, frames[0].text[0])
    ensures ok ==> forall i :: 0 <= i < LeafCount(p) ==> frames[1..][i] == Attachment(Leaves(p.data)[i])
  {
    var (data, attachments) := if CarriesBinary(p.kind) then Deconstruct(p.data, 0) else (p.data, []);
    ExpectedIsSent(p);
    if |attachments| > INT_MAX {
      return false, [];
    }
    var out := Packet(SentType(p.kind, |attachments|), p.nsp, p.id, data, |attachments|);
    frames := [Text(HeaderText(codec, out))];
    var i := 0;
    while i < |attachments|
      invariant 0 <= i <= |attachments| && |frames| == 1 + i
      invariant frames[0] == Text(HeaderText(codec, out))
      invariant forall k :: 0 <= k < i ==> frames[1 + k] == Attachment(attachments[k])
    {
      frames := frames + [Attachment(attachments[i])];
      i := i + 1;
    }
    assert frames == Encode(codec, p).value;
    FramesOf(codec, p);
    ok := true;
  }

  // ----- Decoding -----

  datatype Decoder = Decoder(pending: Option<Packet>, received: seq<Bytes>)

  const Idle := Decoder(None, [])

  /** A header that waits: it still lacks attachments, and its placeholders are the numbers
      below its count, each once. */
  predicate Waiting(p: Packet, received: nat) {
    && IsBinary(p.kind) && received < p.attachments <= INT_MAX
    && IsPermutation(Slots(p.data), p.attachments)
    && p.nsp != "" && p.nsp[0] == '/' && ',' !in p.nsp
  }

  predicate Consistent(d: Decoder) {
    match d.pending
    case None => d.received == []
    case Some(p) => Waiting(p, |d.received|)
  }

  datatype Outcome = Outcome(next: Decoder, result: Option<Packet>)

  /** A text frame: whatever was pending is forgotten. */
  function DecodeText(codec: Codec, text: string): Outcome {
    match ReadHeader(codec, text)
    case None => Outcome(Idle, None)
    case Some(p) =>
      if !IsBinary(p.kind) then Outcome(Idle, Some(p))
      else if HasValidPlaceholders(p.data, p.attachments) then Outcome(Decoder(Some(p), []), None)
      else Outcome(Idle, None)
  }

  function DecodeAttachment(d: Decoder, bytes: Bytes): Outcome
    requires Consistent(d)
  {
    match d.pending
    case None => Outcome(Idle, None)
    case Some(p) =>
      var received := d.received + [bytes];
      if |received| < p.attachments then Outcome(Decoder(Some(p), received), None)
      else
        PermutationIsDistinct(Slots(p.data), p.attachments);
        Outcome(Idle, Some(p.(data := Reconstruct(p.data, received))))
  }

  function DecodeFrame(codec: Codec, d: Decoder, frame: Frame): Outcome
    requires Consistent(d)
  {
    match frame
    case Text(text) => DecodeText(codec, text)
    case Attachment(bytes) => DecodeAttachment(d, bytes)
  }

  /** What a header does, from any state: one without attachments is a whole packet; one with
      attachments yields nothing and waits exactly when its placeholders are the numbers below
      its count, each once; and a text that is no header leaves nothing behind. */
  lemma HeaderDecoded(codec: Codec, d: Decoder, text: string)
    requires Consistent(d)
    ensures
      var step := DecodeFrame(codec, d, Text(text));
      match ReadHeader(codec, text)
      case None => step == Outcome(Decoder(None, []), None)
      case Some(p) =>
        if p.kind == BinaryEvent || p.kind == BinaryAck then
          && step.result == None && step.next.received == []
          && step.next.pending == (if IsPermutation(Slots(p.data), p.attachments) then Some(p) else None)
        else step == Outcome(Decoder(None, []), Some(p))
  {
    if ReadHeader(codec, text).Some? {
      var p := ReadHeader(codec, text).value;
      ReadHeaderShape(codec, text);
      ValidIffPermutation(p.data, p.attachments);
    }
  }

  /** What an attachment does: without a waiting header nothing; otherwise it is kept, behind the
      others, until the last one completes the packet. */
  lemma AttachmentDecoded(codec: Codec, d: Decoder, bytes: Bytes)
    requires Consistent(d)
    ensures
      var step := DecodeFrame(codec, d, Attachment(bytes));
      match d.pending
      case None => step == Outcome(d, None)
      case Some(p) =>
        if |d.received| + 1 < p.attachments then
          step == Outcome(Decoder(Some(p), d.received + [bytes]), None)
        else
          && step.next == Decoder(None, []) && step.result.Some?
          && step.result.value == p.(data := step.result.value.data)
  {
  }

  /** Every frame keeps the decoder consistent, so the unchecked indexing of attachments is
      always in range. */
  lemma DecodeKeepsConsistent(codec: Codec, d: Decoder, frame: Frame)
    requires Consistent(d)
    ensures Consistent(DecodeFrame(codec, d, frame).next)
  {
    if frame.Text? && ReadHeader(codec, frame.text).Some? {
      var p := ReadHeader(codec, frame.text).value;
      ReadHeaderShape(codec, frame.text);
      ValidIffPermutation(p.data, p.attachments);
    }
  }

  datatype Stream = Stream(last: Decoder, packets: seq<Packet>)

  function Emitted(result: Option<Packet>): seq<Packet> {
    match result
    case None => []
    case Some(p) => [p]
  }

  /** All packets a stream of frames yields. */
  function DecodeStream(codec: Codec, d: Decoder, frames: seq<Frame>): Stream
    requires Consistent(d)
    decreases |frames|
  {
    if frames == [] then Stream(d, [])
    else
      DecodeKeepsConsistent(codec, d, frames[0]);
      var step := DecodeFrame(codec, d, frames[0]);
      var rest := DecodeStream(codec, step.next, frames[1..]);
      Stream(rest.last, Emitted(step.result) + rest.packets)
  }

  /** For every stream from a fresh decoder, a waiting header lacks attachments and its
      placeholders are a permutation of 0 to n-1. */
  lemma {:induction false} StreamConsistent(codec: Codec, d: Decoder, frames: seq<Frame>)
    requires Consistent(d)
    ensures Consistent(DecodeStream(codec, d, frames).last)
    decreases |frames|
  {
    if frames != [] {
      DecodeKeepsConsistent(codec, d, frames[0]);
      StreamConsistent(codec, DecodeFrame(codec, d, frames[0]).next, frames[1..]);
    }
  }

  lemma {:induction false} StreamConcat(codec: Codec, d: Decoder, a: seq<Frame>, b: seq<Frame>)
    requires Consistent(d)
    ensures Consistent(DecodeStream(codec, d, a).last)
    ensures
      var first := DecodeStream(codec, d, a);
      var second := DecodeStream(codec, first.last, b);
      DecodeStream(codec, d, a + b) == Stream(second.last, first.packets + second.packets)
    decreases |a|
  {
    hide DecodeFrame, Consistent, Emitted;
    StreamConsistent(codec, d, a);
    if a == [] {
      assert a + b == b;
    } else {
      assert (a + b)[0] == a[0] && (a + b)[1..] == a[1..] + b;
      DecodeKeepsConsistent(codec, d, a[0]);
      var step := DecodeFrame(codec, d, a[0]);
      StreamConcat(codec, step.next, a[1..], b);
      var first := DecodeStream(codec, step.next, a[1..]);
      var second := DecodeStream(codec, first.last, b);
      assert DecodeStream(codec, d, a) == Stream(first.last, Emitted(step.result) + first.packets);
      assert Emitted(step.result) + (first.packets + second.packets)
          == (Emitted(step.result) + first.packets) + second.packets;
    }
  }

  /** A text frame erases the past: the decoder may as well be new. */
  lemma TextForgets(codec: Codec, d: Decoder, frames: seq<Frame>)
    requires Consistent(d) && frames != [] && frames[0].Text?
    ensures DecodeStream(codec, d, frames) == DecodeStream(codec, Idle, frames)
  {
  }

  /** The frames cut before each text frame. */
  function Segments(frames: seq<Frame>): seq<seq<Frame>> {
    if frames == [] then []
    else
      var rest := Segments(frames[1..]);
      if rest == [] || frames[1].Text? then [[frames[0]]] + rest
      else [[frames[0]] + rest[0]] + rest[1..]
  }

  function Flatten(segments: seq<seq<Frame>>): seq<Frame> {
    if segments == [] then [] else segments[0] + Flatten(segments[1..])
  }

  /** Each segment decoded on its own by a new parser. */
  function DecodeSegments(codec: Codec, segments: seq<seq<Frame>>): seq<Packet> {
    if segments == [] then []
    else DecodeStream(codec, Idle, segments[0]).packets + DecodeSegments(codec, segments[1..])
  }

  /** Segments are not empty and all but the first start with a text frame; together they are
      the stream. */
  lemma {:induction false} SegmentsCover(frames: seq<Frame>)
    ensures Flatten(Segments(frames)) == frames
    ensures forall k :: 0 <= k < |Segments(frames)| ==> Segments(frames)[k] != []
    ensures forall k :: 1 <= k < |Segments(frames)| ==> Segments(frames)[k][0].Text?
    ensures frames != [] ==> Segments(frames) != [] && Segments(frames)[0][0] == frames[0]
  {
    if frames != [] {
      SegmentsCover(frames[1..]);
      var rest := Segments(frames[1..]);
      var all := Segments(frames);
      if rest == [] || frames[1].Text? {
        assert all[0] == [frames[0]] && all[1..] == rest;
      } else {
        assert all[0] == [frames[0]] + rest[0] && all[1..] == rest[1..];
        assert [frames[0]] + (rest[0] + Flatten(rest[1..])) == all[0] + Flatten(all[1..]);
      }
      assert frames == [frames[0]] + frames[1..];
    }
  }

  lemma {:induction false} SegmentsIndependent(codec: Codec, d: Decoder, segments: seq<seq<Frame>>)
    requires Consistent(d)
    requires forall k :: 0 <= k < |segments| ==> segments[k] != [] && segments[k][0].Text?
    ensures DecodeStream(codec, d, Flatten(segments)).packets == DecodeSegments(codec, segments)
    decreases |segments|
  {
    if segments != [] {
      var rest := Flatten(segments[1..]);
      StreamConcat(codec, d, segments[0], rest);
      TextForgets(codec, d, segments[0]);
      SegmentsIndependent(codec, DecodeStream(codec, d, segments[0]).last, segments[1..]);
    }
  }

  /** The result of any stream is that of its text-led segments decoded independently. */
  lemma StreamIsItsSegments(codec: Codec, frames: seq<Frame>)
    ensures DecodeStream(codec, Idle, frames).packets == DecodeSegments(codec, Segments(frames))
  {
    SegmentsCover(frames);
    var all := Segments(frames);
    if all != [] {
      StreamConcat(codec, Idle, all[0], Flatten(all[1..]));
      SegmentsIndependent(codec, DecodeStream(codec, Idle, all[0]).last, all[1..]);
    }
  }

  // ----- Round trip -----

  /** The attachments a packet is sent with: one for each binary leaf of an event or ack. */
  function LeafCount(p: Packet): nat {
    match p.kind
    case Event => |Leaves(p.data)|
    case BinaryEvent => |Leaves(p.data)|
    case Ack => |Leaves(p.data)|
    case BinaryAck => |Leaves(p.data)|
    case Connect => 0
    case Disconnect => 0
    case ConnectError => 0
  }

  /** The kind a packet arrives as: the binary form exactly when there is a binary leaf. */
  function KindOnWire(kind: PacketType, leaves: bool): PacketType {
    match kind
    case Event => if leaves then BinaryEvent else Event
    case BinaryEvent => if leaves then BinaryEvent else Event
    case Ack => if leaves then BinaryAck else Ack
    case BinaryAck => if leaves then BinaryAck else Ack
    case Connect => Connect
    case Disconnect => Disconnect
    case ConnectError => ConnectError
  }

  /** What a decoder should make of an encoded packet. */
  function Expected(p: Packet): Packet {
    Packet(KindOnWire(p.kind, Leaves(p.data) != []), if p.nsp == "" then "/" else p.nsp, if p.id < 0 then -1 else p.id,
           p.data, LeafCount(p))
  }

  /** The same in the encoder's own terms. */
  function Sent(p: Packet): Packet {
    var n := |Attachments(p)|;
    Packet(SentType(p.kind, n), NormalNamespace(p.nsp), NormalId(p.id), p.data, n)
  }

  lemma ExpectedIsSent(p: Packet)
    ensures |Attachments(p)| == LeafCount(p) && Expected(p) == Sent(p)
  {
    DeconstructLeaves(p.data, 0);
  }

  /** The frames of a packet: a text that begins with the digit of the kind it arrives as, then
      the binary leaves in order. */
  lemma {:induction false} FramesOf(codec: Codec, p: Packet)
    requires Encode(codec, p).Some?
    ensures
      var frames := Encode(codec, p).value;
      && |frames| == 1 + LeafCount(p)
      && frames[0].Text? && frames[0].text != "" && TypeDigit(Expected(p).kind, frames[0].text[0])
      && forall i :: 0 <= i < LeafCount(p) ==> frames[1..][i] == Attachment(Leaves(p.data)[i])
  {
    var text := EncodedText(codec, p);
    ExpectedIsSent(p);
    AttachmentsAreLeaves(p);
    hide Encode, Expected, LeafCount, Attachments, Sent, TypeDigit;
  }

  lemma {:induction false} EncodedText(codec: Codec, p: Packet) returns (text: string)
    requires Encode(codec, p).Some?
    ensures text != "" && TypeDigit(Outgoing(p).kind, text[0])
    ensures
      var frames, attachments := Encode(codec, p).value, Attachments(p);
      && frames != [] && frames[0] == Text(text) && frames[1..] == AttachmentFrames(attachments)
  {
    text := HeaderText(codec, Outgoing(p));
    FirstDigit(codec, Outgoing(p));
    hide HeaderText, Attachments, Outgoing, TypeDigit, Deconstruct;
  }

  lemma AttachmentsAreLeaves(p: Packet)
    ensures |Attachments(p)| == LeafCount(p)
    ensures forall i :: 0 <= i < LeafCount(p) ==> Attachments(p)[i] == Leaves(p.data)[i]
    ensures Outgoing(p).kind == Sent(p).kind
  {
    DeconstructLeaves(p.data, 0);
  }

  /** The packets the encoder accepts: well-formed JSON, an id that is an `int`, and no more
      attachments than an `int` can count. */
  predicate Encodable(p: Packet) {
    WellFormed(p.data) && p.id <= INT_MAX && |Attachments(p)| <= INT_MAX
  }

  /** The packets whose text says what they mean: a namespace a header can carry, binary leaves
      only in events and acks, data that is not a bare number without a sign and, beside
      attachments, no object that looks like a placeholder. */
  predicate Expressible(codec: Codec, p: Packet) {
    && NamespaceOk(p.nsp) && !Swallowed(codec, p.data)
    && (CarriesBinary(p.kind) || Leaves(p.data) == [])
    && (Attachments(p) != [] ==> NoPlaceholder(p.data))
  }

  lemma OutgoingPlain(codec: Codec, p: Packet)
    requires Encodable(p) && (CarriesBinary(p.kind) || Leaves(p.data) == [])
    ensures Plain(Outgoing(p).data) && Attachments(p) == Leaves(p.data)
    ensures Swallowed(codec, Outgoing(p).data) <==> Swallowed(codec, p.data)
  {
    DeconstructLeaves(p.data, 0);
    if CarriesBinary(p.kind) {
      DeconstructWellFormed(p.data, 0);
    }
  }

  lemma {:induction false} UnchangedWithoutLeaves(j: Json, n: nat)
    requires Leaves(j) == []
    ensures Deconstruct(j, n) == (j, [])
    decreases j, 1
  {
    if j.Node? {
      UnchangedAllWithoutLeaves(j.children, n);
    }
  }

  lemma {:induction false} UnchangedAllWithoutLeaves(js: seq<Json>, n: nat)
    requires AllLeaves(js) == []
    ensures DeconstructAll(js, n) == (js, [])
    decreases js, 0
  {
    if js != [] {
      UnchangedWithoutLeaves(js[0], n);
      UnchangedAllWithoutLeaves(js[1..], n);
      assert js == [js[0]] + js[1..];
    }
  }

  /** A waiting header whose first `k` attachments have arrived: the rest completes it on the
      last frame and not before. */
  lemma {:induction false} AttachmentsComplete(codec: Codec, p: Packet, all: seq<Bytes>, k: nat)
    requires k < |all| == p.attachments && Waiting(p, k)
    ensures InRange(Slots(p.data), |all|)
    ensures
      var d := Decoder(Some(p), all[..k]);
      var frames := AttachmentFrames(all[k..]);
      && DecodeStream(codec, d, frames) == Stream(Idle, [p.(data := Reconstruct(p.data, all))])
      && DecodeStream(codec, d, frames[..|frames| - 1]).packets == []
    decreases |all| - k
  {
    PermutationIsDistinct(Slots(p.data), p.attachments);
    var d := Decoder(Some(p), all[..k]);
    var frames := AttachmentFrames(all[k..]);
    assert all[..k] + [all[k]] == all[..k + 1];
    assert frames[0] == Attachment(all[k]);
    if k + 1 == |all| {
      assert all[..k + 1] == all;
      assert frames[1..] == [];
    } else {
      AttachmentsComplete(codec, p, all, k + 1);
      assert all[k..][1..] == all[k + 1..];
      assert frames[1..] == AttachmentFrames(all[k + 1..]);
      assert frames[..|frames| - 1][1..] == frames[1..][..|frames| - 2];
      assert frames[..|frames| - 1][0] == frames[0];
    }
  }

  /** The value of the header as the decoder reads it. */
  lemma HeaderArrives(codec: Codec, p: Packet)
    requires Faithful(codec) && Encodable(p) && NamespaceOk(p.nsp) && !Swallowed(codec, p.data)
    requires CarriesBinary(p.kind) || Leaves(p.data) == []
    ensures ReadHeader(codec, HeaderText(codec, Outgoing(p)))
         == Some(Sent(p).(data := Outgoing(p).data))
  {
    OutgoingPlain(codec, p);
    HeaderRoundTrip(codec, Outgoing(p));
  }

  lemma PlainRoundTrip(codec: Codec, p: Packet)
    requires Faithful(codec) && Encodable(p) && Expressible(codec, p) && Attachments(p) == []
    ensures DecodeText(codec, HeaderText(codec, Outgoing(p))) == Outcome(Idle, Some(Sent(p)))
  {
    HeaderArrives(codec, p);
    OutgoingPlain(codec, p);
    UnchangedWithoutLeaves(p.data, 0);
  }

  lemma BinaryHeaderArrives(codec: Codec, p: Packet)
    requires Faithful(codec) && Encodable(p) && Expressible(codec, p) && Attachments(p) != []
    ensures
      var header := Sent(p).(data := Outgoing(p).data);
      && DecodeText(codec, HeaderText(codec, Outgoing(p))) == Outcome(Decoder(Some(header), []), None)
      && Waiting(header, 0)
  {
    HeaderArrives(codec, p);
    DeconstructSlots(p.data, 0);
    var header := Sent(p).(data := Outgoing(p).data);
    ReadHeaderShape(codec, HeaderText(codec, Outgoing(p)));
    forall i | 0 <= i < header.attachments
      ensures i in Slots(header.data)
    {
      assert Slots(header.data)[i] == i;
    }
    ValidIffPermutation(header.data, header.attachments);
  }

  /** A frame that yields nothing, in front of others. */
  lemma SilentFirst(codec: Codec, d: Decoder, first: Frame, rest: seq<Frame>, next: Decoder)
    requires Consistent(d) && DecodeFrame(codec, d, first) == Outcome(next, None) && rest != []
    ensures Consistent(next)
    ensures
      var frames := [first] + rest;
      && DecodeStream(codec, d, frames) == DecodeStream(codec, next, rest)
      && DecodeStream(codec, d, frames[..|frames| - 1]).packets
           == DecodeStream(codec, next, rest[..|rest| - 1]).packets
  {
    DecodeKeepsConsistent(codec, d, first);
    hide DecodeFrame, Consistent;
    var frames := [first] + rest;
    assert frames[0] == first && frames[1..] == rest;
    var most := frames[..|frames| - 1];
    assert most[0] == first && most[1..] == rest[..|rest| - 1];
  }

  lemma PlainTrip(codec: Codec, d: Decoder, p: Packet)
    requires Faithful(codec) && Consistent(d) && Encodable(p) && Expressible(codec, p) && Attachments(p) == []
    ensures Encode(codec, p).Some?
    ensures
      var frames := Encode(codec, p).value;
      && DecodeStream(codec, d, frames) == Stream(Idle, [Expected(p)])
      && DecodeStream(codec, d, frames[..|frames| - 1]).packets == []
  {
    ExpectedIsSent(p);
    PlainRoundTrip(codec, p);
    hide Faithful, HeaderText, ReadHeader, DecodeText, Expected, Expressible;
    var text := HeaderText(codec, Outgoing(p));
    assert Encode(codec, p).value == [Text(text)];
    assert [Text(text)][1..] == [] && [Text(text)][..0] == [];
  }

  lemma BinaryTrip(codec: Codec, d: Decoder, p: Packet)
    requires Faithful(codec) && Consistent(d) && Encodable(p) && Expressible(codec, p) && Attachments(p) != []
    ensures Encode(codec, p).Some?
    ensures
      var frames := Encode(codec, p).value;
      && DecodeStream(codec, d, frames) == Stream(Idle, [Expected(p)])
      && DecodeStream(codec, d, frames[..|frames| - 1]).packets == []
  {
    var all, header := Attachments(p), Sent(p).(data := Outgoing(p).data);
    ExpectedIsSent(p);
    BinaryHeaderArrives(codec, p);
    AttachmentsComplete(codec, header, all, 0);
    ReconstructInverts(p.data, 0, all);
    assert all[0..] == all && all[..0] == [];
    var first := Text(HeaderText(codec, Outgoing(p)));
    assert Encode(codec, p).value == [first] + AttachmentFrames(all);
    hide Faithful, HeaderText, DecodeText, Waiting, Expected, Expressible, Encodable, Encode, Attachments, DecodeStream;
    SilentFirst(codec, d, first, AttachmentFrames(all), Decoder(Some(header), []));
  }

  /** The whole trip: from any state of the decoder, the frames of a packet give that packet
      back on the last frame and nothing before it. */
  lemma RoundTrip(codec: Codec, d: Decoder, p: Packet)
    requires Faithful(codec) && Consistent(d) && Encodable(p) && Expressible(codec, p)
    ensures Encode(codec, p).Some?
    ensures
      var frames := Encode(codec, p).value;
      && DecodeStream(codec, d, frames) == Stream(Idle, [Expected(p)])
      && DecodeStream(codec, d, frames[..|frames| - 1]).packets == []
  {
    hide *;
    if Attachments(p) == [] {
      PlainTrip(codec, d, p);
    } else {
      BinaryTrip(codec, d, p);
    }
  }

  // ----- The conditions are necessary -----

  /** Every packet a decoder yields has a namespace a header can carry and, if it is binary,
      no placeholder left, otherwise no binary leaf. */
  predicate Genuine(p: Packet) {
    && p.nsp != "" && p.nsp[0] == '/' && ',' !in p.nsp
    && (if IsBinary(p.kind) then NoPlaceholder(p.data) else Leaves(p.data) == [])
  }

  lemma FrameYieldsGenuine(codec: Codec, d: Decoder, frame: Frame)
    requires Faithful(codec) && Consistent(d) && DecodeFrame(codec, d, frame).result.Some?
    ensures Genuine(DecodeFrame(codec, d, frame).result.value)
  {
    match frame
    case Text(text) => ReadHeaderShape(codec, text);
    case Attachment(bytes) =>
      var p := d.pending.value;
      PermutationIsDistinct(Slots(p.data), p.attachments);
      ReconstructClears(p.data, d.received + [bytes]);
  }

  lemma {:induction false} StreamYieldsGenuine(codec: Codec, d: Decoder, frames: seq<Frame>)
    requires Faithful(codec) && Consistent(d)
    ensures forall p :: p in DecodeStream(codec, d, frames).packets ==> Genuine(p)
    decreases |frames|
  {
    if frames != [] {
      DecodeKeepsConsistent(codec, d, frames[0]);
      if DecodeFrame(codec, d, frames[0]).result.Some? {
        FrameYieldsGenuine(codec, d, frames[0]);
      }
      StreamYieldsGenuine(codec, DecodeFrame(codec, d, frames[0]).next, frames[1..]);
    }
  }

  lemma OneText(codec: Codec, d: Decoder, text: string)
    requires Consistent(d)
    ensures DecodeStream(codec, d, [Text(text)]).packets == Emitted(DecodeText(codec, text).result)
  {
    var frames := [Text(text)];
    assert frames[1..] == [];
  }

  lemma NumberDoesNotSurvive(codec: Codec, d: Decoder, p: Packet)
    requires Faithful(codec) && Consistent(d) && Encodable(p) && NamespaceOk(p.nsp) && Swallowed(codec, p.data)
    ensures DecodeStream(codec, d, Encode(codec, p).value).packets != [Expected(p)]
  {
    hide Faithful, HeaderText, ReadHeader;
    OutgoingPlain(codec, p);
    NumberIsLost(codec, Outgoing(p));
    var text := HeaderText(codec, Outgoing(p));
    assert Encode(codec, p).value == [Text(text)];
    OneText(codec, d, text);
    assert [Expected(p)][0].data == p.data;
  }

  /** A packet the encoder accepts survives the trip exactly when it is expressible. */
  lemma RoundTripIff(codec: Codec, d: Decoder, p: Packet)
    requires Faithful(codec) && Consistent(d) && Encodable(p)
    ensures
      DecodeStream(codec, d, Encode(codec, p).value).packets == [Expected(p)] <==> Expressible(codec, p)
  {
    ExpectedIsSent(p);
    hide Expected;
    if Expressible(codec, p) {
      RoundTrip(codec, d, p);
    } else if NamespaceOk(p.nsp) && Swallowed(codec, p.data) {
      NumberDoesNotSurvive(codec, d, p);
    } else {
      StreamYieldsGenuine(codec, d, Encode(codec, p).value);
      assert !Genuine(Expected(p));
      assert Expected(p) in [Expected(p)];
    }
  }

  /** An object of the application that looks like a placeholder. */
  function Lookalike(inner: Json): Json {
    Node(Keyed(["_placeholder", "num", "x"]), [Bool(true), Int(0), inner])
  }

  lemma LookalikeKeys(inner: Json)
    ensures IsPlaceholder(Lookalike(inner)) && PlaceholderIndex(Lookalike(inner)) == 0
    ensures KeysFit(Lookalike(inner).keys, 3)
  {
    var names := ["_placeholder", "num", "x"];
    assert names[1..][0] == "num" && KeyIndex(names[1..], "num") == 0;
    assert StringLess("_placeholder", "num") && StringLess("num", "x") && StringLess("_placeholder", "x");
  }

  lemma ThreeLeaves(a: Json, b: Json, c: Json)
    ensures AllLeaves([a, b, c]) == Leaves(a) + (Leaves(b) + Leaves(c))
  {
    assert [a, b, c][1..] == [b, c] && [b, c][1..] == [c] && [c][1..] == [];
    assert AllLeaves([c]) == Leaves(c);
    assert AllLeaves([b, c]) == Leaves(b) + Leaves(c);
  }

  lemma ThreeWellFormed(a: Json, b: Json, c: Json)
    requires WellFormed(a) && WellFormed(b) && WellFormed(c)
    ensures AllWellFormed([a, b, c])
  {
    assert [a, b, c][1..] == [b, c] && [b, c][1..] == [c] && [c][1..] == [];
    assert AllWellFormed([c]);
    assert AllWellFormed([b, c]);
  }

  lemma ThreeDeconstructed(a: Json, b: Json, c: Json)
    requires Deconstruct(a, 0) == (a, []) && Deconstruct(b, 0) == (b, [])
    ensures DeconstructAll([a, b, c], 0).0 == [a, b, Deconstruct(c, 0).0]
  {
    assert [a, b, c][1..] == [b, c] && [b, c][1..] == [c] && [c][1..] == [];
    assert DeconstructAll([c], 0).0 == [Deconstruct(c, 0).0];
    assert DeconstructAll([b, c], 0).0 == [b, Deconstruct(c, 0).0];
  }

  /** The packet of the next lemma. */
  function LookalikePacket(bytes: Bytes): Packet {
    Packet(Event, "/", -1, Lookalike(Binary(bytes)), 0)
  }

  lemma LookalikeEncoded(bytes: Bytes)
    ensures
      var p := LookalikePacket(bytes);
      && Encodable(p) && Attachments(p) == [bytes] && Outgoing(p).data == Lookalike(Placeholder(0))
      && Slots(Outgoing(p).data) == [0]
  {
    var p := LookalikePacket(bytes);
    var b := Binary(bytes);
    LookalikeKeys(b);
    LookalikeKeys(Placeholder(0));
    ThreeLeaves(Bool(true), Int(0), b);
    ThreeWellFormed(Bool(true), Int(0), b);
    ThreeDeconstructed(Bool(true), Int(0), b);
    DeconstructLeaves(p.data, 0);
  }

  function LookalikeSent(): Packet {
    Packet(BinaryEvent, "/", -1, Lookalike(Placeholder(0)), 1)
  }

  lemma LookalikeHeader(codec: Codec, bytes: Bytes)
    requires Faithful(codec)
    ensures
      var p := LookalikePacket(bytes);
      var header := LookalikeSent();
      && DecodeText(codec, HeaderText(codec, Outgoing(p))) == Outcome(Decoder(Some(header), []), None)
      && Waiting(header, 0) && InRange(Slots(header.data), 1)
      && Reconstruct(header.data, [bytes]) == Binary(bytes)
      && Sent(p).(data := header.data) == header
  {
    var p := LookalikePacket(bytes);
    LookalikeEncoded(bytes);
    HeaderArrives(codec, p);
    LookalikeKeys(Placeholder(0));
    var slots := Slots(LookalikeSent().data);
    assert 0 in slots;
    ValidIffPermutation(LookalikeSent().data, 1);
  }

  /** One such object with a binary member is not even rejected: it is silently replaced by
      the bytes of its member. */
  lemma LookalikeIsReplaced(codec: Codec, d: Decoder, bytes: Bytes)
    requires Faithful(codec) && Consistent(d)
    ensures
      var p := LookalikePacket(bytes);
      && Encodable(p) && Attachments(p) == [bytes] && p.data != Binary(bytes)
      && DecodeStream(codec, d, Encode(codec, p).value).packets == [Expected(p).(data := Binary(bytes))]
  {
    hide Faithful, Slots, Encodable, HeaderText, ReadHeader, Attachments, Expected, Sent;
    var p := LookalikePacket(bytes);
    ExpectedIsSent(p);
    LookalikeEncoded(bytes);
    LookalikeHeader(codec, bytes);
    var header := LookalikeSent();
    AttachmentsComplete(codec, header, [bytes], 0);
    var frames := [Text(HeaderText(codec, Outgoing(p)))] + AttachmentFrames([bytes]);
    assert [bytes][0..] == [bytes] && [bytes][..0] == [];
    assert frames[0] == Text(HeaderText(codec, Outgoing(p))) && frames[1..] == AttachmentFrames([bytes]);
  }

  // ----- Where attachments end up -----

  predicate PlainPending(d: Decoder) {
    d.pending.Some? ==> Leaves(d.pending.value.data) == []
  }

  lemma {:induction false} StreamKeepsPlain(codec: Codec, d: Decoder, frames: seq<Frame>)
    requires Faithful(codec) && Consistent(d) && PlainPending(d)
    ensures PlainPending(DecodeStream(codec, d, frames).last)
    decreases |frames|
  {
    if frames != [] {
      DecodeKeepsConsistent(codec, d, frames[0]);
      if frames[0].Text? && ReadHeader(codec, frames[0].text).Some? {
        ReadHeaderShape(codec, frames[0].text);
      }
      StreamKeepsPlain(codec, DecodeFrame(codec, d, frames[0]).next, frames[1..]);
    }
  }

  /** After any stream, a frame that completes a header puts every attachment into exactly one
      place, the one its number names; nothing else is binary and no placeholder remains. */
  lemma CompletionPlacesEachOnce(codec: Codec, frames: seq<Frame>, bytes: Bytes)
    requires Faithful(codec)
    ensures
      var d := DecodeStream(codec, Idle, frames).last;
      && Consistent(d)
      && var step := DecodeFrame(codec, d, Attachment(bytes));
         step.result.Some? ==>
           var header := d.pending.value;
           var all := d.received + [bytes];
           && IsPermutation(Slots(header.data), |all|) && InRange(Slots(header.data), |all|)
           && Leaves(step.result.value.data) == Pick(all, Slots(header.data))
           && NoPlaceholder(step.result.value.data)
  {
    var d := DecodeStream(codec, Idle, frames).last;
    StreamConsistent(codec, Idle, frames);
    StreamKeepsPlain(codec, Idle, frames);
    if DecodeFrame(codec, d, Attachment(bytes)).result.Some? {
      var header := d.pending.value;
      PermutationIsDistinct(Slots(header.data), header.attachments);
      ReconstructLeaves(header.data, d.received + [bytes]);
      ReconstructClears(header.data, d.received + [bytes]);
    }
  }

  // ----- The parser object -----

  class Parser {
    const codec: Codec
    var pending: Option<Packet>
    var received: seq<Bytes>

    ghost predicate Valid()
      reads this
    {
      Consistent(State())
    }

    ghost function State(): Decoder
      reads this
    {
      Decoder(pending, received)
    }

    constructor (codec: Codec)
      ensures Valid() && this.codec == codec && State() == Idle
    {
      this.codec := codec;
      pending, received := None, [];
    }

    /** `decode`, with its scanning loops over one index. */
    method Decode(frame: Frame) returns (result: Option<Packet>)
      requires Valid()
      modifies this
      ensures Valid() && Outcome(State(), result) == DecodeFrame(codec, old(State()), frame)
    {
      DecodeKeepsConsistent(codec, State(), frame);
      if pending.Some? {
        if frame.Attachment? {
          received := received + [frame.bytes];
          var p := pending.value;
          if |received| < p.attachments {
            return None;
          }
          PermutationIsDistinct(Slots(p.data), p.attachments);
          result := Some(p.(data := Reconstruct(p.data, received)));
          pending, received := None, [];
          return;
        }
        pending, received := None, [];
      }
      if frame.Attachment? {
        return None;
      }
      var header := ScanHeader(frame.text);
      if header.None? {
        return None;
      }
      if !IsBinary(header.value.kind) {
        return header;
      }
      if HasValidPlaceholders(header.value.data, header.value.attachments) {
        pending := header;
      }
      return None;
    }

    /** The header scan: it reads what the functional description reads. */
    method ScanHeader(text: string) returns (r: Option<Packet>)
      ensures r == ReadHeader(codec, text)
    {
      if text == "" || !IsDigit(text[0]) || DigitValue(text[0]) > 6 {
        return None;
      }
      var kind := FromCode(DigitValue(text[0]));
      var i, count := 1, 0;
      if IsBinary(kind) {
        var dash := FindFrom(text, 1, '-');
        if dash == |text| {
          return None;
        }
        var n := ParseNonnegativeInt(text, 1, dash);
        assert text[1..][..dash - 1] == text[1..dash];
        if n.None? || n.value == 0 {
          return None;
        }
        i, count := dash + 1, n.value;
        assert text[1..][dash..] == text[i..];
      }
      r := ScanTail(text, i, kind, count);
    }

    method ScanNamespace(text: string, begin: nat) returns (nsp: string, i: nat)
      requires begin <= |text|
      ensures begin <= i <= |text| && ReadNamespace(text[begin..]) == Read(nsp, text[i..])
    {
      i, nsp := begin, "/";
      if i < |text| && text[i] == '/' {
        var comma := FindFrom(text, i, ',');
        nsp := text[i..comma];
        assert text[begin..][..comma - begin] == nsp;
        i := if comma == |text| then comma else comma + 1;
        assert comma < |text| ==> text[begin..][comma - begin + 1..] == text[i..];
        assert comma == |text| ==> text[begin..] == nsp;
      }
    }

    method ScanId(text: string, begin: nat) returns (id: Option<int>, i: nat)
      requires begin <= |text|
      ensures begin <= i <= |text|
      ensures ReadId(text[begin..]) == if id.None? then None else Some(Read(id.value, text[i..]))
    {
      i := begin;
      while i < |text| && IsDigit(text[i])
        invariant begin <= i <= |text| && AllDigits(text[begin..i])
      {
        assert text[begin..i + 1] == text[begin..i] + [text[i]];
        i := i + 1;
      }
      assert text[begin..][..i - begin] == text[begin..i] && text[begin..][i - begin..] == text[i..];
      DigitRunIs(text[begin..], i - begin);
      id := Some(-1);
      if i > begin {
        id := ParseNonnegativeInt(text, begin, i);
      }
    }

    method ScanTail(text: string, begin: nat, kind: PacketType, count: int) returns (r: Option<Packet>)
      requires begin <= |text|
      ensures r == ReadTail(codec, kind, count, text[begin..])
    {
      var nsp, i := ScanNamespace(text, begin);
      var id, j := ScanId(text, i);
      if id.None? {
        return None;
      }
      var data := Some(Null);
      if j < |text| {
        data := codec.parse(text[j..]);
      }
      return if data.None? then None else Some(Packet(kind, nsp, id.value, data.value, count));
    }
  }
}
