/** The HTTP long-polling wire format: a body is a batch of Engine.IO packets separated by the
    record separator, binary packets being written as 'b' and base64.  With the Engine.IO
    message prefix in between, it carries the parser's frames from end to end. */
module Polling {
  import opened Options
  import opened Json
  import opened PacketText
  import opened JsonParser
  import opened Sequences
  import Base64

  const SEPARATOR: char := 30 as char

  predicate Clean(packet: string) {
    packet != "" && SEPARATOR !in packet
  }

  // ----- Batches -----

  /** The pieces between separators, without the empty ones. */
  function Split(payload: string): seq<string>
    decreases |payload|
  {
    var k := FindChar(payload, SEPARATOR);
    var first := if k > 0 then [payload[..k]] else [];
    if k == |payload| then first else first + Split(payload[k + 1..])
  }

  lemma {:induction false} SplitStep(done: seq<string>, rest: string)
    ensures
      var k := FindChar(rest, SEPARATOR);
      var more := if k > 0 then done + [rest[..k]] else done;
      done + Split(rest) == if k == |rest| then more else more + Split(rest[k + 1..])
  {
    hide FindChar;
    var k := FindChar(rest, SEPARATOR);
    var first := if k > 0 then [rest[..k]] else [];
    AppendNothing(done);
    if k < |rest| {
      var later := Split(rest[k + 1..]);
      assert Split(rest) == first + later;
      hide Split;
      Associate(done, first, later);
    }
  }

  method SplitPayload(payload: string) returns (packets: seq<string>)
    ensures packets == Split(payload)
  {
    hide Split;
    packets := [];
    var begin := 0;
    assert payload[0..] == payload;
    while begin <= |payload|
      invariant 0 <= begin <= |payload|
      invariant packets + Split(payload[begin..]) == Split(payload)
    {
      var separator := FindFrom(payload, begin, SEPARATOR);
      ghost var rest := payload[begin..];
      SplitStep(packets, rest);
      assert rest[..separator - begin] == payload[begin..separator];
      if separator > begin {
        packets := packets + [payload[begin..separator]];
      }
      if separator == |payload| {
        break;
      }
      assert rest[separator - begin + 1..] == payload[separator + 1..];
      begin := separator + 1;
    }
  }

  lemma {:induction false} SplitIsClean(payload: string)
    ensures forall p :: p in Split(payload) ==> Clean(p)
    decreases |payload|
  {
    var k := FindChar(payload, SEPARATOR);
    assert k > 0 ==> Clean(payload[..k]);
    if k < |payload| {
      SplitIsClean(payload[k + 1..]);
    }
  }

  function Concat(packets: seq<string>): string {
    if packets == [] then "" else packets[0] + Concat(packets[1..])
  }

  lemma {:induction false} ConcatAppend(a: seq<string>, b: seq<string>)
    ensures Concat(a + b) == Concat(a) + Concat(b)
  {
    if a == [] {
      assert a + b == b;
    } else {
      assert (a + b)[0] == a[0] && (a + b)[1..] == a[1..] + b;
      ConcatAppend(a[1..], b);
    }
  }

  function WithoutSeparators(s: string): string {
    if s == "" then "" else (if s[0] == SEPARATOR then "" else [s[0]]) + WithoutSeparators(s[1..])
  }

  lemma {:induction false} WithoutSeparatorsAppend(a: string, b: string)
    ensures WithoutSeparators(a + b) == WithoutSeparators(a) + WithoutSeparators(b)
  {
    if a == "" {
      assert a + b == b;
    } else {
      assert (a + b)[0] == a[0] && (a + b)[1..] == a[1..] + b;
      WithoutSeparatorsAppend(a[1..], b);
    }
  }

  lemma {:induction false} NothingToRemove(s: string)
    requires SEPARATOR !in s
    ensures WithoutSeparators(s) == s
  {
    if s != "" {
      assert s[0] in s && forall c :: c in s[1..] ==> c in s;
      NothingToRemove(s[1..]);
      assert s == [s[0]] + s[1..];
    }
  }

  lemma ConcatFirst(payload: string)
    ensures
      var k := FindChar(payload, SEPARATOR);
      var first := if k > 0 then [payload[..k]] else [];
      Concat(first) == payload[..k] && WithoutSeparators(payload[..k]) == payload[..k]
  {
    var k := FindChar(payload, SEPARATOR);
    var piece := payload[..k];
    NothingToRemove(piece);
    assert k > 0 ==> [piece][1..] == [] && piece + "" == piece;
  }

  lemma RemoveOne(piece: string, rest: string)
    ensures WithoutSeparators(piece + ([SEPARATOR] + rest)) == WithoutSeparators(piece) + WithoutSeparators(rest)
  {
    WithoutSeparatorsAppend(piece, [SEPARATOR] + rest);
    assert ([SEPARATOR] + rest)[1..] == rest;
    assert "" + WithoutSeparators(rest) == WithoutSeparators(rest);
  }

  /** Splitting loses nothing but the separators. */
  lemma {:induction false} SplitConserves(payload: string)
    ensures Concat(Split(payload)) == WithoutSeparators(payload)
    decreases |payload|
  {
    hide Concat, WithoutSeparators;
    var k := FindChar(payload, SEPARATOR);
    var first := if k > 0 then [payload[..k]] else [];
    ConcatFirst(payload);
    if k == |payload| {
      assert payload == payload[..k];
    } else {
      var rest := payload[k + 1..];
      SplitConserves(rest);
      ConcatAppend(first, Split(rest));
      assert payload == payload[..k] + ([SEPARATOR] + rest);
      RemoveOne(payload[..k], rest);
    }
  }

  /** The batch a server writes: packets with a separator between neighbours. */
  function Join(packets: seq<string>): string {
    if packets == [] then ""
    else if |packets| == 1 then packets[0]
    else packets[0] + ([SEPARATOR] + Join(packets[1..]))
  }

  lemma SplitFirst(packet: string, rest: string)
    requires Clean(packet)
    ensures Split(packet) == [packet]
    ensures Split(packet + ([SEPARATOR] + rest)) == [packet] + Split(rest)
  {
    FindCharIs(packet, SEPARATOR, |packet|);
    assert packet[..|packet|] == packet;
    var whole := packet + ([SEPARATOR] + rest);
    FindCharIs(whole, SEPARATOR, |packet|);
    assert whole[..|packet|] == packet && whole[|packet| + 1..] == rest;
  }

  /** Splitting undoes joining. */
  lemma {:induction false} SplitInvertsJoin(packets: seq<string>)
    requires forall p :: p in packets ==> Clean(p)
    ensures Split(Join(packets)) == packets
  {
    if packets != [] {
      assert Clean(packets[0]);
      assert packets == [packets[0]] + packets[1..];
      if |packets| == 1 {
        SplitFirst(packets[0], "");
      } else {
        SplitFirst(packets[0], Join(packets[1..]));
        SplitInvertsJoin(packets[1..]);
      }
    }
  }

  // ----- One packet -----

  function EncodeBinary(b: Bytes): string {
    "b" + Base64.Encode(b)
  }

  function DecodeBinary(packet: string): Option<Bytes> {
    if packet != "" && packet[0] == 'b' then Base64.Decode(packet[1..]) else None
  }

  /** A frame as the Engine.IO layer and the transport put it on the wire. */
  function Wire(frame: Frame): string {
    match frame
    case Text(text) => "4" + text
    case Attachment(bytes) => EncodeBinary(bytes)
  }

  /** What the transport passes up for one packet of a batch: nothing for bad base64. */
  function Upward(packet: string): seq<Frame> {
    if packet != "" && packet[0] == 'b' then
      match DecodeBinary(packet)
      case None => []
      case Some(bytes) => [Attachment(bytes)]
    else [Text(packet)]
  }

  function UpwardAll(packets: seq<string>): seq<Frame> {
    if packets == [] then [] else Upward(packets[0]) + UpwardAll(packets[1..])
  }

  lemma {:induction false} UpwardAppend(a: seq<string>, b: seq<string>)
    ensures UpwardAll(a + b) == UpwardAll(a) + UpwardAll(b)
  {
    if a == [] {
      assert a + b == b;
    } else {
      assert (a + b)[0] == a[0] && (a + b)[1..] == a[1..] + b;
      UpwardAppend(a[1..], b);
    }
  }

  lemma UpwardNext(packets: seq<string>, i: nat)
    requires i < |packets|
    ensures UpwardAll(packets[..i + 1]) == UpwardAll(packets[..i]) + Upward(packets[i])
  {
    assert packets[..i + 1] == packets[..i] + [packets[i]];
    UpwardAppend(packets[..i], [packets[i]]);
    assert [packets[i]][1..] == [];
    assert Upward(packets[i]) + [] == Upward(packets[i]);
  }

  /** The session id after one packet: a handshake that parses replaces it. */
  function SidStep(sidOf: string -> Option<string>, sid: string, packet: string): string {
    if packet != "" && packet[0] == '0' && sidOf(packet[1..]).Some? then sidOf(packet[1..]).value else sid
  }

  function SidAfter(sidOf: string -> Option<string>, sid: string, packets: seq<string>): string {
    if packets == [] then sid
    else SidStep(sidOf, SidAfter(sidOf, sid, packets[..|packets| - 1]), packets[|packets| - 1])
  }

  lemma SidNext(sidOf: string -> Option<string>, sid: string, packets: seq<string>, i: nat)
    requires i < |packets|
    ensures SidAfter(sidOf, sid, packets[..i + 1]) == SidStep(sidOf, SidAfter(sidOf, sid, packets[..i]), packets[i])
  {
    assert packets[..i + 1][..i] == packets[..i];
  }

  /** A binary packet of which nothing can be decoded. */
  predicate Garbled(packet: string) {
    packet != "" && packet[0] == 'b' && Base64.Decode(packet[1..]).None?
  }

  predicate PassesAs(packet: string, frame: Frame) {
    if packet != "" && packet[0] == 'b' then frame.Attachment? && Base64.Decode(packet[1..]) == Some(frame.bytes)
    else frame == Text(packet)
  }

  /** Packet by packet: what is not garbled goes up, binary packets as their bytes and all others,
      handshakes and pings included, as they are. */
  lemma {:induction false} PassedUp(packets: seq<string>)
    requires forall i :: 0 <= i < |packets| ==> !Garbled(packets[i])
    ensures |UpwardAll(packets)| == |packets|
    ensures forall i :: 0 <= i < |packets| ==> PassesAs(packets[i], UpwardAll(packets)[i])
  {
    if packets != [] {
      PassedUp(packets[1..]);
      assert |Upward(packets[0])| == 1;
    }
  }

  /** A garbled packet is dropped without a trace. */
  lemma GarbledIsDropped(before: seq<string>, packet: string, after: seq<string>)
    requires Garbled(packet)
    ensures UpwardAll(before + [packet] + after) == UpwardAll(before + after)
  {
    assert [packet][1..] == [] && Upward(packet) == [];
    assert UpwardAll([packet]) == [];
    hide UpwardAll, Base64.Decode;
    UpwardAppend(before + [packet], after);
    UpwardAppend(before, [packet]);
    UpwardAppend(before, after);
    AppendNothing(UpwardAll(before));
  }

  /** The session id is that of the last handshake that parses, or the one before the batch. */
  lemma {:induction false} SidIsLastHandshake(
    sidOf: string -> Option<string>, sid: string, packets: seq<string>, i: nat)
    requires i <= |packets|
    requires i < |packets| ==> packets[i] != "" && packets[i][0] == '0' && sidOf(packets[i][1..]).Some?
    requires forall j :: (if i < |packets| then i + 1 else 0) <= j < |packets| ==>
               packets[j] == "" || packets[j][0] != '0' || sidOf(packets[j][1..]).None?
    ensures
      SidAfter(sidOf, sid, packets) == if i < |packets| then sidOf(packets[i][1..]).value else sid
    decreases |packets|
  {
    var n := |packets| - 1;
    if n > i || (i == |packets| && n >= 0) {
      SidIsLastHandshake(sidOf, sid, packets[..n], if i == |packets| then n else i);
    }
  }

  lemma CleanIsNonempty(packets: seq<string>, i: nat)
    requires i < |packets| && forall p :: p in packets ==> Clean(p)
    ensures packets[i] != ""
  {
    assert packets[i] in packets;
  }

  class Transport {
    const sidOf: string -> Option<string>   // the session id in a handshake, if it parses
    var sid: string
    var messages: seq<Frame>                // what the message handler has been given

    constructor (sidOf: string -> Option<string>)
      ensures this.sidOf == sidOf && sid == "" && messages == []
    {
      this.sidOf := sidOf;
      sid, messages := "", [];
    }

    method DeliverOne(packet: string)
      requires packet != ""
      modifies this`sid, this`messages
      ensures messages == old(messages) + Upward(packet) && sid == SidStep(sidOf, old(sid), packet)
      ensures packet[0] != 'b' ==> messages == old(messages) + [Text(packet)]
      ensures packet[0] == 'b' ==>
                match Base64.Decode(packet[1..])
                case None => messages == old(messages)
                case Some(bytes) => messages == old(messages) + [Attachment(bytes)]
      ensures sid == if packet[0] == '0' && sidOf(packet[1..]).Some? then sidOf(packet[1..]).value else old(sid)
    {
      if packet[0] == '0' {
        var handshake := sidOf(packet[1..]);
        if handshake.Some? {
          sid := handshake.value;
        }
      }
      if packet[0] == 'b' {
        var decoded := Base64.DecodeLoop(packet[1..]);
        if decoded.Some? {
          messages := messages + [Attachment(decoded.value)];
        }
      } else {
        messages := messages + [Text(packet)];
      }
    }

    /** `deliver`, where the closing flag is seen set from the `closedAfter`-th packet on. */
    method Deliver(body: string, closedAfter: nat)
      modifies this`sid, this`messages
      ensures
        var packets := Split(body);
        var seen := packets[..if closedAfter < |packets| then closedAfter else |packets|];
        messages == old(messages) + UpwardAll(seen) && sid == SidAfter(sidOf, old(sid), seen)
    {
      hide Split, Upward, SidStep, Clean;
      var packets := SplitPayload(body);
      SplitIsClean(body);
      var i := 0;
      assert UpwardAll(packets[..0]) == [] && SidAfter(sidOf, sid, packets[..0]) == sid;
      while i < |packets| && i < closedAfter
        invariant 0 <= i <= |packets| && i <= closedAfter
        invariant messages == old(messages) + UpwardAll(packets[..i])
        invariant sid == SidAfter(sidOf, old(sid), packets[..i])
      {
        CleanIsNonempty(packets, i);
        DeliverOne(packets[i]);
        UpwardNext(packets, i);
        SidNext(sidOf, old(sid), packets, i);
        i := i + 1;
      }
    }
  }

  /** `handle_transport_message`: the frames that reach the parser. */
  function Dispatch(message: Frame): seq<Frame> {
    match message
    case Attachment(_) => [message]
    case Text(text) => if text != "" && text[0] == '4' then [Text(text[1..])] else []
  }

  /** Of all text packets only messages, of type '4', reach the parser, without their type. */
  lemma DispatchIs(text: string)
    ensures Dispatch(Text("4" + text)) == [Text(text)] && Dispatch(Text("")) == []
    ensures forall c :: c != '4' ==> Dispatch(Text([c] + text)) == []
  {
    assert ("4" + text)[1..] == text;
  }

  /** Frames on the wire, literally. */
  lemma WireIs(text: string)
    ensures Wire(Text(text)) == "4" + text
    ensures Wire(Attachment([102, 111, 111])) == "bZm9v" && SEPARATOR as int == 0x1e
  {
    Base64.TestVectors();
    hide Base64.Encode;
  }

  function DispatchAll(messages: seq<Frame>): seq<Frame> {
    if messages == [] then [] else Dispatch(messages[0]) + DispatchAll(messages[1..])
  }

  lemma {:induction false} DispatchAppend(a: seq<Frame>, b: seq<Frame>)
    ensures DispatchAll(a + b) == DispatchAll(a) + DispatchAll(b)
  {
    if a == [] {
      assert a + b == b;
    } else {
      assert (a + b)[0] == a[0] && (a + b)[1..] == a[1..] + b;
      DispatchAppend(a[1..], b);
    }
  }

  // ----- End to end -----

  lemma FrameRoundTrip(frame: Frame)
    ensures DispatchAll(Upward(Wire(frame))) == [frame]
    ensures frame.Text? && SEPARATOR !in frame.text ==> Clean(Wire(frame))
    ensures frame.Attachment? ==> Clean(Wire(frame))
  {
    hide Base64.Encode, Base64.Decode;
    match frame
    case Text(text) => TextRoundTrip(text);
    case Attachment(bytes) => AttachmentRoundTrip(bytes);
  }

  lemma DispatchOne(message: Frame)
    ensures DispatchAll([message]) == Dispatch(message)
  {
    assert [message][1..] == [];
    assert Dispatch(message) + [] == Dispatch(message);
  }

  lemma TextRoundTrip(text: string)
    ensures DispatchAll(Upward("4" + text)) == [Text(text)]
    ensures SEPARATOR !in text ==> Clean("4" + text)
  {
    var wire := "4" + text;
    assert wire[1..] == text && wire[0] == '4';
    DispatchOne(Text(wire));
  }

  lemma AttachmentRoundTrip(bytes: Bytes)
    ensures DispatchAll(Upward(EncodeBinary(bytes))) == [Attachment(bytes)] && Clean(EncodeBinary(bytes))
  {
    hide Base64.Encode, Base64.Decode;
    var wire := EncodeBinary(bytes);
    assert wire[1..] == Base64.Encode(bytes) && wire[0] == 'b';
    Base64.DecodeInvertsEncode(bytes);
    Base64.EncodeAlphabet(bytes);
    DispatchOne(Attachment(bytes));
  }

  function Wires(frames: seq<Frame>): (r: seq<string>)
    ensures |r| == |frames| && forall i :: 0 <= i < |frames| ==> r[i] == Wire(frames[i])
  {
    seq(|frames|, i requires 0 <= i < |frames| => Wire(frames[i]))
  }

  lemma {:induction false} FramesRoundTrip(frames: seq<Frame>)
    ensures DispatchAll(UpwardAll(Wires(frames))) == frames
  {
    if frames != [] {
      FrameRoundTrip(frames[0]);
      FramesRoundTrip(frames[1..]);
      assert Wires(frames)[1..] == Wires(frames[1..]);
      DispatchAppend(Upward(Wire(frames[0])), UpwardAll(Wires(frames[1..])));
      assert frames == [frames[0]] + frames[1..];
    }
  }

  /** What reaches the parser from a sequence of response bodies. */
  function Received(bodies: seq<string>): seq<Frame> {
    if bodies == [] then [] else DispatchAll(UpwardAll(Split(bodies[0]))) + Received(bodies[1..])
  }

  function FlattenBatches(batches: seq<seq<string>>): seq<string> {
    if batches == [] then [] else batches[0] + FlattenBatches(batches[1..])
  }

  function Bodies(batches: seq<seq<string>>): (r: seq<string>)
    ensures |r| == |batches| && forall i :: 0 <= i < |r| ==> r[i] == Join(batches[i])
  {
    seq(|batches|, i requires 0 <= i < |batches| => Join(batches[i]))
  }

  /** However clean packets are batched into bodies, the parser receives the same frames. */
  lemma {:induction false} BatchingIrrelevant(batches: seq<seq<string>>)
    requires forall p :: p in FlattenBatches(batches) ==> Clean(p)
    ensures Received(Bodies(batches)) == DispatchAll(UpwardAll(FlattenBatches(batches)))
  {
    if batches != [] {
      var first, rest := batches[0], FlattenBatches(batches[1..]);
      assert forall p :: p in first ==> p in first + rest;
      assert forall p :: p in rest ==> p in first + rest;
      SplitInvertsJoin(first);
      BatchingIrrelevant(batches[1..]);
      assert Bodies(batches)[1..] == Bodies(batches[1..]);
      UpwardAppend(first, rest);
      DispatchAppend(UpwardAll(first), UpwardAll(rest));
    }
  }

  lemma WiresClean(frames: seq<Frame>)
    requires forall i :: 0 <= i < |frames| && frames[i].Text? ==> SEPARATOR !in frames[i].text
    ensures forall w :: w in Wires(frames) ==> Clean(w)
  {
    hide Wire, Clean;
    forall i | 0 <= i < |frames|
      ensures Clean(Wires(frames)[i])
    {
      FrameRoundTrip(frames[i]);
    }
  }

  /** The wire is transparent to a packet whose header has no separator. */
  lemma WireIsTransparent(codec: Codec, p: Packet, batches: seq<seq<string>>)
    requires Encode(codec, p).Some? && SEPARATOR !in HeaderText(codec, Outgoing(p))
    requires FlattenBatches(batches) == Wires(Encode(codec, p).value)
    ensures Received(Bodies(batches)) == Encode(codec, p).value
  {
    var frames := Encode(codec, p).value;
    assert frames[0] == Text(HeaderText(codec, Outgoing(p)));
    assert forall i :: 1 <= i < |frames| ==> frames[i].Attachment?;
    hide Encode, HeaderText, Wires, Clean, Bodies, FlattenBatches, DispatchAll, UpwardAll;
    WiresClean(frames);
    BatchingIrrelevant(batches);
    FramesRoundTrip(frames);
  }

  /** End to end: encode a packet, put its frames on the wire, batch them into bodies in any
      way, and what is split, base64-decoded, dispatched and parsed is the packet. */
  lemma PollingRoundTrip(codec: Codec, d: Decoder, p: Packet, batches: seq<seq<string>>)
    requires Faithful(codec) && Consistent(d) && Encodable(p) && Expressible(codec, p)
    requires SEPARATOR !in HeaderText(codec, Outgoing(p))
    requires FlattenBatches(batches) == Wires(Encode(codec, p).value)
    ensures DecodeStream(codec, d, Received(Bodies(batches))) == Stream(Idle, [Expected(p)])
  {
    hide Faithful, Consistent, NoPlaceholder, DecodeStream;
    RoundTrip(codec, d, p);
    WireIsTransparent(codec, p, batches);
  }

  // ----- Exactly which packets survive -----

  /** JSON text has no control characters. */
  ghost predicate Escapes(codec: Codec) {
    forall j :: Plain(j) ==> SEPARATOR !in codec.dump(j)
  }

  lemma HeaderSeparator(codec: Codec, p: Packet)
    requires Escapes(codec) && Plain(p.data) && p.attachments >= 0 && SEPARATOR !in p.nsp
    ensures SEPARATOR !in HeaderText(codec, p)
  {
    hide Plain, Decimal;
    DecimalValue(p.attachments);
    if p.id >= 0 {
      DecimalValue(p.id);
    }
    assert SEPARATOR !in CountText(p) && SEPARATOR !in NamespaceText(p.nsp) && SEPARATOR !in IdText(p.id);
    assert SEPARATOR !in DataText(codec, p.data);
  }

  predicate CleanText(frame: Frame) {
    frame.Text? ==> SEPARATOR !in frame.text
  }

  predicate CleanTexts(frames: seq<Frame>) {
    forall f :: f in frames ==> CleanText(f)
  }

  lemma {:induction false} DispatchedClean(packets: seq<string>)
    requires forall p :: p in packets ==> Clean(p)
    ensures CleanTexts(DispatchAll(UpwardAll(packets)))
  {
    if packets != [] {
      DispatchedClean(packets[1..]);
      assert Clean(packets[0]);
      DispatchAppend(Upward(packets[0]), UpwardAll(packets[1..]));
      OneDispatchedClean(packets[0]);
    }
  }

  lemma OneDispatchedClean(packet: string)
    requires Clean(packet)
    ensures CleanTexts(DispatchAll(Upward(packet)))
  {
    var up := Upward(packet);
    if up != [] {
      assert up == [up[0]] && up[1..] == [];
      assert DispatchAll(up) == Dispatch(up[0]) + [];
    }
  }

  /** No text that reaches the parser contains the separator, whatever the server sends. */
  lemma {:induction false} ReceivedClean(bodies: seq<string>)
    ensures CleanTexts(Received(bodies))
  {
    if bodies != [] {
      SplitIsClean(bodies[0]);
      DispatchedClean(Split(bodies[0]));
      ReceivedClean(bodies[1..]);
    }
  }

  lemma NamespaceFromText(codec: Codec, text: string)
    requires ReadHeader(codec, text).Some? && SEPARATOR !in text
    ensures SEPARATOR !in ReadHeader(codec, text).value.nsp
  {
    hide ReadId, ReadData, ParseInt;
    var kind := FromCode(DigitValue(text[0]));
    if IsBinary(kind) {
      var rest := text[1..];
      assert SEPARATOR !in rest[FindChar(rest, '-') + 1..];
    }
  }

  /** From frames without the separator only namespaces without it are read. */
  lemma {:induction false} CleanNamespaces(codec: Codec, d: Decoder, frames: seq<Frame>)
    requires Consistent(d) && CleanTexts(frames) && (d.pending.Some? ==> SEPARATOR !in d.pending.value.nsp)
    ensures forall p :: p in DecodeStream(codec, d, frames).packets ==> SEPARATOR !in p.nsp
    decreases |frames|
  {
    hide Consistent, ReadHeader, HasValidPlaceholders, Reconstruct, Slots;
    if frames != [] {
      DecodeKeepsConsistent(codec, d, frames[0]);
      var step := DecodeFrame(codec, d, frames[0]);
      assert CleanText(frames[0]);
      if frames[0].Text? && ReadHeader(codec, frames[0].text).Some? {
        NamespaceFromText(codec, frames[0].text);
      }
      CleanNamespaces(codec, step.next, frames[1..]);
    }
  }

  /** With a JSON printer that escapes control characters, a packet survives the polling path
      exactly when the text parser alone preserves it and its namespace has no separator. */
  lemma PollingRoundTripIff(codec: Codec, p: Packet, batches: seq<seq<string>>)
    requires Faithful(codec) && Escapes(codec) && Encodable(p)
    requires FlattenBatches(batches) == Wires(Encode(codec, p).value)
    ensures
      DecodeStream(codec, Idle, Received(Bodies(batches))).packets == [Expected(p)]
      <==> Expressible(codec, p) && SEPARATOR !in p.nsp
  {
    hide Faithful, Escapes, DecodeStream, HeaderText, Received, Plain;
    var received := Received(Bodies(batches));
    if SEPARATOR in p.nsp {
      ReceivedClean(Bodies(batches));
      CleanNamespaces(codec, Idle, received);
      assert Expected(p) in [Expected(p)];
    } else if CarriesBinary(p.kind) || Leaves(p.data) == [] {
      OutgoingPlain(codec, p);
      HeaderSeparator(codec, Outgoing(p));
      WireIsTransparent(codec, p, batches);
      RoundTripIff(codec, Idle, p);
    } else {
      StreamYieldsGenuine(codec, Idle, received);
      assert Expected(p) in [Expected(p)];
      assert !Genuine(Expected(p));
    }
  }
}
