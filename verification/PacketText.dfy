/** The text form of a Socket.IO packet header:
    type digit, [attachment count and '-'], [namespace and ','], [ack id], [JSON text]. */
module PacketText {
  import opened Options
  import opened Json

  const INT_MAX: int := 0x7fff_ffff

  // ----- Decimal numbers -----

  predicate IsDigit(c: char) {
    '0' <= c <= '9'
  }

  predicate AllDigits(s: string) {
    forall i :: 0 <= i < |s| ==> IsDigit(s[i])
  }

  function DigitValue(c: char): (d: int)
    requires IsDigit(c)
    ensures 0 <= d < 10
  {
    c as int - '0' as int
  }

  function DigitChar(d: int): (c: char)
    requires 0 <= d < 10
    ensures IsDigit(c) && DigitValue(c) == d
  {
    ('0' as int + d) as char
  }

  /** `std::to_string` of a number that is not negative. */
  function Decimal(n: nat): string {
    if n < 10 then [DigitChar(n)] else Decimal(n / 10) + [DigitChar(n % 10)]
  }

  function Value(s: string): nat
    requires AllDigits(s)
  {
    if s == "" then 0 else 10 * Value(s[..|s| - 1]) + DigitValue(s[|s| - 1])
  }

  lemma {:induction false} DecimalValue(n: nat)
    ensures Decimal(n) != "" && AllDigits(Decimal(n)) && Value(Decimal(n)) == n
    ensures Decimal(n)[0] == '0' ==> n == 0 && Decimal(n) == "0"
  {
    if n < 10 {
      assert Decimal(n)[..0] == "";
    } else {
      DecimalValue(n / 10);
      assert Decimal(n)[..|Decimal(n)| - 1] == Decimal(n / 10);
    }
  }

  /** The number a digit string denotes, when an `int` can hold it. */
  function ParseInt(s: string): Option<int> {
    if s != "" && AllDigits(s) && Value(s) <= INT_MAX then Some(Value(s)) else None
  }

  lemma {:induction false} ValuePrefix(s: string, i: nat)
    requires AllDigits(s) && i <= |s|
    ensures Value(s[..i]) <= Value(s)
    decreases |s| - i
  {
    if i == |s| {
      assert s[..i] == s;
    } else {
      assert s[..i + 1][..i] == s[..i];
      ValuePrefix(s, i + 1);
    }
  }

  /** The digit loop with its overflow test: it accepts exactly the nonempty digit strings
      whose value is at most INT_MAX, and never exceeds that on the way. */
  method ParseNonnegativeInt(text: string, begin: nat, end: nat) returns (r: Option<int>)
    requires begin <= end <= |text|
    ensures r == ParseInt(text[begin..end])
  {
    ghost var s := text[begin..end];
    if begin == end {
      return None;
    }
    var result := 0;
    var i := begin;
    while i < end
      invariant begin <= i <= end
      invariant AllDigits(s[..i - begin]) && result == Value(s[..i - begin])
      invariant 0 <= result <= INT_MAX
    {
      if !IsDigit(text[i]) {
        assert s[i - begin] == text[i];
        return None;
      }
      var digit := DigitValue(text[i]);
      ghost var t := s[..i + 1 - begin];
      assert t[..|t| - 1] == s[..i - begin] && t[|t| - 1] == text[i];
      assert Value(t) == 10 * result + digit;
      if result > (INT_MAX - digit) / 10 {
        if AllDigits(s) {
          ValuePrefix(s, |t|);
        }
        return None;
      }
      result := result * 10 + digit;
      i := i + 1;
    }
    assert s[..i - begin] == s;
    return Some(result);
  }

  // ----- Packets -----

  datatype PacketType = Connect | Disconnect | Event | Ack | ConnectError | BinaryEvent | BinaryAck

  function Code(t: PacketType): (n: int)
    ensures 0 <= n <= 6
  {
    match t
    case Connect => 0
    case Disconnect => 1
    case Event => 2
    case Ack => 3
    case ConnectError => 4
    case BinaryEvent => 5
    case BinaryAck => 6
  }

  function FromCode(n: int): (t: PacketType)
    requires 0 <= n <= 6
    ensures Code(t) == n
  {
    if n == 0 then Connect else if n == 1 then Disconnect else if n == 2 then Event else if n == 3 then Ack
    else if n == 4 then ConnectError else if n == 5 then BinaryEvent else BinaryAck
  }

  datatype Packet = Packet(kind: PacketType, nsp: string, id: int, data: Json, attachments: int)

  predicate IsBinary(t: PacketType) {
    t.BinaryEvent? || t.BinaryAck?
  }

  /** The JSON library: printing, and parsing that may fail. */
  datatype Codec = Codec(dump: Json -> string, parse: string -> Option<Json>)

  /** A value that JSON text can express. */
  predicate Plain(j: Json) {
    WellFormed(j) && Leaves(j) == []
  }

  /** Text that can follow the leading digits of a number: nothing, a fraction or an exponent. */
  predicate AfterDigits(text: string) {
    text == "" || text[0] == '.' || text[0] == 'e' || text[0] == 'E'
  }

  predicate DumpOk(codec: Codec, j: Json) {
    var text := codec.dump(j);
    && codec.parse(text) == Some(j)
    && text != "" && text[0] != '/'
    && (IsDigit(text[0]) ==> (j.Int? || j.Float?) && AfterDigits(text[DigitRun(text)..]))
  }

  /** Parsing undoes printing.  Printed text is not empty and starts with neither '/' nor,
      unless the value is a number, a digit.  Parsed values are plain, and the rest of a
      number behind its leading digits is not JSON. */
  ghost predicate Faithful(codec: Codec) {
    && (forall j :: Plain(j) ==> DumpOk(codec, j))
    && (forall text :: codec.parse(text).Some? ==> Plain(codec.parse(text).value) && !AfterDigits(text))
  }

  /** A bare number that is not negative: its digits would be read as part of the ack id. */
  predicate Swallowed(codec: Codec, j: Json) {
    (j.Int? || j.Float?) && codec.dump(j) != "" && IsDigit(codec.dump(j)[0])
  }

  // ----- Printing -----

  function CountText(p: Packet): string
    requires p.attachments >= 0
  {
    if IsBinary(p.kind) then Decimal(p.attachments) + "-" else ""
  }

  function NamespaceText(nsp: string): string {
    if nsp != "" && nsp != "/" then nsp + "," else ""
  }

  function IdText(id: int): string {
    if id >= 0 then Decimal(id) else ""
  }

  function DataText(codec: Codec, data: Json): string {
    if data.Null? then "" else codec.dump(data)
  }

  function HeaderText(codec: Codec, p: Packet): string
    requires p.attachments >= 0
  {
    [DigitChar(Code(p.kind))] + (CountText(p) + (NamespaceText(p.nsp) + (IdText(p.id) + DataText(codec, p.data))))
  }

  // ----- Reading -----

  /** `find`: the first position of `c`, or the length. */
  function FindChar(s: string, c: char): (n: nat)
    ensures n <= |s|
    ensures forall i :: 0 <= i < n ==> s[i] != c
    ensures n < |s| ==> s[n] == c
  {
    if s == "" || s[0] == c then 0 else 1 + FindChar(s[1..], c)
  }

  lemma {:induction false} FindCharIs(s: string, c: char, n: nat)
    requires n <= |s| && (forall i :: 0 <= i < n ==> s[i] != c) && (n < |s| ==> s[n] == c)
    ensures FindChar(s, c) == n
  {
  }

  /** `find` from a position. */
  method FindFrom(text: string, begin: nat, c: char) returns (n: nat)
    requires begin <= |text|
    ensures begin <= n <= |text| && FindChar(text[begin..], c) == n - begin
  {
    n := begin;
    while n < |text| && text[n] != c
      invariant begin <= n <= |text|
      invariant forall k :: begin <= k < n ==> text[k] != c
    {
      n := n + 1;
    }
    FindCharIs(text[begin..], c, n - begin);
  }

  /** Length of the leading run of digits. */
  function DigitRun(s: string): (n: nat)
    ensures n <= |s|
    ensures AllDigits(s[..n])
    ensures n < |s| ==> !IsDigit(s[n])
  {
    if s == "" || !IsDigit(s[0]) then 0
    else
      assert s[..1 + DigitRun(s[1..])] == [s[0]] + s[1..][..DigitRun(s[1..])];
      1 + DigitRun(s[1..])
  }

  lemma {:induction false} DigitRunIs(s: string, n: nat)
    requires n <= |s| && AllDigits(s[..n]) && (n < |s| ==> !IsDigit(s[n]))
    ensures DigitRun(s) == n
  {
    if n > 0 {
      assert s[..n][0] == s[0];
      assert s[1..][..n - 1] == s[..n][1..];
      DigitRunIs(s[1..], n - 1);
    }
  }

  datatype Read<T> = Read(value: T, rest: string)

  function ReadCount(text: string): Option<Read<int>> {
    var dash := FindChar(text, '-');
    if dash == |text| then None
    else
      match ParseInt(text[..dash])
      case None => None
      case Some(n) => if n == 0 then None else Some(Read(n, text[dash + 1..]))
  }

  function ReadNamespace(text: string): Read<string> {
    if text != "" && text[0] == '/' then
      var comma := FindChar(text, ',');
      if comma == |text| then Read(text, "") else Read(text[..comma], text[comma + 1..])
    else Read("/", text)
  }

  function ReadId(text: string): Option<Read<int>> {
    var k := DigitRun(text);
    if k == 0 then Some(Read(-1, text))
    else
      match ParseInt(text[..k])
      case None => None
      case Some(n) => Some(Read(n, text[k..]))
  }

  function ReadData(codec: Codec, text: string): Option<Json> {
    if text == "" then Some(Null) else codec.parse(text)
  }

  /** Everything after the type and the count. */
  function ReadTail(codec: Codec, kind: PacketType, count: int, text: string): Option<Packet> {
    var nsp := ReadNamespace(text);
    match ReadId(nsp.rest)
    case None => None
    case Some(id) =>
      match ReadData(codec, id.rest)
      case None => None
      case Some(data) => Some(Packet(kind, nsp.value, id.value, data, count))
  }

  function ReadHeader(codec: Codec, text: string): Option<Packet> {
    if text == "" || !IsDigit(text[0]) || DigitValue(text[0]) > 6 then None
    else
      var kind := FromCode(DigitValue(text[0]));
      if IsBinary(kind) then
        match ReadCount(text[1..])
        case None => None
        case Some(count) => ReadTail(codec, kind, count.value, count.rest)
      else ReadTail(codec, kind, 0, text[1..])
  }

  // ----- Reading undoes printing -----

  /** The namespaces a header can carry. */
  predicate NamespaceOk(nsp: string) {
    nsp == "" || (nsp[0] == '/' && ',' !in nsp)
  }

  function NormalNamespace(nsp: string): string {
    if nsp == "" then "/" else nsp
  }

  function NormalId(id: int): int {
    if id >= 0 then id else -1
  }

  lemma ReadCountInverts(n: int, rest: string)
    requires 1 <= n <= INT_MAX
    ensures ReadCount(Decimal(n) + "-" + rest) == Some(Read(n, rest))
  {
    DecimalValue(n);
    var d := Decimal(n);
    var text := d + "-" + rest;
    assert text[..|d|] == d && text[|d|] == '-' && text[|d| + 1..] == rest;
    assert forall i :: 0 <= i < |d| ==> text[i] == d[i] && IsDigit(d[i]);
    FindCharIs(text, '-', |d|);
  }

  lemma ReadNamespaceInverts(nsp: string, rest: string)
    requires NamespaceOk(nsp) && (rest != "" ==> rest[0] != '/')
    ensures ReadNamespace(NamespaceText(nsp) + rest) == Read(NormalNamespace(nsp), rest)
  {
    if nsp == "" || nsp == "/" {
      assert NamespaceText(nsp) + rest == rest;
    } else {
      var text := nsp + "," + rest;
      assert text[..|nsp|] == nsp && text[|nsp|] == ',' && text[|nsp| + 1..] == rest;
      assert forall i :: 0 <= i < |nsp| ==> text[i] == nsp[i] && nsp[i] in nsp;
      FindCharIs(text, ',', |nsp|);
    }
  }

  lemma ReadIdInverts(id: int, rest: string)
    requires id <= INT_MAX && (rest != "" ==> !IsDigit(rest[0]))
    ensures ReadId(IdText(id) + rest) == Some(Read(NormalId(id), rest))
  {
    var text := IdText(id) + rest;
    if id >= 0 {
      DecimalValue(id);
      var d := Decimal(id);
      assert text[..|d|] == d && text[|d|..] == rest;
      DigitRunIs(text, |d|);
    } else {
      assert text == rest;
      DigitRunIs(text, 0);
    }
  }

  lemma ReadTailInverts(codec: Codec, p: Packet)
    requires Faithful(codec) && Plain(p.data) && !Swallowed(codec, p.data)
    requires NamespaceOk(p.nsp) && p.id <= INT_MAX
    ensures ReadTail(codec, p.kind, p.attachments, NamespaceText(p.nsp) + (IdText(p.id) + DataText(codec, p.data)))
         == Some(p.(nsp := NormalNamespace(p.nsp), id := NormalId(p.id)))
  {
    var data := DataText(codec, p.data);
    assert DumpOk(codec, p.data);
    ReadIdInverts(p.id, data);
    var tail := IdText(p.id) + data;
    assert tail != "" ==> tail[0] != '/' by {
      if p.id >= 0 {
        DecimalValue(p.id);
        assert tail[0] == Decimal(p.id)[0];
      }
    }
    ReadNamespaceInverts(p.nsp, tail);
  }

  /** A printed header reads back as the packet, with its namespace and id normalised. */
  lemma HeaderRoundTrip(codec: Codec, p: Packet)
    requires Faithful(codec) && Plain(p.data) && !Swallowed(codec, p.data)
    requires NamespaceOk(p.nsp) && p.id <= INT_MAX
    requires if IsBinary(p.kind) then 1 <= p.attachments <= INT_MAX else p.attachments == 0
    ensures ReadHeader(codec, HeaderText(codec, p)) == Some(p.(nsp := NormalNamespace(p.nsp), id := NormalId(p.id)))
  {
    hide Faithful, ReadTail, ReadCount, Plain;
    ReadTailInverts(codec, p);
    var text := HeaderText(codec, p);
    var tail := NamespaceText(p.nsp) + (IdText(p.id) + DataText(codec, p.data));
    assert text[0] == DigitChar(Code(p.kind)) && text[1..] == CountText(p) + tail;
    assert FromCode(Code(p.kind)) == p.kind;
    if IsBinary(p.kind) {
      ReadCountInverts(p.attachments, tail);
      assert CountText(p) + tail == Decimal(p.attachments) + "-" + tail;
    } else {
      assert CountText(p) + tail == tail;
    }
  }

  lemma {:induction false} DigitsRunOn(a: string, b: string)
    requires AllDigits(a)
    ensures DigitRun(a + b) == |a| + DigitRun(b)
  {
    var n := DigitRun(b);
    assert (a + b)[..|a| + n] == a + b[..n];
    DigitRunIs(a + b, |a| + n);
  }

  lemma NumberLeavesRest(codec: Codec, p: Packet)
    requires Faithful(codec) && Plain(p.data) && Swallowed(codec, p.data)
    ensures
      var text := IdText(p.id) + codec.dump(p.data);
      && IsDigit(text[0])
      && var rest := text[DigitRun(text)..];
         ReadData(codec, rest) == if rest == "" then Some(Null) else None
  {
    var id, data := IdText(p.id), codec.dump(p.data);
    assert DumpOk(codec, p.data);
    if p.id >= 0 {
      DecimalValue(p.id);
    }
    DigitsRunOn(id, data);
    var n := DigitRun(data);
    assert (id + data)[|id| + n..] == data[n..];
    assert AfterDigits(data[n..]);
  }

  lemma NumberTail(codec: Codec, p: Packet)
    requires Faithful(codec) && Plain(p.data) && Swallowed(codec, p.data) && NamespaceOk(p.nsp)
    ensures
      var r := ReadTail(codec, p.kind, 0, NamespaceText(p.nsp) + (IdText(p.id) + codec.dump(p.data)));
      r.Some? ==> r.value.data == Null && r.value.kind == p.kind
  {
    NumberLeavesRest(codec, p);
    hide Faithful, Plain, ReadNamespace, NamespaceText, IdText, DigitRun, ParseInt, ReadData;
    ReadNamespaceInverts(p.nsp, IdText(p.id) + codec.dump(p.data));
  }

  /** The digits of a bare number join the ack id in front of it and the value is lost. */
  lemma NumberIsLost(codec: Codec, p: Packet)
    requires Faithful(codec) && Plain(p.data) && Swallowed(codec, p.data) && NamespaceOk(p.nsp) && !IsBinary(p.kind)
    requires p.attachments == 0
    ensures
      var r := ReadHeader(codec, HeaderText(codec, p));
      r.Some? ==> r.value.data == Null && r.value.kind == p.kind
  {
    hide Faithful, ReadTail, NamespaceText, IdText;
    NumberTail(codec, p);
    var text := HeaderText(codec, p);
    var tail := NamespaceText(p.nsp) + (IdText(p.id) + codec.dump(p.data));
    assert text[0] == DigitChar(Code(p.kind)) && FromCode(Code(p.kind)) == p.kind;
    assert text[1..] == tail by {
      assert CountText(p) + tail == tail;
      assert text == [DigitChar(Code(p.kind))] + tail;
    }
  }

  /** Whatever the text, a namespace read from it starts with '/' and has no comma. */
  lemma ReadNamespaceShape(text: string)
    ensures
      var nsp := ReadNamespace(text).value;
      nsp != "" && nsp[0] == '/' && ',' !in nsp
  {
  }

  lemma ReadHeaderShape(codec: Codec, text: string)
    requires ReadHeader(codec, text).Some?
    ensures
      var p := ReadHeader(codec, text).value;
      && p.nsp != "" && p.nsp[0] == '/' && ',' !in p.nsp
      && -1 <= p.id <= INT_MAX
      && (if IsBinary(p.kind) then 1 <= p.attachments <= INT_MAX else p.attachments == 0)
      && (Faithful(codec) ==> Plain(p.data))
  {
    hide DumpOk;
    assert Plain(Null);
    var kind := FromCode(DigitValue(text[0]));
    if IsBinary(kind) {
      ReadNamespaceShape(ReadCount(text[1..]).value.rest);
    } else {
      ReadNamespaceShape(text[1..]);
    }
  }

  // ----- The header's grammar -----

  /** The digit of a packet type in the Socket.IO protocol. */
  predicate TypeDigit(t: PacketType, c: char) {
    match t
    case Connect => c == '0'
    case Disconnect => c == '1'
    case Event => c == '2'
    case Ack => c == '3'
    case ConnectError => c == '4'
    case BinaryEvent => c == '5'
    case BinaryAck => c == '6'
  }

  lemma CodeIsDigit(t: PacketType)
    ensures TypeDigit(t, DigitChar(Code(t)))
    ensures forall c :: TypeDigit(t, c) ==> IsDigit(c) && DigitValue(c) <= 6 && FromCode(DigitValue(c)) == t
  {
  }

  /** The text behind the type digit, cut into its parts. */
  datatype HeaderParts = HeaderParts(count: string, nsp: string, id: string, data: string)

  predicate SpellsCount(kind: PacketType, text: string, n: int) {
    if kind == BinaryEvent || kind == BinaryAck then
      text != "" && text[|text| - 1] == '-' && n > 0 && ParseInt(text[..|text| - 1]) == Some(n)
    else text == "" && n == 0
  }

  /** A namespace ends at the first comma, or at the end of the text. */
  predicate SpellsNamespace(text: string, rest: string, nsp: string) {
    if text == "" then nsp == "/" && (rest == "" || rest[0] != '/')
    else
      && text[0] == '/' && nsp != "" && nsp[0] == '/' && ',' !in nsp
      && (text == nsp + "," || (text == nsp && rest == ""))
  }

  /** The digits in front of the data, as many as there are. */
  predicate SpellsId(text: string, rest: string, id: int) {
    && (rest == "" || !IsDigit(rest[0]))
    && (if text == "" then id == -1 else ParseInt(text) == Some(id))
  }

  predicate SpellsData(codec: Codec, text: string, data: Json) {
    if text == "" then data == Null else codec.parse(text) == Some(data)
  }

  predicate Spells(codec: Codec, text: string, p: Packet, parts: HeaderParts) {
    var idOn := parts.id + parts.data;
    && text != "" && TypeDigit(p.kind, text[0])
    && text[1..] == parts.count + (parts.nsp + idOn)
    && SpellsCount(p.kind, parts.count, p.attachments)
    && SpellsNamespace(parts.nsp, idOn, p.nsp)
    && SpellsId(parts.id, parts.data, p.id)
    && SpellsData(codec, parts.data, p.data)
  }

  lemma NamespaceSpelt(text: string)
    ensures
      var r := ReadNamespace(text);
      var part := text[..|text| - |r.rest|];
      |r.rest| <= |text| && text == part + r.rest && SpellsNamespace(part, r.rest, r.value)
  {
    if text != "" && text[0] == '/' {
      var comma := FindChar(text, ',');
      if comma < |text| {
        assert text[..comma + 1] == text[..comma] + ",";
      }
    }
  }

  lemma IdSpelt(text: string)
    requires ReadId(text).Some?
    ensures
      var r := ReadId(text).value;
      var part := text[..|text| - |r.rest|];
      |r.rest| <= |text| && text == part + r.rest && SpellsId(part, r.rest, r.value)
  {
  }

  lemma CountSpelt(text: string, kind: PacketType)
    requires ReadCount(text).Some? && IsBinary(kind)
    ensures
      var r := ReadCount(text).value;
      var part := text[..|text| - |r.rest|];
      |r.rest| <= |text| && text == part + r.rest && SpellsCount(kind, part, r.value)
  {
    var dash := FindChar(text, '-');
    assert text[..dash + 1][..dash] == text[..dash];
  }

  /** The part of a text in front of a suffix of it. */
  function Front(text: string, rest: string): string
    requires |rest| <= |text|
  {
    text[..|text| - |rest|]
  }

  lemma TailIsSpelt(codec: Codec, kind: PacketType, n: int, text: string)
    returns (nsp: string, id: string, data: string)
    requires ReadTail(codec, kind, n, text).Some?
    ensures
      var p := ReadTail(codec, kind, n, text).value;
      && p.kind == kind && p.attachments == n && text == nsp + (id + data)
      && SpellsNamespace(nsp, id + data, p.nsp) && SpellsId(id, data, p.id) && SpellsData(codec, data, p.data)
  {
    hide ReadNamespace, ReadId, SpellsNamespace, SpellsId;
    NamespaceSpelt(text);
    var behind := ReadNamespace(text).rest;
    IdSpelt(behind);
    data := ReadId(behind).value.rest;
    nsp, id := Front(text, behind), Front(behind, data);
    assert behind == id + data;
  }

  /** Whatever the decoder reads as a header is one, cut in the way the protocol says. */
  lemma HeaderIsSpelt(codec: Codec, text: string) returns (parts: HeaderParts)
    requires ReadHeader(codec, text).Some?
    ensures Spells(codec, text, ReadHeader(codec, text).value, parts)
  {
    hide ReadCount, ReadTail, SpellsNamespace, SpellsId, SpellsData, SpellsCount;
    var kind := FromCode(DigitValue(text[0]));
    CodeIsDigit(kind);
    assert text[0] == DigitChar(DigitValue(text[0]));
    if IsBinary(kind) {
      CountSpelt(text[1..], kind);
      var count := ReadCount(text[1..]).value;
      var nsp, id, data := TailIsSpelt(codec, kind, count.value, count.rest);
      parts := HeaderParts(Front(text[1..], count.rest), nsp, id, data);
    } else {
      var nsp, id, data := TailIsSpelt(codec, kind, 0, text[1..]);
      parts := HeaderParts("", nsp, id, data);
      NoCount(kind);
    }
  }

  lemma NoCount(kind: PacketType)
    requires !IsBinary(kind)
    ensures SpellsCount(kind, "", 0)
  {
  }

  lemma ReadsCount(kind: PacketType, part: string, n: int, rest: string)
    requires IsBinary(kind) && SpellsCount(kind, part, n)
    ensures ReadCount(part + rest) == Some(Read(n, rest))
  {
    var text, k := part + rest, |part| - 1;
    assert text[..k] == part[..k] && text[k] == '-' && text[k + 1..] == rest;
    assert forall i :: 0 <= i < k ==> text[i] == part[..k][i] && IsDigit(text[i]);
    FindCharIs(text, '-', k);
  }

  lemma ReadsNamespace(part: string, rest: string, nsp: string)
    requires SpellsNamespace(part, rest, nsp)
    ensures ReadNamespace(part + rest) == Read(nsp, rest)
  {
    var text := part + rest;
    if part == "" {
      assert text == rest;
    } else {
      assert forall i :: 0 <= i < |nsp| ==> text[i] == nsp[i];
      FindCharIs(text, ',', |nsp|);
      assert text[..|nsp|] == nsp;
      if part == nsp {
        assert text == nsp;
      } else {
        assert text[|nsp| + 1..] == rest;
      }
    }
  }

  lemma ReadsId(part: string, rest: string, id: int)
    requires SpellsId(part, rest, id)
    ensures ReadId(part + rest) == Some(Read(id, rest))
  {
    var text := part + rest;
    assert text[..|part|] == part && text[|part|..] == rest;
    DigitRunIs(text, |part|);
    assert part == "" ==> text == rest;
  }

  /** And every text that is cut in that way is read, with the values its parts spell. */
  lemma SpeltIsRead(codec: Codec, text: string, p: Packet, parts: HeaderParts)
    requires Spells(codec, text, p, parts)
    ensures ReadHeader(codec, text) == Some(p)
  {
    hide ReadCount, ReadNamespace, ReadId;
    CodeIsDigit(p.kind);
    var idOn := parts.id + parts.data;
    if IsBinary(p.kind) {
      ReadsCount(p.kind, parts.count, p.attachments, parts.nsp + idOn);
    } else {
      assert text[1..] == parts.nsp + idOn;
    }
    ReadsNamespace(parts.nsp, idOn, p.nsp);
    ReadsId(parts.id, parts.data, p.id);
  }

  /** The text of a header, part by part. */
  lemma HeaderFormat(codec: Codec, p: Packet)
    requires p.attachments >= 0
    ensures
      var text := HeaderText(codec, p);
      && TypeDigit(p.kind, text[0])
      && text[1..] ==
           (if p.kind == BinaryEvent || p.kind == BinaryAck then Decimal(p.attachments) + "-" else "")
           + ((if p.nsp == "" || p.nsp == "/" then "" else p.nsp + ",")
              + ((if p.id < 0 then "" else Decimal(p.id))
                 + (if p.data == Null then "" else codec.dump(p.data))))
  {
    hide Decimal;
    CodeIsDigit(p.kind);
    var tail := CountText(p) + (NamespaceText(p.nsp) + (IdText(p.id) + DataText(codec, p.data)));
    assert ([DigitChar(Code(p.kind))] + tail)[1..] == tail;
  }

  lemma FirstDigit(codec: Codec, p: Packet)
    requires p.attachments >= 0
    ensures HeaderText(codec, p) != "" && TypeDigit(p.kind, HeaderText(codec, p)[0])
  {
    CodeIsDigit(p.kind);
  }

  lemma Together(c: char, text: string, a: string, b: string)
    requires text != "" && text[0] == c && text[1..] == a + b
    ensures text == [c] + a + b
  {
  }

  lemma DecimalExamples()
    ensures Decimal(0) == "0" && Decimal(7) == "7" && Decimal(12) == "12" && Decimal(456) == "456"
  {
    assert Decimal(1) == "1" && Decimal(4) == "4" && Decimal(45) == "45";
  }

  /** Headers as the documentation of the protocol gives them: an event with an ack id. */
  lemma EventExample(codec: Codec, j: Json)
    requires j != Null
    ensures HeaderText(codec, Packet(Event, "/", 12, j, 0)) == "212" + codec.dump(j)
  {
    var p := Packet(Event, "/", 12, j, 0);
    HeaderFormat(codec, p);
    DecimalExamples();
    hide HeaderText;
    Together('2', HeaderText(codec, p), "12", codec.dump(j));
  }

  /** A disconnect from a namespace. */
  lemma DisconnectExample(codec: Codec)
    ensures HeaderText(codec, Packet(Disconnect, "/admin", -1, Null, 0)) == "1/admin,"
  {
    var p := Packet(Disconnect, "/admin", -1, Null, 0);
    HeaderFormat(codec, p);
    hide HeaderText;
    Together('1', HeaderText(codec, p), "/admin,", "");
  }

  /** An event with attachments. */
  lemma BinaryEventExample(codec: Codec, j: Json)
    requires j != Null
    ensures HeaderText(codec, Packet(BinaryEvent, "/", -1, j, 7)) == "57-" + codec.dump(j)
  {
    var p := Packet(BinaryEvent, "/", -1, j, 7);
    HeaderFormat(codec, p);
    DecimalExamples();
    hide HeaderText;
    Together('5', HeaderText(codec, p), "7-", codec.dump(j));
  }
}
