/** Base64 with padding, section 4 of RFC 4648, in the two places the client has it: the
    encoder of the proxy module and the decoder of the polling transport.  Shifts and masks
    on unsigned values are written as division and remainder by powers of two. */
module Base64 {
  import opened Options
  import opened Json
  import opened Sequences

  const UPPER := "ABCDEFGHIJKLMNOPQRSTUVWXYZ"
  const LOWER := "abcdefghijklmnopqrstuvwxyz"
  const OTHER := "0123456789+/"
  const ALPHABET := UPPER + LOWER + OTHER

  /** `base64_value`: the six bits a character stands for, or -1. */
  function SymbolValue(c: char): (v: int)
    ensures -1 <= v < 64
  {
    if 'A' <= c <= 'Z' then c as int - 'A' as int
    else if 'a' <= c <= 'z' then c as int - 'a' as int + 26
    else if '0' <= c <= '9' then c as int - '0' as int + 52
    else if c == '+' then 62
    else if c == '/' then 63
    else -1
  }

  lemma UpperAt(v: int)
    requires 0 <= v < 26
    ensures UPPER[v] as int == 'A' as int + v
  {
  }

  lemma LowerAt(v: int)
    requires 0 <= v < 26
    ensures LOWER[v] as int == 'a' as int + v
  {
  }

  lemma OtherAt(v: int)
    requires 0 <= v < 12
    ensures SymbolValue(OTHER[v]) == 52 + v
  {
  }

  /** The decoder's value of a character is its position in the encoder's table. */
  lemma TableInverts(v: int)
    requires 0 <= v < 64
    ensures SymbolValue(ALPHABET[v]) == v
  {
    if v < 26 {
      UpperAt(v);
      assert ALPHABET[v] == UPPER[v];
    } else if v < 52 {
      LowerAt(v - 26);
      assert ALPHABET[v] == LOWER[v - 26];
    } else {
      OtherAt(v - 52);
      assert ALPHABET[v] == OTHER[v - 52];
    }
  }

  function Symbol(v: int): (c: char)
    requires 0 <= v < 64
    ensures SymbolValue(c) == v
  {
    TableInverts(v);
    ALPHABET[v]
  }

  // ----- Encoding -----

  /** The 24-bit value of one to three bytes; a missing byte counts as zero. */
  function Pack(b: Bytes): (value: int)
    requires 1 <= |b| <= 3
    ensures 0 <= value < 0x1000000
  {
    var value: int := b[0] as int * 0x10000;
    var value: int := if |b| > 1 then value + b[1] as int * 0x100 else value;
    if |b| > 2 then value + b[2] as int else value
  }

  function EncodeGroup(b: Bytes): (s: string)
    requires 1 <= |b| <= 3
    ensures |s| == 4
  {
    var value := Pack(b);
    [Symbol(value / 0x40000 % 64),
     Symbol(value / 0x1000 % 64),
     if |b| > 1 then Symbol(value / 0x40 % 64) else '=',
     if |b| > 2 then Symbol(value % 64) else '=']
  }

  function Encode(b: Bytes): string {
    if |b| == 0 then "" else if |b| <= 3 then EncodeGroup(b) else EncodeGroup(b[..3]) + Encode(b[3..])
  }

  method EncodeLoop(input: Bytes) returns (out: string)
    ensures out == Encode(input)
  {
    out := "";
    var i := 0;
    while i < |input|
      invariant 0 <= i
      invariant i <= |input| ==> out + Encode(input[i..]) == Encode(input)
      invariant i > |input| ==> out == Encode(input)
    {
      hide Symbol, Pack;
      var value: int := input[i] as int * 0x10000;
      if i + 1 < |input| {
        value := value + input[i + 1] as int * 0x100;
      }
      if i + 2 < |input| {
        value := value + input[i + 2] as int;
      }
      ghost var rest := input[i..];
      ghost var group := if |rest| <= 3 then rest else rest[..3];
      PackIs(group, value);
      var quad := [Symbol(value / 0x40000 % 64), Symbol(value / 0x1000 % 64),
                   if i + 1 < |input| then Symbol(value / 0x40 % 64) else '=',
                   if i + 2 < |input| then Symbol(value % 64) else '='];
      assert quad == EncodeGroup(group);
      EncodeNext(out, rest);
      out := out + quad;
      if i + 3 <= |input| {
        assert rest[3..] == input[i + 3..];
      }
      i := i + 3;
    }
  }

  lemma PackIs(b: Bytes, value: int)
    requires 1 <= |b| <= 3
    requires value == b[0] as int * 0x10000 + (if |b| > 1 then b[1] as int * 0x100 else 0)
                      + (if |b| > 2 then b[2] as int else 0)
    ensures Pack(b) == value
  {
  }

  lemma EncodeNext(out: string, rest: Bytes)
    requires rest != []
    ensures |rest| <= 3 ==> Encode(rest) == EncodeGroup(rest)
    ensures |rest| >= 3 ==> out + Encode(rest) == (out + EncodeGroup(rest[..3])) + Encode(rest[3..])
  {
    hide EncodeGroup;
    if |rest| == 3 {
      assert rest[..3] == rest && rest[3..] == [];
    }
  }

  // ----- Decoding -----

  /** One group of four characters; `None` when one of them is not in the table. */
  function DecodeGroup(s: string): Option<Bytes>
    requires |s| == 4
  {
    var a, b := SymbolValue(s[0]), SymbolValue(s[1]);
    var c := if s[2] == '=' then 0 else SymbolValue(s[2]);
    var d := if s[3] == '=' then 0 else SymbolValue(s[3]);
    if a < 0 || b < 0 || c < 0 || d < 0 then None
    else
      var value := a * 0x40000 + b * 0x1000 + c * 0x40 + d;
      Some([value / 0x10000 % 256]
           + (if s[2] != '=' then [value / 0x100 % 256] else [])
           + (if s[3] != '=' then [value % 256] else []))
  }

  function DecodeGroups(s: string): Option<Bytes>
    requires |s| % 4 == 0
  {
    if s == "" then Some([])
    else
      match DecodeGroup(s[..4])
      case None => None
      case Some(first) =>
        match DecodeGroups(s[4..])
        case None => None
        case Some(rest) => Some(first + rest)
  }

  function Decode(s: string): Option<Bytes> {
    if |s| % 4 != 0 then None else DecodeGroups(s)
  }

  /** What is left to decode, behind what has been decoded. */
  function Prepend(done: Bytes, rest: Option<Bytes>): Option<Bytes> {
    if rest.None? then None else Some(done + rest.value)
  }

  lemma PrependEnds(done: Bytes, rest: Option<Bytes>)
    ensures Prepend([], rest) == rest && Prepend(done, Some([])) == Some(done)
  {
    assert rest.Some? ==> [] + rest.value == rest.value;
    assert done + [] == done;
  }

  lemma PrependStep(done: Bytes, input: string)
    requires |input| % 4 == 0 && input != ""
    ensures
      Prepend(done, DecodeGroups(input)) ==
      match DecodeGroup(input[..4])
      case None => None
      case Some(first) => Prepend(done + first, DecodeGroups(input[4..]))
  {
    hide DecodeGroup;
    var first, rest := DecodeGroup(input[..4]), DecodeGroups(input[4..]);
    assert first.Some? && rest.Some? ==>
      done + (first.value + rest.value) == (done + first.value) + rest.value;
  }

  lemma WholeGroups(n: nat)
    ensures 4 * n % 4 == 0
  {
  }

  method DecodeLoop(input: string) returns (r: Option<Bytes>)
    ensures r == Decode(input)
  {
    if |input| % 4 != 0 {
      return None;
    }
    hide DecodeGroup, DecodeGroups, Prepend;
    ghost var groups := |input| / 4;
    assert |input| == 4 * groups;
    var out: Bytes := [];
    var i := 0;
    assert input[0..] == input;
    PrependEnds([], DecodeGroups(input));
    while i < |input|
      invariant 0 <= groups && i + 4 * groups == |input| && |input[i..]| % 4 == 0
      invariant DecodeGroups(input) == Prepend(out, DecodeGroups(input[i..]))
    {
      var group := DecodeGroup(input[i..i + 4]);
      SliceOfTail(input, i, 0, 4);
      PrependStep(out, input[i..]);
      if group.None? {
        return None;
      }
      groups := groups - 1;
      WholeGroups(groups);
      out := out + group.value;
      i := i + 4;
    }
    assert input[i..] == "";
    NoGroups();
    PrependEnds(out, None);
    return Some(out);
  }

  lemma NoGroups()
    ensures DecodeGroups("") == Some([])
  {
  }

  // ----- Round trip -----

  lemma Sextets(value: int)
    requires 0 <= value < 0x1000000
    ensures value / 0x40000 % 64 * 0x40000 + value / 0x1000 % 64 * 0x1000 + value / 0x40 % 64 * 0x40 + value % 64
         == value
  {
    var a := value / 64;
    var b := a / 64;
    var c := b / 64;
    assert value / 0x1000 == b && value / 0x40000 == c;
    assert value == 64 * a + value % 64 && a == 64 * b + a % 64 && b == 64 * c + b % 64;
  }

  lemma SplitOctet(high: int, low: int)
    requires 0 <= low < 256
    ensures (256 * high + low) / 256 == high && (256 * high + low) % 256 == low
  {
  }

  lemma TwoOctetsUp(value: int)
    requires value >= 0
    ensures value / 0x10000 == value / 256 / 256
  {
    var high := value / 256;
    var top := high / 256;
    assert value == 256 * (256 * top + high % 256) + value % 256;
  }

  lemma LowSextetClear(high: int)
    requires high >= 0
    ensures 256 * high % 64 == 0
  {
    assert 256 * high == 64 * (4 * high) + 0;
  }

  lemma MiddleSextetClear(b0: int)
    requires b0 >= 0
    ensures b0 * 0x10000 / 0x40 % 64 == 0
  {
    assert b0 * 0x10000 == 0x40 * (1024 * b0);
    assert b0 * 0x10000 / 0x40 == 1024 * b0;
    assert 1024 * b0 == 64 * (16 * b0) + 0;
  }

  lemma Octets(b0: int, b1: int, b2: int)
    requires 0 <= b0 < 256 && 0 <= b1 < 256 && 0 <= b2 < 256
    ensures
      var value := b0 * 0x10000 + b1 * 0x100 + b2;
      && value / 0x10000 % 256 == b0 && value / 0x100 % 256 == b1 && value % 256 == b2
      && (b2 == 0 ==> value % 64 == 0) && (b1 == 0 && b2 == 0 ==> value / 0x40 % 64 == 0)
  {
    var high := 256 * b0 + b1;
    var value := b0 * 0x10000 + b1 * 0x100 + b2;
    assert value == 256 * high + b2;
    SplitOctet(high, b2);
    SplitOctet(b0, b1);
    TwoOctetsUp(value);
    LowSextetClear(high);
    MiddleSextetClear(b0);
  }

  lemma GroupRoundTrip(b: Bytes)
    requires 1 <= |b| <= 3
    ensures DecodeGroup(EncodeGroup(b)) == Some(b)
  {
    hide Symbol;
    Sextets(Pack(b));
    Octets(b[0], if |b| > 1 then b[1] else 0, if |b| > 2 then b[2] else 0);
    var s := EncodeGroup(b);
    assert s[2] == '=' <==> |b| == 1;
    assert s[3] == '=' <==> |b| <= 2;
    var r := DecodeGroup(s).value;
    assert r == b;
  }

  /** Decoding undoes encoding for every byte string, in all three padding cases. */
  lemma {:induction false} DecodeInvertsEncode(b: Bytes)
    ensures Decode(Encode(b)) == Some(b)
    ensures |Encode(b)| == (|b| + 2) / 3 * 4
  {
    hide EncodeGroup, DecodeGroup;
    if 0 < |b| <= 3 {
      GroupRoundTrip(b);
      var s := EncodeGroup(b);
      assert s[..4] == s && s[4..] == "" && b + [] == b;
      assert DecodeGroups("") == Some([]);
      assert DecodeGroups(s) == Some(b + []);
    } else if |b| > 3 {
      GroupRoundTrip(b[..3]);
      DecodeInvertsEncode(b[3..]);
      var s := Encode(b);
      assert s[..4] == EncodeGroup(b[..3]) && s[4..] == Encode(b[3..]);
      assert b[..3] + b[3..] == b;
    }
  }

  /** Only characters of the table and the padding sign are produced. */
  lemma {:induction false} EncodeAlphabet(b: Bytes)
    ensures forall i :: 0 <= i < |Encode(b)| ==> SymbolValue(Encode(b)[i]) >= 0 || Encode(b)[i] == '='
  {
    if |b| > 3 {
      EncodeAlphabet(b[3..]);
    }
  }

  // ----- The encoding itself -----

  /** The table of section 4. */
  lemma AlphabetIs(v: int)
    requires 0 <= v < 64
    ensures
      ALPHABET[v] as int ==
      if v < 26 then 65 + v else if v < 52 then 97 + v - 26 else if v < 62 then 48 + v - 52
      else if v == 62 then 43 else 47
  {
    if v < 26 {
      UpperAt(v);
      assert ALPHABET[v] == UPPER[v];
    } else if v < 52 {
      LowerAt(v - 26);
      assert ALPHABET[v] == LOWER[v - 26];
    } else {
      OtherAt(v - 52);
      assert ALPHABET[v] == OTHER[v - 52];
    }
  }

  /** The six bits of a character of encoded text; padding stands for none. */
  function Bits(c: char): int {
    if c == '=' then 0 else SymbolValue(c)
  }

  /** A group holds the bits of its bytes, the first byte in front, and is padded exactly where a
      byte is missing. */
  lemma GroupBits(b: Bytes)
    requires 1 <= |b| <= 3
    ensures
      var s := EncodeGroup(b);
      var b1: int := if |b| > 1 then b[1] else 0;
      var b2: int := if |b| > 2 then b[2] else 0;
      && Bits(s[0]) * 0x40000 + Bits(s[1]) * 0x1000 + Bits(s[2]) * 0x40 + Bits(s[3])
           == b[0] as int * 0x10000 + b1 * 0x100 + b2
      && s[0] != '=' && s[1] != '=' && (s[2] == '=' <==> |b| < 2) && (s[3] == '=' <==> |b| < 3)
  {
    hide Symbol;
    Sextets(Pack(b));
    Octets(b[0], if |b| > 1 then b[1] else 0, if |b| > 2 then b[2] else 0);
  }

  lemma SymbolIs(v: int)
    requires 0 <= v < 64
    ensures Symbol(v) as int == if v < 26 then 65 + v else if v < 52 then 71 + v else if v < 62 then v - 4
                                else if v == 62 then 43 else 47
  {
    AlphabetIs(v);
  }

  lemma OneByteVector()
    ensures EncodeGroup([102]) == "Zg=="
  {
    hide Symbol;
    assert Pack([102]) == 6684672;
    SymbolIs(25);
    SymbolIs(32);
  }

  lemma TwoByteVector()
    ensures EncodeGroup([102, 111]) == "Zm8="
  {
    hide Symbol;
    assert Pack([102, 111]) == 6713088;
    SymbolIs(25);
    SymbolIs(38);
    SymbolIs(60);
  }

  lemma ThreeByteVectors()
    ensures EncodeGroup([102, 111, 111]) == "Zm9v" && EncodeGroup([98, 97, 114]) == "YmFy"
  {
    hide Symbol;
    assert Pack([102, 111, 111]) == 6713199 && Pack([98, 97, 114]) == 6447474;
    SymbolIs(25);
    SymbolIs(38);
    SymbolIs(61);
    SymbolIs(47);
    SymbolIs(24);
    SymbolIs(5);
    SymbolIs(50);
  }

  /** The test vectors of section 10 of RFC 4648: "", "f", "fo", "foo" and "foobar". */
  lemma TestVectors()
    ensures Encode([]) == "" && Encode([102]) == "Zg==" && Encode([102, 111]) == "Zm8="
    ensures Encode([102, 111, 111]) == "Zm9v" && Encode([102, 111, 111, 98, 97, 114]) == "Zm9vYmFy"
  {
    OneByteVector();
    TwoByteVector();
    ThreeByteVectors();
    hide EncodeGroup;
    var six := [102, 111, 111, 98, 97, 114];
    assert six[..3] == [102, 111, 111] && six[3..] == [98, 97, 114];
  }
}
