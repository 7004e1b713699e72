/** Building the Engine.IO URL, reading it back, and the percent-encoding of its query
    (sections 2.1 and 2.3 of RFC 3986).  Text is a string of bytes. */
module EngineUrl {
  import opened Options
  import opened PacketText
  import opened Sequences

  predicate IsBytes(s: string) {
    forall i :: 0 <= i < |s| ==> s[i] as int < 256
  }

  // ----- Percent-encoding -----

  predicate Unreserved(c: char) {
    || 'a' <= c <= 'z' || 'A' <= c <= 'Z' || '0' <= c <= '9'
    || c == '-' || c == '.' || c == '_' || c == '~'
  }

  function HexDigit(n: int): (c: char)
    requires 0 <= n < 16
    ensures HexValue(c) == n && c != '%'
  {
    if n < 10 then ('0' as int + n) as char else ('A' as int + n - 10) as char
  }

  /** The value of a hexadecimal digit, or -1. */
  function HexValue(c: char): (n: int)
    ensures -1 <= n < 16
  {
    if '0' <= c <= '9' then c as int - '0' as int
    else if 'A' <= c <= 'F' then c as int - 'A' as int + 10
    else if 'a' <= c <= 'f' then c as int - 'a' as int + 10
    else -1
  }

  function EncodeByte(c: char): string
    requires c as int < 256
  {
    if Unreserved(c) then [c] else ['%', HexDigit(c as int / 16), HexDigit(c as int % 16)]
  }

  /** Letters, digits and "-._~" stand for themselves, every other byte is written as '%' and two
      upper-case hexadecimal digits. */
  lemma EncodeByteIs(c: char)
    requires c as int < 256
    ensures
      EncodeByte(c) ==
      if || 'a' <= c <= 'z' || 'A' <= c <= 'Z' || '0' <= c <= '9' || c == '-' || c == '.' || c == '_' || c == '~'
      then [c]
      else ['%', "0123456789ABCDEF"[c as int / 16], "0123456789ABCDEF"[c as int % 16]]
  {
    HexDigitIs(c as int / 16);
    HexDigitIs(c as int % 16);
  }

  lemma HexDigitIs(n: int)
    requires 0 <= n < 16
    ensures HexDigit(n) == "0123456789ABCDEF"[n]
  {
  }

  function EncodeComponent(s: string): string
    requires IsBytes(s)
  {
    if s == "" then "" else EncodeByte(s[0]) + EncodeComponent(s[1..])
  }

  lemma {:induction false} EncodeAppend(a: string, b: string)
    requires IsBytes(a) && IsBytes(b)
    ensures EncodeComponent(a + b) == EncodeComponent(a) + EncodeComponent(b)
  {
    if a == "" {
      assert a + b == b;
    } else {
      assert (a + b)[0] == a[0] && (a + b)[1..] == a[1..] + b;
      EncodeAppend(a[1..], b);
    }
  }

  /** `encode_query_component`: one character after the other into a stream. */
  method EncodeQueryComponent(value: string) returns (encoded: string)
    requires IsBytes(value)
    ensures encoded == EncodeComponent(value)
  {
    encoded := "";
    var i := 0;
    while i < |value|
      invariant 0 <= i <= |value| && encoded == EncodeComponent(value[..i])
    {
      var c := value[i];
      assert value[..i + 1] == value[..i] + [c];
      EncodeAppend(value[..i], [c]);
      assert [c][1..] == "" && EncodeComponent([c]) == EncodeByte(c);
      if Unreserved(c) {
        encoded := encoded + [c];
      } else {
        encoded := encoded + ['%'];
        encoded := encoded + [HexDigit(c as int / 16), HexDigit(c as int % 16)];
      }
      i := i + 1;
    }
    assert value[..i] == value;
  }

  /** The percent-decoder of a reader: '%' and two hexadecimal digits stand for one byte. */
  function DecodeComponent(s: string): Option<string> {
    if s == "" then Some("")
    else if s[0] == '%' then
      if |s| < 3 || HexValue(s[1]) < 0 || HexValue(s[2]) < 0 then None
      else
        match DecodeComponent(s[3..])
        case None => None
        case Some(rest) => Some([(16 * HexValue(s[1]) + HexValue(s[2])) as char] + rest)
    else
      match DecodeComponent(s[1..])
      case None => None
      case Some(rest) => Some([s[0]] + rest)
  }

  /** One encoded byte in front of text that can be decoded. */
  lemma DecodeFirst(c: char, rest: string)
    requires c as int < 256 && DecodeComponent(rest).Some?
    ensures DecodeComponent(EncodeByte(c) + rest) == Some([c] + DecodeComponent(rest).value)
  {
    var whole := EncodeByte(c) + rest;
    if Unreserved(c) {
      assert whole[0] == c && whole[1..] == rest;
    } else {
      assert whole[0] == '%' && whole[1] == HexDigit(c as int / 16) && whole[2] == HexDigit(c as int % 16);
      assert whole[3..] == rest;
    }
  }

  lemma {:induction false} DecodeInvertsEncode(s: string)
    requires IsBytes(s)
    ensures DecodeComponent(EncodeComponent(s)) == Some(s)
  {
    hide EncodeByte;
    if s != "" {
      DecodeInvertsEncode(s[1..]);
      DecodeFirst(s[0], EncodeComponent(s[1..]));
      assert s == [s[0]] + s[1..];
    }
  }

  /** An encoded component can stand in a query: it has none of the delimiters. */
  lemma {:induction false} EncodedIsSafe(s: string)
    requires IsBytes(s)
    ensures forall i :: 0 <= i < |EncodeComponent(s)| ==>
              Unreserved(EncodeComponent(s)[i]) || EncodeComponent(s)[i] == '%'
  {
    if s != "" {
      EncodedIsSafe(s[1..]);
      EncodedByteIsSafe(s[0]);
    }
  }

  lemma EncodedByteIsSafe(c: char)
    requires c as int < 256
    ensures forall i :: 0 <= i < |EncodeByte(c)| ==> Unreserved(EncodeByte(c)[i]) || EncodeByte(c)[i] == '%'
  {
  }

  // ----- The query -----

  datatype Pair = Pair(key: string, value: string)

  predicate PairOk(p: Pair) {
    IsBytes(p.key) && IsBytes(p.value)
  }

  predicate PairsOk(query: seq<Pair>) {
    forall i :: 0 <= i < |query| ==> PairOk(query[i])
  }

  function PairText(p: Pair): string
    requires PairOk(p)
  {
    EncodeComponent(p.key) + ("=" + EncodeComponent(p.value))
  }

  /** The pairs joined by '&'. */
  function QueryText(query: seq<Pair>): string
    requires PairsOk(query)
  {
    if query == [] then ""
    else if |query| == 1 then PairText(query[0])
    else PairText(query[0]) + ("&" + QueryText(query[1..]))
  }

  function ReadPair(s: string): Option<Pair> {
    var eq := FindChar(s, '=');
    if eq == |s| then None
    else
      match (DecodeComponent(s[..eq]), DecodeComponent(s[eq + 1..]))
      case (Some(key), Some(value)) => Some(Pair(key, value))
      case _ => None
  }

  /** How a server reads a query: split at '&', each part at its first '=', decode. */
  function ReadQuery(s: string): Option<seq<Pair>>
    decreases |s|
  {
    var amp := FindChar(s, '&');
    match ReadPair(s[..amp])
    case None => None
    case Some(first) =>
      if amp == |s| then Some([first])
      else
        match ReadQuery(s[amp + 1..])
        case None => None
        case Some(rest) => Some([first] + rest)
  }

  lemma NoDelimiter(s: string, c: char)
    requires IsBytes(s) && (c == '&' || c == '=')
    ensures c !in EncodeComponent(s)
  {
    hide EncodeComponent;
    EncodedIsSafe(s);
  }

  lemma PairRoundTrip(p: Pair)
    requires PairOk(p)
    ensures ReadPair(PairText(p)) == Some(p)
    ensures '&' !in PairText(p)
  {
    hide EncodeComponent, DecodeComponent;
    var k, v := EncodeComponent(p.key), EncodeComponent(p.value);
    NoDelimiter(p.key, '=');
    NoDelimiter(p.key, '&');
    NoDelimiter(p.value, '&');
    DecodeInvertsEncode(p.key);
    DecodeInvertsEncode(p.value);
    var s := PairText(p);
    assert s[..|k|] == k && s[|k|] == '=' && s[|k| + 1..] == v;
    FindCharIs(s, '=', |k|);
  }

  lemma ReadFirst(p: Pair, rest: string)
    requires PairOk(p)
    ensures ReadQuery(PairText(p)) == Some([p])
    ensures ReadQuery(PairText(p) + ("&" + rest)) ==
            match ReadQuery(rest)
            case None => None
            case Some(q) => Some([p] + q)
  {
    hide PairText, ReadPair;
    var first := PairText(p);
    PairRoundTrip(p);
    FindCharIs(first, '&', |first|);
    assert first[..|first|] == first;
    var whole := first + ("&" + rest);
    assert whole[..|first|] == first && whole[|first|] == '&' && whole[|first| + 1..] == rest;
    FindCharIs(whole, '&', |first|);
  }

  /** Reading the query gives the pairs back, for all byte strings. */
  lemma {:induction false} QueryRoundTrip(query: seq<Pair>)
    requires PairsOk(query) && query != []
    ensures ReadQuery(QueryText(query)) == Some(query)
  {
    hide PairText, ReadQuery;
    assert query == [query[0]] + query[1..];
    if |query| == 1 {
      ReadFirst(query[0], "");
      assert query == [query[0]];
    } else {
      QueryRoundTrip(query[1..]);
      ReadFirst(query[0], QueryText(query[1..]));
    }
  }

  // ----- The URL -----

  /** Position of "://", or the length. */
  function SchemeEnd(s: string): (n: nat)
    ensures n <= |s|
    ensures n < |s| ==> n + 3 <= |s| && s[n..n + 3] == "://"
  {
    if |s| < 3 then |s| else if s[..3] == "://" then 0
    else
      var n := SchemeEnd(s[1..]);
      SliceOfTail(s, 1, n, if n < |s| - 1 then n + 3 else n);
      1 + n
  }

  function Scheme(s: string): string {
    if SchemeEnd(s) == |s| then "" else s[..SchemeEnd(s)]
  }

  /** The URI with its scheme turned into ws or wss; without a known scheme, ws is put in
      front. */
  function WithWsScheme(uri: string): string {
    var scheme := Scheme(uri);
    if scheme == "http" then "ws" + uri[4..]
    else if scheme == "https" then "wss" + uri[5..]
    else if scheme == "ws" || scheme == "wss" then uri
    else "ws://" + uri
  }

  /** Length of the authority at the start of `s`: up to the first '/' or '?'. */
  function AuthorityLength(s: string): nat {
    var slash, mark := FindChar(s, '/'), FindChar(s, '?');
    if slash < mark then slash else mark
  }

  function NormalPath(path: string): (r: string)
    ensures r != "" && r[0] == '/' && r[|r| - 1] == '/'
  {
    var p := if path == "" then "/socket.io/" else path;
    var p := if p[0] != '/' then "/" + p else p;
    if p[|p| - 1] != '/' then p + "/" else p
  }

  /** An empty path becomes the default one; any other only gains the slashes it lacks. */
  lemma NormalPathIs(path: string)
    ensures path == "" ==> NormalPath(path) == "/socket.io/"
    ensures path != "" ==>
              NormalPath(path) ==
              (if path[0] == '/' then "" else "/") + path + (if path[|path| - 1] == '/' then "" else "/")
  {
    if path != "" {
      var p := if path[0] != '/' then "/" + path else path;
      assert p[|p| - 1] == path[|path| - 1];
    }
  }

  predicate Reserved(key: string) {
    key == "EIO" || key == "transport" || key == "sid"
  }

  predicate HasReserved(query: seq<Pair>) {
    exists i :: 0 <= i < |query| && Reserved(query[i].key)
  }

  /** The pairs of the query, the client's own first. */
  function FullQuery(transport: string, query: seq<Pair>): seq<Pair> {
    [Pair("EIO", "4"), Pair("transport", transport)] + query
  }

  /** What stands before the path: scheme and authority. */
  function Origin(uri: string): string {
    var ws := WithWsScheme(uri);
    WsSchemeShape(uri);
    var start := SchemeEnd(ws) + 3;
    ws[..start + AuthorityLength(ws[start..])]
  }

  function OriginAuthority(uri: string): string {
    var ws := WithWsScheme(uri);
    WsSchemeShape(uri);
    var rest := ws[SchemeEnd(ws) + 3..];
    rest[..AuthorityLength(rest)]
  }

  function BuiltUrl(uri: string, path: string, query: seq<Pair>, transport: string): string
    requires PairsOk(FullQuery(transport, query))
  {
    Origin(uri) + (NormalPath(path) + ("?" + QueryText(FullQuery(transport, query))))
  }

  /** `build_engineio_url`; nothing when the query uses a reserved key: std::invalid_argument. */
  method BuildUrl(uri: string, path: string, query: seq<Pair>, transport: string) returns (url: Option<string>)
    requires PairsOk(query) && IsBytes(transport)
    ensures url.None? <==> HasReserved(query)
    ensures url.None? <==>
            exists i :: 0 <= i < |query| &&
                        (query[i].key == "EIO" || query[i].key == "transport" || query[i].key == "sid")
    ensures url.Some? ==>
      PairsOk(FullQuery(transport, query)) && url.value == BuiltUrl(uri, path, query, transport)
  {
    hide Origin, NormalPath, QueryText, EncodeComponent;
    var base := Origin(uri);
    var normal := NormalPath(path);
    var transportText := EncodeQueryComponent(transport);
    var text := "EIO=4&transport=" + transportText;
    ghost var all := FullQuery(transport, query);
    FixedPart(transport, query);
    var i := 0;
    while i < |query|
      invariant 0 <= i <= |query| && text == QueryText(all[..i + 2])
      invariant forall k :: 0 <= k < i ==> !Reserved(query[k].key)
    {
      if Reserved(query[i].key) {
        return None;
      }
      assert PairOk(query[i]);
      var key := EncodeQueryComponent(query[i].key);
      var value := EncodeQueryComponent(query[i].value);
      text := text + ("&" + (key + ("=" + value)));
      assert all[..i + 3] == all[..i + 2] + [query[i]];
      QuerySnoc(all[..i + 2], query[i]);
      i := i + 1;
    }
    assert all[..i + 2] == all;
    return Some(base + (normal + ("?" + text)));
  }

  lemma {:induction false} QuerySnoc(query: seq<Pair>, p: Pair)
    requires PairsOk(query) && query != [] && PairOk(p)
    ensures PairsOk(query + [p]) && QueryText(query + [p]) == QueryText(query) + ("&" + PairText(p))
  {
    hide PairText, EncodeComponent;
    var all := query + [p];
    var first, last := PairText(query[0]), PairText(p);
    assert all[1..] == query[1..] + [p] && all[0] == query[0];
    if |query| == 1 {
      assert all[1..] == [p];
      assert QueryText(all) == first + ("&" + QueryText([p]));
    } else {
      QuerySnoc(query[1..], p);
      var middle := QueryText(query[1..]);
      assert QueryText(all) == first + ("&" + (middle + ("&" + last)));
      assert QueryText(query) == first + ("&" + middle);
    }
  }

  lemma FixedPairs(transport: string)
    requires IsBytes(transport)
    ensures PairOk(Pair("EIO", "4")) && PairText(Pair("EIO", "4")) == "EIO=4"
    ensures PairText(Pair("transport", transport)) == "transport=" + EncodeComponent(transport)
  {
    hide EncodeComponent;
    PlainText("EIO");
    PlainText("4");
    PlainText("transport");
  }

  lemma FixedPart(transport: string, query: seq<Pair>)
    requires PairsOk(query) && IsBytes(transport)
    ensures PairsOk(FullQuery(transport, query))
    ensures QueryText(FullQuery(transport, query)[..2]) == "EIO=4&transport=" + EncodeComponent(transport)
  {
    hide EncodeComponent, PairText;
    FixedPairs(transport);
    var version, kind := Pair("EIO", "4"), Pair("transport", transport);
    var fixed := [version, kind];
    assert FullQuery(transport, query)[..2] == fixed;
    assert fixed[1..] == [kind];
    assert QueryText([kind]) == PairText(kind);
    assert QueryText(fixed) == "EIO=4" + ("&" + ("transport=" + EncodeComponent(transport)));
  }

  lemma {:induction false} PlainText(s: string)
    requires forall i :: 0 <= i < |s| ==> Unreserved(s[i])
    ensures IsBytes(s) && EncodeComponent(s) == s
  {
    if s != "" {
      PlainText(s[1..]);
      assert s == [s[0]] + s[1..];
    }
  }

  lemma {:induction false} SchemeEndIs(s: string, n: nat)
    requires n + 3 <= |s| && s[n..n + 3] == "://" && forall i :: 0 <= i < n ==> s[i] != ':'
    ensures SchemeEnd(s) == n
  {
    if n == 0 {
      assert s[..3] == s[0..3];
    } else {
      assert s[0] != ':' && s[..3][0] == s[0];
      assert s[1..][n - 1..n + 2] == s[n..n + 3];
      SchemeEndIs(s[1..], n - 1);
    }
  }

  lemma SchemeIsPrefix(uri: string)
    requires Scheme(uri) != ""
    ensures
      var k := |Scheme(uri)|;
      k + 3 <= |uri| && uri == Scheme(uri) + uri[k..] && uri[k..][..3] == "://"
  {
    hide SchemeEnd;
    var k := SchemeEnd(uri);
    SliceOfTail(uri, k, 0, 3);
  }

  /** Any scheme without a colon in front of "://". */
  lemma SchemeInFront(scheme: string, rest: string)
    requires |rest| >= 3 && rest[..3] == "://" && forall i :: 0 <= i < |scheme| ==> scheme[i] != ':'
    ensures
      var ws, n := scheme + rest, |scheme|;
      SchemeEnd(ws) == n && ws[..n] == scheme && n + 3 <= |ws| && ws[n..n + 3] == "://"
  {
    hide SchemeEnd;
    var ws, n := scheme + rest, |scheme|;
    Slices(scheme, rest);
    SliceOfTail(ws, n, 0, 3);
    SchemeEndIs(ws, n);
  }

  lemma WsSchemeShape(uri: string)
    ensures
      var ws := WithWsScheme(uri);
      var n := SchemeEnd(ws);
      && n + 3 <= |ws| && ws[n..n + 3] == "://"
      && ws[..n] == (if Scheme(uri) == "https" || Scheme(uri) == "wss" then "wss" else "ws")
  {
    hide SchemeEnd, Scheme;
    var scheme := Scheme(uri);
    if scheme == "http" || scheme == "https" || scheme == "ws" || scheme == "wss" {
      SchemeIsPrefix(uri);
      var ws := if scheme == "https" || scheme == "wss" then "wss" else "ws";
      SchemeInFront(ws, uri[|scheme|..]);
    } else {
      assert "ws://" + uri == "ws" + ("://" + uri);
      assert ("://" + uri)[..3] == "://";
      SchemeInFront("ws", "://" + uri);
    }
  }

  // ----- Reading the URL -----

  datatype Parts = Parts(scheme: string, tls: bool, authority: string, target: string)

  /** `parse_ws_url` up to the split of the authority into host and port. */
  function ParseUrl(url: string): Option<Parts> {
    var n := SchemeEnd(url);
    if n == |url| then None
    else
      var rest := url[n + 3..];
      var slash := FindChar(rest, '/');
      Some(Parts(url[..n], url[..n] == "wss" || url[..n] == "https",
                 rest[..slash], if slash == |rest| then "/" else rest[slash..]))
  }

  lemma AuthorityHasNoSlash(s: string)
    ensures AuthorityLength(s) <= |s| && forall i :: 0 <= i < AuthorityLength(s) ==> s[i] != '/'
  {
  }

  /** The origin is scheme, "://" and an authority without '/'. */
  lemma OriginShape(uri: string)
    ensures Origin(uri) == (if Scheme(uri) == "https" || Scheme(uri) == "wss" then "wss" else "ws")
                           + ("://" + OriginAuthority(uri))
    ensures '/' !in OriginAuthority(uri)
  {
    hide SchemeEnd, Scheme, AuthorityLength, WithWsScheme;
    WsSchemeShape(uri);
    var ws := WithWsScheme(uri);
    var n := SchemeEnd(ws);
    AuthorityHasNoSlash(ws[n + 3..]);
    var k := AuthorityLength(ws[n + 3..]);
    SliceOfTail(ws, n + 3, 0, k);
    assert OriginAuthority(uri) == ws[n + 3..n + 3 + k];
    assert ws[..n + 3 + k] == ws[..n] + (ws[n..n + 3] + ws[n + 3..n + 3 + k]);
  }

  /** Behind the scheme, or at the start when there is none, the authority goes up to the first
      '/' or '?' and reaches the URL unchanged. */
  lemma AuthoritySurvives(scheme: string, authority: string, rest: string)
    requires scheme == "http" || scheme == "https" || scheme == "ws" || scheme == "wss"
    requires '/' !in authority && '?' !in authority && (rest == "" || rest[0] == '/' || rest[0] == '?')
    ensures OriginAuthority(scheme + ("://" + (authority + rest))) == authority
    ensures Scheme(scheme + ("://" + (authority + rest))) == scheme
  {
    var tail := "://" + (authority + rest);
    assert tail[..3] == "://" && forall i :: 0 <= i < |scheme| ==> scheme[i] != ':';
    SchemeIs(scheme, tail);
    hide Scheme, OriginAuthority, WithWsScheme;
    var ws := if scheme == "http" || scheme == "ws" then "ws" else "wss";
    WithWsSchemeIs(scheme, ws, tail);
    OriginAuthorityIs(scheme + tail, ws, authority, rest);
  }

  lemma SchemeIs(scheme: string, tail: string)
    requires |tail| >= 3 && tail[..3] == "://" && forall i :: 0 <= i < |scheme| ==> scheme[i] != ':'
    ensures Scheme(scheme + tail) == scheme
  {
    SchemeInFront(scheme, tail);
    hide SchemeEnd;
    Slices(scheme, tail);
  }

  lemma BehindScheme(ws: string, body: string)
    requires ws == "ws" || ws == "wss"
    ensures
      var text, n := ws + ("://" + body), |ws|;
      SchemeEnd(text) == n && n + 3 <= |text| && text[n + 3..] == body
  {
    var tail := "://" + body;
    assert tail[..3] == "://" && tail[3..] == body && forall i :: 0 <= i < |ws| ==> ws[i] != ':';
    SchemeInFront(ws, tail);
    hide SchemeEnd;
    Slices(ws, tail);
    SliceOfTail(ws + tail, |ws|, 3, 3);
  }

  lemma OriginAuthorityIs(uri: string, ws: string, authority: string, rest: string)
    requires (ws == "ws" || ws == "wss") && WithWsScheme(uri) == ws + ("://" + (authority + rest))
    requires '/' !in authority && '?' !in authority && (rest == "" || rest[0] == '/' || rest[0] == '?')
    ensures OriginAuthority(uri) == authority
  {
    hide SchemeEnd, WithWsScheme, AuthorityLength;
    BehindScheme(ws, authority + rest);
    AuthorityIs(authority, rest);
  }

  lemma WithWsSchemeIs(scheme: string, ws: string, tail: string)
    requires Scheme(scheme + tail) == scheme
    requires || (ws == "ws" && (scheme == "http" || scheme == "ws"))
             || (ws == "wss" && (scheme == "https" || scheme == "wss"))
    ensures WithWsScheme(scheme + tail) == ws + tail
  {
    hide Scheme;
    Slices(scheme, tail);
  }

  lemma BareAuthoritySurvives(authority: string, rest: string)
    requires '/' !in authority && '?' !in authority && (rest == "" || rest[0] == '/' || rest[0] == '?')
    requires Scheme(authority + rest) == ""
    ensures OriginAuthority(authority + rest) == authority
  {
    hide Scheme, OriginAuthority;
    assert "ws://" + (authority + rest) == "ws" + ("://" + (authority + rest));
    OriginAuthorityIs(authority + rest, "ws", authority, rest);
  }

  lemma AuthorityIs(authority: string, rest: string)
    requires '/' !in authority && '?' !in authority && (rest == "" || rest[0] == '/' || rest[0] == '?')
    ensures AuthorityLength(authority + rest) == |authority| && (authority + rest)[..|authority|] == authority
  {
    var s, n := authority + rest, |authority|;
    assert forall i :: 0 <= i < n ==> s[i] == authority[i];
    var slash, mark := FindChar(s, '/'), FindChar(s, '?');
    assert slash >= n && mark >= n;
    if rest != "" {
      assert s[n] == rest[0];
    }
  }

  /** A URL made of the three parts parses into them. */
  lemma PartsParse(scheme: string, authority: string, target: string)
    requires forall i :: 0 <= i < |scheme| ==> scheme[i] != ':'
    requires '/' !in authority && target != "" && target[0] == '/'
    ensures
      ParseUrl(scheme + ("://" + (authority + target)))
        == Some(Parts(scheme, scheme == "wss" || scheme == "https", authority, target))
  {
    hide SchemeEnd;
    var rest := authority + target;
    SlicesOfThree(scheme, "://", rest);
    SchemeEndIs(scheme + ("://" + rest), |scheme|);
    Slices(authority, target);
    FindCharIs(rest, '/', |authority|);
  }

  /** Without a path the target is "/". */
  lemma BareParse(scheme: string, authority: string)
    requires forall i :: 0 <= i < |scheme| ==> scheme[i] != ':'
    requires '/' !in authority
    ensures
      ParseUrl(scheme + ("://" + authority))
        == Some(Parts(scheme, scheme == "wss" || scheme == "https", authority, "/"))
  {
    hide SchemeEnd;
    SlicesOfThree(scheme, "://", authority);
    SchemeEndIs(scheme + ("://" + authority), |scheme|);
    assert authority[..|authority|] == authority;
    FindCharIs(authority, '/', |authority|);
  }

  predicate MarkAt(s: string, i: nat)
    requires i + 3 <= |s|
  {
    s[i] == ':' && s[i + 1] == '/' && s[i + 2] == '/'
  }

  /** The scheme ends at the first "://". */
  lemma {:induction false} SchemeEndIsFirst(s: string)
    ensures forall i: nat :: i < SchemeEnd(s) && i + 3 <= |s| ==> !MarkAt(s, i)
    ensures SchemeEnd(s) < |s| ==> MarkAt(s, SchemeEnd(s))
  {
    if |s| >= 3 {
      assert s[..3] == "://" <==> MarkAt(s, 0);
      if s[..3] != "://" {
        SchemeEndIsFirst(s[1..]);
        forall i: nat | 0 < i < SchemeEnd(s) && i + 3 <= |s|
          ensures !MarkAt(s, i)
        {
          assert MarkAt(s[1..], i - 1) <==> MarkAt(s, i);
        }
      }
    }
  }

  /** A URL is refused exactly when it has no "://": std::invalid_argument. */
  lemma ParseFailsIff(url: string)
    ensures ParseUrl(url).None? <==> forall i: nat :: i + 3 <= |url| ==> !MarkAt(url, i)
  {
    SchemeEndIsFirst(url);
  }

  /** The built URL parses into its origin, the normalised path and the query text, with TLS
      exactly when the application asked for https or wss. */
  lemma UrlParts(uri: string, path: string, query: seq<Pair>, transport: string)
    requires PairsOk(query) && IsBytes(transport)
    ensures PairsOk(FullQuery(transport, query))
    ensures
      var text := QueryText(FullQuery(transport, query));
      var parts := ParseUrl(BuiltUrl(uri, path, query, transport));
      && parts.Some?
      && parts.value.target == NormalPath(path) + ("?" + text)
      && (parts.value.tls <==> Scheme(uri) == "https" || Scheme(uri) == "wss")
      && parts.value.scheme == (if Scheme(uri) == "https" || Scheme(uri) == "wss" then "wss" else "ws")
      && parts.value.authority == OriginAuthority(uri)
  {
    hide Origin, OriginAuthority, Scheme, QueryText, NormalPath, SchemeEnd, ReadQuery, ParseUrl;
    FixedPart(transport, query);
    var target := NormalPath(path) + ("?" + QueryText(FullQuery(transport, query)));
    OriginShape(uri);
    var scheme := if Scheme(uri) == "https" || Scheme(uri) == "wss" then "wss" else "ws";
    var authority := OriginAuthority(uri);
    Reassociate(scheme, "://", authority, target);
    assert target[0] == NormalPath(path)[0];
    PartsParse(scheme, authority, target);
  }

  // ----- What a server makes of the target -----

  /** The query of a request target: what follows its first '?'. */
  function TargetQuery(target: string): string {
    var mark := FindChar(target, '?');
    if mark == |target| then "" else target[mark + 1..]
  }

  lemma NormalPathMarks(path: string)
    ensures '?' in NormalPath(path) <==> '?' in path
  {
    if path != "" {
      var p := if path[0] != '/' then "/" + path else path;
      assert '?' in p <==> '?' in path;
      assert '?' in NormalPath(path) <==> '?' in p;
    }
  }

  /** A character that is neither '%' nor a hexadecimal digit survives decoding. */
  lemma {:induction false} DecodeKeeps(s: string, c: char)
    requires c in s && c != '%' && HexValue(c) < 0 && DecodeComponent(s).Some?
    ensures c in DecodeComponent(s).value
  {
    var k := if s[0] == '%' then 3 else 1;
    if s[0] != c {
      assert s == s[..k] + s[k..];
      DecodeKeeps(s[k..], c);
    }
  }

  function Count(s: string, c: char): nat {
    if s == "" then 0 else (if s[0] == c then 1 else 0) + Count(s[1..], c)
  }

  lemma {:induction false} CountAppend(a: string, b: string, c: char)
    ensures Count(a + b, c) == Count(a, c) + Count(b, c)
  {
    if a == "" {
      assert a + b == b;
    } else {
      assert (a + b)[0] == a[0] && (a + b)[1..] == a[1..] + b;
      CountAppend(a[1..], b, c);
    }
  }

  lemma {:induction false} CountZero(s: string, c: char)
    ensures Count(s, c) == 0 <==> c !in s
  {
    if s != "" {
      CountZero(s[1..], c);
      assert s == [s[0]] + s[1..];
    }
  }

  /** A query that can be read has one pair more than it has '&'. */
  lemma {:induction false} ReadCounts(s: string)
    requires ReadQuery(s).Some?
    ensures |ReadQuery(s).value| == Count(s, '&') + 1
    decreases |s|
  {
    hide ReadPair;
    var amp := FindChar(s, '&');
    CountZero(s[..amp], '&');
    assert s == s[..amp] + s[amp..];
    CountAppend(s[..amp], s[amp..], '&');
    if amp < |s| {
      ReadCounts(s[amp + 1..]);
      assert s[amp..][0] == '&' && s[amp..][1..] == s[amp + 1..];
    }
  }

  /** A pair with a '?' in its text is not the protocol version. */
  lemma MarkedPair(s: string)
    requires '?' in s
    ensures ReadPair(s) != Some(Pair("EIO", "4"))
  {
    hide DecodeComponent;
    var eq := FindChar(s, '=');
    if eq < |s| {
      assert s == s[..eq] + ['='] + s[eq + 1..];
      if '?' in s[..eq] && DecodeComponent(s[..eq]).Some? {
        DecodeKeeps(s[..eq], '?');
      }
      if '?' in s[eq + 1..] && DecodeComponent(s[eq + 1..]).Some? {
        DecodeKeeps(s[eq + 1..], '?');
      }
    }
  }

  lemma ReadStarts(s: string)
    requires ReadQuery(s).Some?
    ensures ReadQuery(s).value != [] && ReadPair(s[..FindChar(s, '&')]) == Some(ReadQuery(s).value[0])
  {
    hide ReadPair;
  }

  /** Anything in front of the '?' spoils the query: either it adds a pair or it joins the
      first one. */
  lemma SpoiltQuery(before: string, transport: string, query: seq<Pair>)
    requires PairsOk(query) && IsBytes(transport)
    ensures PairsOk(FullQuery(transport, query))
    ensures
      ReadQuery(before + ("?" + QueryText(FullQuery(transport, query)))) != Some(FullQuery(transport, query))
  {
    hide QueryText, ReadQuery, ReadPair, Count;
    FixedPart(transport, query);
    var full := FullQuery(transport, query);
    var text := QueryText(full);
    var s := before + ("?" + text);
    if ReadQuery(s) == Some(full) {
      QueryRoundTrip(full);
      ReadCounts(s);
      ReadCounts(text);
      CountAppend(before, "?" + text, '&');
      CountAppend("?", text, '&');
      CountZero("?", '&');
      CountZero(before, '&');
      ReadStarts(s);
      var amp := FindChar(s, '&');
      assert s[|before|] == '?';
      assert forall i :: 0 <= i <= |before| ==> s[i] != '&';
      assert s[..amp][|before|] == '?';
      MarkedPair(s[..amp]);
    }
  }

  lemma UnmarkedTarget(normal: string, text: string)
    requires '?' !in normal
    ensures TargetQuery(normal + ("?" + text)) == text
  {
    SlicesOfThree(normal, "?", text);
    FindCharIs(normal + ("?" + text), '?', |normal|);
  }

  lemma MarkedTarget(normal: string, text: string) returns (before: string)
    requires '?' in normal
    ensures TargetQuery(normal + ("?" + text)) == before + ("?" + text)
  {
    var target, mark := normal + ("?" + text), FindChar(normal, '?');
    Slices(normal, "?" + text);
    FindCharIs(target, '?', mark);
    before := normal[mark + 1..];
    assert target[mark + 1..] == before + ("?" + text);
  }

  /** A server that reads the query of the built URL gets the protocol version, the transport
      and the application's pairs exactly when the path contains no '?'. */
  lemma UrlRoundTripIff(uri: string, path: string, query: seq<Pair>, transport: string)
    requires PairsOk(query) && IsBytes(transport)
    ensures PairsOk(FullQuery(transport, query))
    ensures ParseUrl(BuiltUrl(uri, path, query, transport)).Some?
    ensures
      var parts := ParseUrl(BuiltUrl(uri, path, query, transport)).value;
      ReadQuery(TargetQuery(parts.target)) == Some(FullQuery(transport, query)) <==> '?' !in path
  {
    hide QueryText, ReadQuery, NormalPath, ParseUrl, BuiltUrl, TargetQuery;
    UrlParts(uri, path, query, transport);
    NormalPathMarks(path);
    var normal, text := NormalPath(path), QueryText(FullQuery(transport, query));
    if '?' in normal {
      var before := MarkedTarget(normal, text);
      SpoiltQuery(before, transport, query);
    } else {
      UnmarkedTarget(normal, text);
      QueryRoundTrip(FullQuery(transport, query));
    }
  }

  /** A path that loses the query. */
  lemma MarkedPathLosesQuery(uri: string, query: seq<Pair>)
    requires PairsOk(query)
    ensures PairsOk(FullQuery("polling", query)) && ParseUrl(BuiltUrl(uri, "/a?b/", query, "polling")).Some?
    ensures
      var parts := ParseUrl(BuiltUrl(uri, "/a?b/", query, "polling")).value;
      ReadQuery(TargetQuery(parts.target)) != Some(FullQuery("polling", query))
  {
    hide ReadQuery, ParseUrl, BuiltUrl;
    assert "/a?b/"[2] == '?';
    UrlRoundTripIff(uri, "/a?b/", query, "polling");
  }

  // ----- Host and port -----

  /** `rfind`: the last position of `c`, or the length. */
  function FindLast(s: string, c: char): (n: nat)
    ensures n <= |s|
    ensures n < |s| ==> s[n] == c && forall i :: n < i < |s| ==> s[i] != c
    ensures n == |s| ==> c !in s
  {
    if s == "" then 0
    else
      var rest := FindLast(s[1..], c);
      if rest < |s| - 1 then rest + 1 else if s[0] == c then 0 else |s|
  }

  datatype HostPort = HostPort(host: string, port: string)

  function DefaultPort(tls: bool): string {
    if tls then "443" else "80"
  }

  /** The rest of `parse_ws_url`. */
  function SplitAuthority(authority: string, tls: bool): HostPort {
    var last, bracket := FindLast(authority, ':'), FindChar(authority, ']');
    var colon :=
      if last < |authority| && bracket < last then bracket + FindChar(authority[bracket..], ':') else last;
    if colon < |authority| then HostPort(authority[..colon], authority[colon + 1..])
    else HostPort(authority, DefaultPort(tls))
  }

  /** An authority as section 3.2 of RFC 3986 forms it: a name or an IPv4 address, or an IPv6
      address in brackets, and an optional port. */
  datatype Authority = Authority(name: string, bracketed: bool, port: Option<string>)

  predicate AuthorityOk(a: Authority) {
    && ']' !in a.name && (!a.bracketed ==> ':' !in a.name)
    && (a.port.Some? ==> ':' !in a.port.value && ']' !in a.port.value)
  }

  function HostText(a: Authority): string {
    if a.bracketed then "[" + a.name + "]" else a.name
  }

  function AuthorityText(a: Authority): string {
    if a.port.Some? then HostText(a) + (":" + a.port.value) else HostText(a)
  }

  lemma LastColon(host: string, port: string)
    requires ':' !in port
    ensures FindLast(host + (":" + port), ':') == |host|
  {
    var s := host + (":" + port);
    SlicesOfThree(host, ":", port);
    assert s[|host|] == s[|host|..|host| + 1][0];
    assert forall i :: |host| < i < |s| ==> s[i] == port[i - |host| - 1];
  }

  lemma FirstBracket(name: string, rest: string)
    requires ']' !in name
    ensures FindChar("[" + name + "]" + rest, ']') == |name| + 1
  {
    var s := "[" + name + "]" + rest;
    assert forall i :: 1 <= i <= |name| ==> s[i] == name[i - 1];
    FindCharIs(s, ']', |name| + 1);
  }

  /** Where the three searches of the split end. */
  lemma PortPositions(a: Authority)
    requires AuthorityOk(a) && a.port.Some?
    ensures
      var s, h := AuthorityText(a), HostText(a);
      && FindLast(s, ':') == |h|
      && (if a.bracketed then h != "" && FindChar(s, ']') == |h| - 1 && s[|h| - 1] == ']'
          else FindChar(s, ']') == |s|)
  {
    hide FindLast;
    LastColon(HostText(a), a.port.value);
    if a.bracketed {
      FirstBracket(a.name, ":" + a.port.value);
    } else {
      assert ']' !in AuthorityText(a);
    }
  }

  lemma SplitWithPort(a: Authority, tls: bool)
    requires AuthorityOk(a) && a.port.Some?
    ensures SplitAuthority(AuthorityText(a), tls) == HostPort(HostText(a), a.port.value)
  {
    hide HostText, FindLast, AuthorityOk;
    var s, h := AuthorityText(a), HostText(a);
    PortPositions(a);
    SlicesOfThree(h, ":", a.port.value);
    assert s[|h|] == s[|h|..|h| + 1][0] == ':';
    if a.bracketed {
      FindCharIs(s[|h| - 1..], ':', 1);
    }
  }

  lemma SplitWithoutColon(s: string, tls: bool)
    requires ':' !in s
    ensures SplitAuthority(s, tls) == HostPort(s, DefaultPort(tls))
  {
  }

  /** An address with a colon in brackets and no port is cut inside the brackets. */
  lemma SplitInsideBrackets(a: Authority, tls: bool)
    requires AuthorityOk(a) && a.bracketed && a.port.None? && ':' in a.name
    ensures SplitAuthority(AuthorityText(a), tls).host != HostText(a)
  {
    var s := AuthorityText(a);
    assert forall i :: 0 <= i < |a.name| ==> s[i + 1] == a.name[i];
    assert ':' in s && s[|s| - 1] == ']';
    var last := FindLast(s, ':');
    assert last < |s| - 1;
    forall i | 0 <= i < last
      ensures s[i] != ']'
    {
      assert i > 0 ==> s[i] == a.name[i - 1];
    }
    assert FindChar(s, ']') > last;
  }

  /** Host and port are recovered from every authority except a bracketed address that has a
      colon and no port. */
  lemma SplitAuthorityIff(a: Authority, tls: bool)
    requires AuthorityOk(a)
    ensures
      SplitAuthority(AuthorityText(a), tls)
        == HostPort(HostText(a), if a.port.Some? then a.port.value else if tls then "443" else "80")
      <==> !(a.bracketed && a.port.None? && ':' in a.name)
  {
    hide SplitAuthority;
    if a.port.Some? {
      SplitWithPort(a, tls);
    } else if a.bracketed && ':' in a.name {
      SplitInsideBrackets(a, tls);
    } else {
      SplitWithoutColon(HostText(a), tls);
    }
  }
}
