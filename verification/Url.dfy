/** The request URL: escaped path segments, and the unescaped suffix of the tilde forms. */
module Url {
  import opened Prelude

  type Bytes = seq<byte>

  const SLASH: byte := 0x2F
  const PERCENT: byte := 0x25
  const TILDE: byte := 0x7E
  const QUERY: byte := 0x3F

  // ---------------------------------------------------------- path escaping

  predicate Alphanumeric(b: byte) {
    0x30 <= b <= 0x39 || 0x41 <= b <= 0x5A || 0x61 <= b <= 0x7A
  }

  /** The bytes a path segment may carry as they are: unreserved characters
      (section 2.3 of RFC 3986) and $ & + : = @. */
  predicate Plain(b: byte) {
    || Alphanumeric(b)
    || b == 0x2D || b == 0x2E || b == 0x5F || b == TILDE
    || b == 0x24 || b == 0x26 || b == 0x2B || b == 0x3A || b == 0x3D || b == 0x40
  }

  function HexDigit(d: nat): byte
    requires d < 16
  {
    if d < 10 then 0x30 + d else 0x41 + d - 10
  }

  function EscapeByte(b: byte): Bytes {
    if Plain(b) then [b] else [PERCENT, HexDigit(b / 16), HexDigit(b % 16)]
  }

  function PathEscape(s: Bytes): Bytes {
    if s == [] then [] else EscapeByte(s[0]) + PathEscape(s[1..])
  }

  function HexValue(b: byte): Option<nat> {
    if 0x30 <= b <= 0x39 then Some(b - 0x30)
    else if 0x41 <= b <= 0x46 then Some(b - 0x41 + 10)
    else if 0x61 <= b <= 0x66 then Some(b - 0x61 + 10)
    else None
  }

  /** Percent-decoding (section 2.1 of RFC 3986). */
  function Decode(s: Bytes): Option<Bytes> {
    if s == [] then Some([])
    else if s[0] != PERCENT then
      match Decode(s[1..])
      case None => None
      case Some(rest) => Some([s[0]] + rest)
    else if |s| < 3 || HexValue(s[1]).None? || HexValue(s[2]).None? then None
    else
      match Decode(s[3..])
      case None => None
      case Some(rest) => Some([HexValue(s[1]).value * 16 + HexValue(s[2]).value] + rest)
  }

  lemma HexRoundTrip(d: nat)
    requires d < 16
    ensures HexValue(HexDigit(d)) == Some(d) && !(HexDigit(d) == PERCENT)
  {
  }

  lemma DecodePair(d: nat, e: nat, rest: Bytes)
    requires d < 16 && e < 16 && Decode(rest).Some?
    ensures Decode([PERCENT, HexDigit(d), HexDigit(e)] + rest) == Some([d * 16 + e] + Decode(rest).value)
  {
    HexRoundTrip(d);
    HexRoundTrip(e);
    var s := [PERCENT, HexDigit(d), HexDigit(e)] + rest;
    assert s[3..] == rest;
  }

  lemma DecodeByte(b: byte, rest: Bytes)
    requires Decode(rest).Some?
    ensures Decode(EscapeByte(b) + rest) == Some([b] + Decode(rest).value)
  {
    if Plain(b) {
      assert ([b] + rest)[1..] == rest;
    } else {
      DecodePair(b / 16, b % 16, rest);
    }
  }

  /** Escaping is undone by decoding, for every byte string. */
  lemma {:induction false} EscapeRoundTrip(s: Bytes)
    ensures Decode(PathEscape(s)) == Some(s)
  {
    if s != [] {
      EscapeRoundTrip(s[1..]);
      DecodeByte(s[0], PathEscape(s[1..]));
      assert [s[0]] + s[1..] == s;
    }
  }

  /** An escaped segment contains no slash and no question mark, and a tilde only where the segment had one. */
  lemma {:induction false} EscapedBytes(s: Bytes)
    ensures SLASH !in PathEscape(s) && QUERY !in PathEscape(s)
    ensures TILDE in PathEscape(s) <==> TILDE in s
    ensures s != [] ==> PathEscape(s) != []
  {
    if s != [] {
      EscapedBytes(s[1..]);
    }
  }

  // ------------------------------------------------------------ the request

  datatype Config = Config(host: Bytes, partner: bool, accountId: Bytes)

  datatype UrlError = NoPath | EmptySegment | BadSuffix

  /** A-Z a-z 0-9 + = */
  predicate Base64(b: byte) {
    Alphanumeric(b) || b == 0x2B || b == 0x3D
  }

  /** ~ followed by one or more of A-Z a-z 0-9 + / =. */
  predicate ValidSuffix(s: Bytes) {
    && |s| >= 2 && s[0] == TILDE
    && forall i | 1 <= i < |s| :: Base64(s[i]) || s[i] == SLASH
  }

  const PARTNER: Bytes := [SLASH, 0x70, 0x61, 0x72, 0x74, 0x6E, 0x65, 0x72]
  const API_ROOT: Bytes := [SLASH, 0x61, 0x70, 0x69, SLASH, 0x72, 0x65, 0x73, 0x74, SLASH, 0x76, 0x31, SLASH]

  function Base(cfg: Config): Bytes {
    cfg.host + (if cfg.partner then PARTNER else []) + API_ROOT
  }

  /** Account and segments, escaped and joined by slashes. */
  function Joined(segments: seq<Bytes>): Bytes {
    if segments == [] then []
    else if |segments| == 1 then PathEscape(segments[0])
    else PathEscape(segments[0]) + [SLASH] + Joined(segments[1..])
  }

  /** The encoded query string, if there is one. */
  function Tail(query: Bytes): Bytes {
    if query == [] then [] else [QUERY] + query
  }

  function UrlFrom(base: Bytes, segments: seq<Bytes>, suffix: Bytes, query: Bytes): Bytes {
    base + Joined(segments) + suffix + Tail(query)
  }

  function UrlOf(cfg: Config, path: seq<Bytes>, suffix: Bytes, query: Bytes): Bytes {
    UrlFrom(Base(cfg), [cfg.accountId] + path, suffix, query)
  }

  function Check(path: seq<Bytes>, suffix: Bytes): Option<UrlError> {
    if path == [] then Some(NoPath)
    else if [] in path then Some(EmptySegment)
    else if suffix != [] && !ValidSuffix(suffix) then Some(BadSuffix)
    else None
  }

  lemma {:induction false} JoinedSnoc(segments: seq<Bytes>, last: Bytes)
    requires segments != []
    ensures Joined(segments + [last]) == Joined(segments) + [SLASH] + PathEscape(last)
  {
    if |segments| == 1 {
      assert (segments + [last])[1..] == [last];
    } else {
      JoinedSnoc(segments[1..], last);
      assert (segments + [last])[1..] == segments[1..] + [last];
      var head, middle := PathEscape(segments[0]) + [SLASH], Joined(segments[1..]);
      Assoc(head, middle + [SLASH], PathEscape(last));
      Assoc(head, middle, [SLASH]);
    }
  }

  /** The builder: segment after segment behind the base. */
  method BuildUrl(cfg: Config, path: seq<Bytes>, suffix: Bytes, query: Bytes) returns (r: Result<Bytes, UrlError>)
    ensures r == match Check(path, suffix)
                 case Some(e) => Err(e)
                 case None => Ok(UrlOf(cfg, path, suffix, query))
  {
    if |path| == 0 {
      return Err(NoPath);
    }
    var i := 0;
    while i < |path|
      invariant 0 <= i <= |path|
      invariant [] !in path[..i]
    {
      if path[i] == [] {
        assert [] in path;
        return Err(EmptySegment);
      }
      i := i + 1;
    }
    assert path[..|path|] == path;
    if suffix != [] && !ValidSuffix(suffix) {
      return Err(BadSuffix);
    }
    var b := cfg.host;
    if cfg.partner {
      b := b + PARTNER;
    }
    b := b + API_ROOT;
    assert b == Base(cfg);
    b := WritePath(b, cfg.accountId, path);
    b := b + suffix;
    b := WriteQuery(b, query);
    return Ok(b);
  }

  method WritePath(base: Bytes, account: Bytes, path: seq<Bytes>) returns (b: Bytes)
    ensures b == base + Joined([account] + path)
  {
    b := base + PathEscape(account);
    ghost var done := [account];
    var i := 0;
    while i < |path|
      invariant 0 <= i <= |path|
      invariant done == [account] + path[..i]
      invariant b == base + Joined(done)
    {
      JoinedSnoc(done, path[i]);
      Assoc(base, Joined(done) + [SLASH], PathEscape(path[i]));
      Assoc(base, Joined(done), [SLASH]);
      done := done + [path[i]];
      b := b + [SLASH];
      b := b + PathEscape(path[i]);
      i := i + 1;
    }
    assert done == [account] + path;
  }

  method WriteQuery(base: Bytes, query: Bytes) returns (b: Bytes)
    ensures b == base + Tail(query)
  {
    b := base;
    Append(base, query);
    if query != [] {
      b := b + [QUERY];
      b := b + query;
    }
  }

  /** The text of an ASCII string. */
  function Ascii(s: string): Bytes
    requires forall i | 0 <= i < |s| :: s[i] < '\U{80}'
  {
    seq(|s|, i requires 0 <= i < |s| && s[i] < '\U{80}' => s[i] as byte)
  }

  /** Every URL starts with the host and the REST root, behind /partner in partner mode. */
  lemma BaseText(cfg: Config)
    ensures !cfg.partner ==> Base(cfg) == cfg.host + Ascii("/api/rest/v1/")
    ensures cfg.partner ==> Base(cfg) == cfg.host + Ascii("/partner/api/rest/v1/")
  {
    assert Ascii("/api/rest/v1/") == API_ROOT;
    assert Ascii("/partner/api/rest/v1/") == PARTNER + API_ROOT;
    Assoc(cfg.host, PARTNER, API_ROOT);
  }

  /** The characters of a path segment (section 3.3 of RFC 3986), apart from the
      percent sign: unreserved, sub-delims, colon and at sign. */
  predicate SegmentByte(b: byte) {
    || Alphanumeric(b) || b == 0x2D || b == 0x2E || b == 0x5F || b == 0x7E
    || b == 0x21 || b == 0x24 || 0x26 <= b <= 0x2C || b == 0x3B || b == 0x3D || b == 0x3A || b == 0x40
  }

  predicate UpperHex(b: byte) {
    0x30 <= b <= 0x39 || 0x41 <= b <= 0x46
  }

  /** Well-formed segment text: segment bytes, and percent signs each with two upper-case hex digits. */
  predicate SegmentText(s: Bytes) {
    s == []
    || (SegmentByte(s[0]) && SegmentText(s[1..]))
    || (s[0] == 0x25 && |s| >= 3 && UpperHex(s[1]) && UpperHex(s[2]) && SegmentText(s[3..]))
  }

  /** Escaping always yields a well-formed path segment. */
  lemma {:induction false} EscapedIsSegment(s: Bytes)
    ensures SegmentText(PathEscape(s))
  {
    if s != [] {
      EscapedIsSegment(s[1..]);
      var one, rest := EscapeByte(s[0]), PathEscape(s[1..]);
      if Plain(s[0]) {
        assert (one + rest)[1..] == rest;
      } else {
        assert (one + rest)[3..] == rest;
      }
    }
  }

  /** The builder refuses, in this order, a request without segments, one with an
      empty segment, and one whose suffix is not ~ and A-Z a-z 0-9 + / =, one or more. */
  lemma CheckMeaning(path: seq<Bytes>, suffix: Bytes)
    ensures Check(path, suffix) == Some(NoPath) <==> |path| == 0
    ensures Check(path, suffix) == Some(EmptySegment) <==> |path| > 0 && exists i :: 0 <= i < |path| && |path[i]| == 0
    ensures Check(path, suffix) == None <==>
              && |path| > 0 && (forall i | 0 <= i < |path| :: |path[i]| > 0)
              && (|suffix| > 0 ==>
                    && |suffix| > 1 && suffix[0] == 0x7E
                    && forall i | 1 <= i < |suffix| ::
                         var b := suffix[i];
                         0x41 <= b <= 0x5A || 0x61 <= b <= 0x7A || 0x2F <= b <= 0x39 || b == 0x2B || b == 0x3D)
  {
    assert [] in path <==> exists i :: 0 <= i < |path| && |path[i]| == 0;
  }

  // -------------------------------------------------------- reading it back

  /** What precedes the first occurrence of a byte, and what follows it (none if it does not occur). */
  function Cut(s: Bytes, at: byte): (Bytes, Option<Bytes>) {
    if s == [] then ([], None)
    else if s[0] == at then ([], Some(s[1..]))
    else
      var (before, after) := Cut(s[1..], at);
      ([s[0]] + before, after)
  }

  function Split(s: Bytes): seq<Bytes>
    decreases |s|
  {
    CutShrinks(s, SLASH);
    match Cut(s, SLASH)
    case (piece, None) => [piece]
    case (piece, Some(rest)) => [piece] + Split(rest)
  }

  lemma {:induction false} CutShrinks(s: Bytes, at: byte)
    ensures Cut(s, at).1.Some? ==> |Cut(s, at).1.value| < |s|
  {
    if s != [] && s[0] != at {
      CutShrinks(s[1..], at);
    }
  }

  lemma {:induction false} CutAt(a: Bytes, at: byte, b: Bytes)
    requires at !in a
    ensures Cut(a + [at] + b, at) == (a, Some(b))
    ensures Cut(a, at) == (a, None)
  {
    if a == [] {
      assert [] + [at] + b == [at] + b;
    } else {
      CutAt(a[1..], at, b);
      assert (a + [at] + b)[1..] == a[1..] + [at] + b;
      assert [a[0]] + a[1..] == a;
    }
  }

  function DecodeAll(pieces: seq<Bytes>): Option<seq<Bytes>> {
    if pieces == [] then Some([])
    else
      var first, rest := Decode(pieces[0]), DecodeAll(pieces[1..]);
      if first.Some? && rest.Some? then Some([first.value] + rest.value) else None
  }

  lemma DecodeCons(first: Bytes, rest: seq<Bytes>)
    requires Decode(first).Some? && DecodeAll(rest).Some?
    ensures DecodeAll([first] + rest) == Some([Decode(first).value] + DecodeAll(rest).value)
  {
    var all := [first] + rest;
    assert all[0] == first && all[1..] == rest;
  }

  lemma SplitFirst(first: Bytes, rest: Bytes)
    requires SLASH !in first
    ensures Split(first + [SLASH] + rest) == [first] + Split(rest)
    ensures Split(first) == [first]
  {
    CutAt(first, SLASH, rest);
  }

  /** Splitting on slashes and percent-decoding undoes escaping and joining. */
  lemma {:induction false} SplitJoined(segments: seq<Bytes>)
    requires segments != []
    ensures DecodeAll(Split(Joined(segments))) == Some(segments)
  {
    var first, others := PathEscape(segments[0]), segments[1..];
    EscapedBytes(segments[0]);
    EscapeRoundTrip(segments[0]);
    SplitFirst(first, Joined(others));
    assert [segments[0]] + others == segments;
    if others == [] {
      DecodeCons(first, []);
      assert [first] + [] == [first];
    } else {
      SplitJoined(others);
      DecodeCons(first, Split(Joined(others)));
    }
  }

  lemma {:induction false} JoinedHasNoQuery(segments: seq<Bytes>)
    ensures QUERY !in Joined(segments)
  {
    if segments != [] {
      EscapedBytes(segments[0]);
      if |segments| > 1 {
        JoinedHasNoQuery(segments[1..]);
      }
    }
  }

  /** The account and segments of a URL under a known base. */
  function ReadPath(base: Bytes, url: Bytes): Option<seq<Bytes>> {
    if base <= url then DecodeAll(Split(Cut(url[|base|..], QUERY).0)) else None
  }

  lemma PathRoundTrip(base: Bytes, segments: seq<Bytes>, query: Bytes)
    requires segments != []
    ensures ReadPath(base, UrlFrom(base, segments, [], query)) == Some(segments)
  {
    JoinedHasNoQuery(segments);
    Regroup(base, [], Joined(segments), [], Tail(query));
    AfterRoot(UrlFrom(base, segments, [], query), base, Joined(segments), query);
    SplitJoined(segments);
  }

  /** Without a raw suffix, splitting the path on slashes and percent-decoding
      returns exactly the account and the segments, whatever bytes they hold. */
  lemma UrlRoundTrip(cfg: Config, path: seq<Bytes>, query: Bytes)
    ensures ReadPath(Base(cfg), UrlOf(cfg, path, [], query)) == Some([cfg.accountId] + path)
  {
    PathRoundTrip(Base(cfg), [cfg.accountId] + path, query);
  }

  // ------------------------------------------------------ the raw suffix

  /** What comes before the path of every request of an account. */
  function RootOf(base: Bytes, account: Bytes): Bytes {
    base + (PathEscape(account) + [SLASH])
  }

  lemma BehindRoot(base: Bytes, account: Bytes, path: seq<Bytes>, suffix: Bytes, query: Bytes)
    requires path != []
    ensures UrlFrom(base, [account] + path, suffix, query) == RootOf(base, account) + (Joined(path) + suffix + Tail(query))
  {
    assert ([account] + path)[1..] == path;
    Regroup(base, PathEscape(account) + [SLASH], Joined(path), suffix, Tail(query));
  }

  /** A path and the suffix behind it, cut at the first tilde. */
  function ReadTilde(s: Bytes): Option<(seq<Bytes>, Bytes)> {
    var (before, after) := Cut(s, TILDE);
    match DecodeAll(Split(before))
    case Some(path) => Some((path, if after.Some? then [TILDE] + after.value else []))
    case None => None
  }

  function ReadRequest(root: Bytes, url: Bytes): Option<(seq<Bytes>, Bytes)> {
    if root <= url then ReadTilde(Cut(url[|root|..], QUERY).0) else None
  }

  predicate TildeFree(path: seq<Bytes>) {
    forall i | 0 <= i < |path| :: TILDE !in path[i]
  }

  lemma {:induction false} JoinedHasNoTilde(path: seq<Bytes>)
    requires TildeFree(path)
    ensures TILDE !in Joined(path)
  {
    if path != [] {
      EscapedBytes(path[0]);
      JoinedHasNoTilde(path[1..]);
    }
  }

  lemma CutTilde(s: Bytes, suffix: Bytes)
    requires TILDE !in s && (suffix == [] || suffix[0] == TILDE)
    ensures Cut(s + suffix, TILDE) == (s, if suffix == [] then None else Some(suffix[1..]))
  {
    if suffix == [] {
      CutAt(s, TILDE, []);
      assert s + suffix == s;
    } else {
      CutAt(s, TILDE, suffix[1..]);
      assert s + suffix == s + [TILDE] + suffix[1..];
    }
  }

  lemma TildeCut(path: seq<Bytes>, suffix: Bytes)
    requires path != [] && TildeFree(path) && (suffix == [] || suffix[0] == TILDE)
    ensures ReadTilde(Joined(path) + suffix) == Some((path, suffix))
  {
    JoinedHasNoTilde(path);
    SplitJoined(path);
    CutTilde(Joined(path), suffix);
    assert suffix != [] ==> [TILDE] + suffix[1..] == suffix;
  }

  lemma SuffixHasNoQuery(suffix: Bytes)
    requires ValidSuffix(suffix)
    ensures QUERY !in suffix
  {
  }

  lemma AfterRoot(url: Bytes, root: Bytes, rest: Bytes, query: Bytes)
    requires QUERY !in rest && url == root + (rest + Tail(query))
    ensures root <= url && Cut(url[|root|..], QUERY).0 == rest
  {
    assert url[|root|..] == rest + Tail(query);
    CutQuery(rest, query);
  }

  lemma RequestRoundTrip(base: Bytes, account: Bytes, path: seq<Bytes>, suffix: Bytes, query: Bytes)
    requires Check(path, suffix) == None && TildeFree(path)
    ensures ReadRequest(RootOf(base, account), UrlFrom(base, [account] + path, suffix, query)) == Some((path, suffix))
  {
    BehindRoot(base, account, path, suffix, query);
    TildeCut(path, suffix);
    JoinedHasNoQuery(path);
    if suffix != [] {
      SuffixHasNoQuery(suffix);
    }
    AfterRoot(UrlFrom(base, [account] + path, suffix, query), RootOf(base, account), Joined(path) + suffix, query);
  }

  /** For an accepted request whose segments hold no tilde, cutting at the first
      tilde behind the account recovers path and suffix, under any query and even
      when the suffix contains slashes. */
  lemma TildeRoundTrip(cfg: Config, path: seq<Bytes>, suffix: Bytes, query: Bytes)
    requires Check(path, suffix) == None && TildeFree(path)
    ensures ReadRequest(RootOf(Base(cfg), cfg.accountId), UrlOf(cfg, path, suffix, query)) == Some((path, suffix))
  {
    RequestRoundTrip(Base(cfg), cfg.accountId, path, suffix, query);
  }

  lemma Append(s: Bytes, query: Bytes)
    ensures s + Tail(query) == if query == [] then s else s + [QUERY] + query
  {
  }

  lemma CutQuery(s: Bytes, query: Bytes)
    requires QUERY !in s
    ensures Cut(s + Tail(query), QUERY).0 == s
  {
    Append(s, query);
    CutAt(s, QUERY, query);
  }

  lemma Regroup(a: Bytes, b: Bytes, c: Bytes, d: Bytes, e: Bytes)
    ensures a + (b + c) + d + e == a + b + (c + d + e)
    ensures a + c + [] + e == a + (c + e)
  {
  }

  lemma {:induction false} PlainIsItself(s: Bytes)
    requires forall b | b in s :: Plain(b)
    ensures PathEscape(s) == s
  {
    if s != [] {
      PlainIsItself(s[1..]);
    }
  }
}
