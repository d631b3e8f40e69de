/** Which requests share a URL. Path escaping leaves the tilde alone, so a suffix
    reads like the end of the last segment and, after a slash, like further segments. */
module SharedUrls {
  import opened Prelude
  import opened Url

  datatype Request = Request(path: seq<Bytes>, suffix: Bytes)

  predicate Accepted(r: Request) {
    Check(r.path, r.suffix) == None
  }

  function UrlFor(cfg: Config, r: Request, query: Bytes): Bytes {
    UrlOf(cfg, r.path, r.suffix, query)
  }

  /** The segments that a reader of the URL sees: the suffix is split on slashes
      and its first piece ends the last segment. */
  function Flat(r: Request): seq<Bytes>
    requires r.path != []
  {
    var n, pieces := |r.path| - 1, Split(r.suffix);
    r.path[..n] + [r.path[n] + pieces[0]] + pieces[1..]
  }

  // ------------------------------------------------------ pieces of a suffix

  lemma {:induction false} CutParts(s: Bytes, at: byte)
    ensures var (before, after) := Cut(s, at);
            && at !in before
            && s == (if after.Some? then before + [at] + after.value else before)
  {
    if s != [] && s[0] != at {
      CutParts(s[1..], at);
      var (before, after) := Cut(s[1..], at);
      assert s == [s[0]] + s[1..];
      if after.Some? {
        Assoc([s[0]], before + [at], after.value);
        Assoc([s[0]], before, [at]);
      }
    }
  }

  /** Bytes that stand for themselves in a path, slashes included. */
  predicate Raw(s: Bytes) {
    forall b | b in s :: Plain(b) || b == SLASH
  }

  /** Joining the pieces of raw text gives it back. */
  lemma {:induction false} JoinPieces(s: Bytes)
    requires Raw(s)
    ensures Joined(Split(s)) == s
    decreases |s|
  {
    CutParts(s, SLASH);
    CutShrinks(s, SLASH);
    var (before, after) := Cut(s, SLASH);
    assert forall b | b in before :: b in s;
    PlainIsItself(before);
    if after.Some? {
      assert forall b | b in after.value :: b in s;
      JoinPieces(after.value);
      assert ([before] + Split(after.value))[1..] == Split(after.value);
    }
  }

  /** Splitting joined text gives back segments that need no escaping. */
  lemma {:induction false} SplitPieces(pieces: seq<Bytes>)
    requires pieces != [] && forall i | 0 <= i < |pieces| :: PathEscape(pieces[i]) == pieces[i]
    ensures Split(Joined(pieces)) == pieces
  {
    var first, others := pieces[0], pieces[1..];
    EscapedBytes(first);
    SplitFirst(first, Joined(others));
    assert pieces == [first] + others;
    if others != [] {
      SplitPieces(others);
    }
  }

  predicate AllBase64(s: Bytes) {
    forall b | b in s :: Base64(b)
  }

  predicate AllPiecesBase64(pieces: seq<Bytes>) {
    forall i | 0 <= i < |pieces| :: AllBase64(pieces[i])
  }

  lemma {:induction false} PiecesBase64(s: Bytes)
    requires forall b | b in s :: Base64(b) || b == SLASH
    ensures AllPiecesBase64(Split(s))
    decreases |s|
  {
    CutParts(s, SLASH);
    CutShrinks(s, SLASH);
    var (before, after) := Cut(s, SLASH);
    assert forall b | b in before :: b in s;
    if after.Some? {
      assert forall b | b in after.value :: b in s;
      PiecesBase64(after.value);
    }
  }

  /** The pieces of text that starts with a tilde. */
  predicate TildePieces(pieces: seq<Bytes>) {
    && pieces != [] && pieces[0] != [] && pieces[0][0] == TILDE
    && AllBase64(pieces[0][1..]) && AllPiecesBase64(pieces[1..])
    && (|pieces[0]| > 1 || |pieces| > 1)
  }

  lemma SuffixPieces(suffix: Bytes)
    requires ValidSuffix(suffix)
    ensures TildePieces(Split(suffix))
  {
    CutParts(suffix, SLASH);
    var (before, after) := Cut(suffix, SLASH);
    var rest := suffix[1..];
    assert forall b | b in rest :: Base64(b) || b == SLASH;
    assert before != [] && before[0] == suffix[0];
    forall b | b in before[1..] ensures b in rest && b in before {
      var k :| 0 <= k < |before| - 1 && before[1..][k] == b;
      assert rest[k] == suffix[k + 1] == before[k + 1];
    }
    if after.Some? {
      assert forall b | b in after.value :: b in rest by {
        assert rest == before[1..] + [SLASH] + after.value;
      }
      PiecesBase64(after.value);
      assert ([before] + Split(after.value))[1..] == Split(after.value);
    }
  }

  lemma {:induction false} JoinedBase64(pieces: seq<Bytes>)
    requires AllPiecesBase64(pieces)
    ensures forall b | b in Joined(pieces) :: Base64(b) || b == SLASH
  {
    if pieces != [] {
      PlainIsItself(pieces[0]);
      JoinedBase64(pieces[1..]);
    }
  }

  lemma PieceEscapes(pieces: seq<Bytes>, i: nat)
    requires TildePieces(pieces) && i < |pieces|
    ensures PathEscape(pieces[i]) == pieces[i]
  {
    if i == 0 {
      assert pieces[0] == [TILDE] + pieces[0][1..];
    } else {
      assert pieces[i] == pieces[1..][i - 1];
    }
    PlainIsItself(pieces[i]);
  }

  /** Conversely such pieces, joined, are a valid suffix. */
  lemma PiecesSuffix(pieces: seq<Bytes>)
    requires TildePieces(pieces)
    ensures ValidSuffix(Joined(pieces)) && Split(Joined(pieces)) == pieces
  {
    var first, others := pieces[0], pieces[1..];
    forall i | 0 <= i < |pieces| ensures PathEscape(pieces[i]) == pieces[i] {
      PieceEscapes(pieces, i);
    }
    SplitPieces(pieces);
    JoinedBase64(others);
    var s := Joined(pieces);
    assert s[1..] == first[1..] + (if others == [] then [] else [SLASH] + Joined(others));
    forall i | 1 <= i < |s| ensures Base64(s[i]) || s[i] == SLASH {
      assert s[i] == s[1..][i - 1];
    }
  }

  // -------------------------------------------------- when URLs are the same

  lemma {:induction false} EscapeConcat(a: Bytes, b: Bytes)
    ensures PathEscape(a + b) == PathEscape(a) + PathEscape(b)
  {
    if a == [] {
      assert a + b == b;
    } else {
      EscapeConcat(a[1..], b);
      assert (a + b)[1..] == a[1..] + b;
      Assoc(EscapeByte(a[0]), PathEscape(a[1..]), PathEscape(b));
    }
  }

  lemma SuffixRaw(r: Request)
    requires Accepted(r)
    ensures Raw(r.suffix)
  {
  }

  lemma {:induction false} JoinedFlat(r: Request)
    requires r.path != [] && Raw(r.suffix)
    ensures Joined(Flat(r)) == Joined(r.path) + r.suffix
    decreases |r.path|
  {
    if |r.path| == 1 {
      OneFlat(r.path[0], r.suffix);
      assert r.path == [r.path[0]];
    } else {
      var inner := Request(r.path[1..], r.suffix);
      JoinedFlat(inner);
      assert Flat(r)[1..] == Flat(inner);
      Assoc(PathEscape(r.path[0]) + [SLASH], Joined(r.path[1..]), r.suffix);
    }
  }

  lemma JoinedCons(first: Bytes, others: seq<Bytes>)
    ensures Joined([first] + others) == PathEscape(first) + (if others == [] then [] else [SLASH] + Joined(others))
  {
    var all := [first] + others;
    assert all[1..] == others;
    Assoc(PathEscape(first), [SLASH], Joined(others));
  }

  lemma JoinedExtends(segment: Bytes, first: Bytes, others: seq<Bytes>)
    requires PathEscape(first) == first
    ensures Joined([segment + first] + others) == PathEscape(segment) + Joined([first] + others)
  {
    EscapeConcat(segment, first);
    JoinedCons(first, others);
    JoinedCons(segment + first, others);
    Assoc(PathEscape(segment), first, if others == [] then [] else [SLASH] + Joined(others));
  }

  lemma OneFlat(segment: Bytes, suffix: Bytes)
    requires Raw(suffix)
    ensures Joined(Flat(Request([segment], suffix))) == PathEscape(segment) + suffix
  {
    var pieces := Split(suffix);
    JoinPieces(suffix);
    FirstPiece(suffix);
    PlainIsItself(pieces[0]);
    assert pieces == [pieces[0]] + pieces[1..];
    assert Flat(Request([segment], suffix)) == [segment + pieces[0]] + pieces[1..];
    JoinedExtends(segment, pieces[0], pieces[1..]);
  }

  lemma FirstPiece(suffix: Bytes)
    requires Raw(suffix)
    ensures forall b | b in Split(suffix)[0] :: Plain(b)
  {
    CutParts(suffix, SLASH);
    assert forall b | b in Split(suffix)[0] :: b in suffix;
  }

  /** The URL of a request is that of its flattened segments without a suffix. */
  lemma FlatUrl(cfg: Config, r: Request, query: Bytes)
    requires Accepted(r)
    ensures UrlFor(cfg, r, query) == UrlOf(cfg, Flat(r), [], query)
  {
    SuffixRaw(r);
    JoinedFlat(r);
    BehindRoot(Base(cfg), cfg.accountId, r.path, r.suffix, query);
    BehindRoot(Base(cfg), cfg.accountId, Flat(r), [], query);
    assert Joined(Flat(r)) + [] == Joined(Flat(r));
  }

  lemma SameTail(a: Bytes, p: Bytes, q: Bytes)
    requires a + Tail(p) == a + Tail(q)
    ensures p == q
  {
    assert Tail(p) == (a + Tail(p))[|a|..] == Tail(q);
    assert p != [] ==> Tail(p)[1..] == p;
    assert q != [] ==> Tail(q)[1..] == q;
  }

  /** Exactly: two accepted requests of a client have the same URL if and only if
      their flattened segments and their queries are the same. */
  lemma SameUrlExactly(cfg: Config, a: Request, b: Request, queryA: Bytes, queryB: Bytes)
    requires Accepted(a) && Accepted(b)
    ensures UrlFor(cfg, a, queryA) == UrlFor(cfg, b, queryB) <==> Flat(a) == Flat(b) && queryA == queryB
  {
    FlatUrl(cfg, a, queryA);
    FlatUrl(cfg, b, queryB);
    if UrlFor(cfg, a, queryA) == UrlFor(cfg, b, queryB) {
      UrlRoundTrip(cfg, Flat(a), queryA);
      UrlRoundTrip(cfg, Flat(b), queryB);
      var x, y := [cfg.accountId] + Flat(a), [cfg.accountId] + Flat(b);
      assert Flat(a) == x[1..] == y[1..] == Flat(b);
      SameTail(Base(cfg) + Joined(x) + [], queryA, queryB);
    }
  }

  // --------------------------------------------------- which requests share

  /** A suffix starts at the last tilde of the text, so two requests with
      suffixes never share a URL. */
  lemma LastTilde(a: Bytes, s: Bytes, b: Bytes, t: Bytes)
    requires a + s == b + t && ValidSuffix(s) && ValidSuffix(t)
    ensures |a| >= |b|
  {
    assert (b + t)[|b|] == TILDE;
    assert |a| <= |b| ==> (a + s)[|b|] == s[|b| - |a|];
  }

  lemma SuffixedDiffer(a: Request, b: Request)
    requires Accepted(a) && Accepted(b) && a.suffix != [] && b.suffix != [] && Flat(a) == Flat(b)
    ensures a == b
  {
    SuffixRaw(a);
    SuffixRaw(b);
    JoinedFlat(a);
    JoinedFlat(b);
    var x, y := Joined(a.path), Joined(b.path);
    LastTilde(x, a.suffix, y, b.suffix);
    LastTilde(y, b.suffix, x, a.suffix);
    assert x == (x + a.suffix)[..|x|] == y;
    assert a.suffix == (x + a.suffix)[|x|..] == b.suffix;
    SplitJoined(a.path);
    SplitJoined(b.path);
  }

  /** The same text without a suffix. */
  function Lowered(r: Request): Request
    requires r.path != []
  {
    Request(Flat(r), [])
  }

  lemma FlatOfPlain(path: seq<Bytes>)
    requires path != []
    ensures Flat(Request(path, [])) == path
  {
    var n := |path| - 1;
    assert path[n] + [] == path[n];
    assert path == path[..n] + [path[n]];
  }

  /** It is an accepted request exactly when no piece of the suffix is empty. */
  lemma LoweredAccepted(r: Request)
    requires Accepted(r) && r.suffix != []
    ensures Accepted(Lowered(r)) <==> [] !in Split(r.suffix)
    ensures Flat(Lowered(r)) == Flat(r) && Lowered(r) != r
  {
    var n, pieces := |r.path| - 1, Split(r.suffix);
    SuffixPieces(r.suffix);
    FlatOfPlain(Flat(r));
    assert pieces == [pieces[0]] + pieces[1..];
    assert r.path[n] in r.path;
    assert forall x | x in r.path[..n] :: x in r.path;
    assert forall x | x in Flat(r) :: x in r.path[..n] || x == r.path[n] + pieces[0] || x in pieces[1..];
    assert forall x | x in pieces[1..] :: x in Flat(r);
  }

  /** So every suffix without an empty piece has its double: an accepted request
      without a suffix, and with the same URL. */
  lemma SuffixCollides(cfg: Config, r: Request, query: Bytes)
    requires Accepted(r) && r.suffix != []
    ensures UrlFor(cfg, Lowered(r), query) == UrlFor(cfg, r, query) && Lowered(r) != r
    ensures Accepted(Lowered(r)) <==> [] !in Split(r.suffix)
  {
    LoweredAccepted(r);
    FlatUrl(cfg, r, query);
  }

  /** Does a suffix start at byte j of segment i: a tilde with something before it
      in its segment, and behind it, to the end of the path, only suffix characters, at least one? */
  predicate StartsSuffix(path: seq<Bytes>, i: int, j: int) {
    && 0 <= i < |path| && 0 < j < |path[i]|
    && path[i][j] == TILDE
    && AllBase64(path[i][j + 1..])
    && AllPiecesBase64(path[i + 1..])
    && (j + 1 < |path[i]| || i + 1 < |path|)
  }

  /** The same text with its end as a suffix. */
  function Raised(path: seq<Bytes>, i: nat, j: nat): Request
    requires StartsSuffix(path, i, j)
  {
    Request(path[..i] + [path[i][..j]], Joined([path[i][j..]] + path[i + 1..]))
  }

  lemma RaisedAccepted(path: seq<Bytes>, i: nat, j: nat)
    requires Accepted(Request(path, [])) && StartsSuffix(path, i, j)
    ensures Accepted(Raised(path, i, j)) && Raised(path, i, j).suffix != [] && Flat(Raised(path, i, j)) == path
  {
    var r, pieces := Raised(path, i, j), [path[i][j..]] + path[i + 1..];
    assert pieces[0][1..] == path[i][j + 1..] && pieces[1..] == path[i + 1..];
    PiecesSuffix(pieces);
    assert forall x | x in path[..i] :: x in path;
    assert r.path[..i] == path[..i] && r.path[i] == path[i][..j];
    assert path[i][..j] + path[i][j..] == path[i];
    assert path == path[..i] + [path[i]] + path[i + 1..];
  }

  lemma FlatStartsSuffix(r: Request) returns (i: nat, j: nat)
    requires Accepted(r) && r.suffix != []
    ensures StartsSuffix(Flat(r), i, j)
  {
    i := |r.path| - 1;
    j := |r.path[i]|;
    assert r.path[i] in r.path;
    var pieces, path := Split(r.suffix), Flat(r);
    SuffixPieces(r.suffix);
    assert path[i] == r.path[i] + pieces[0];
    assert path[i][j + 1..] == pieces[0][1..] && path[i + 1..] == pieces[1..];
  }

  /** Is there another accepted request with the same URL? */
  ghost predicate Shared(cfg: Config, r: Request, query: Bytes) {
    exists other :: Accepted(other) && other != r && UrlFor(cfg, other, query) == UrlFor(cfg, r, query)
  }

  /** What a caller can check beforehand. With a suffix: no two slashes in a row
      and none at its end. Without one: a suffix starts somewhere in the path. */
  ghost predicate Ambiguous(r: Request) {
    if r.suffix == [] then exists i, j :: StartsSuffix(r.path, i, j) else [] !in Split(r.suffix)
  }

  /** An accepted request shares its URL with another one if and only if it is ambiguous. */
  lemma SharedExactly(cfg: Config, r: Request, query: Bytes)
    requires Accepted(r)
    ensures Shared(cfg, r, query) <==> Ambiguous(r)
  {
    if r.suffix != [] {
      SuffixCollides(cfg, r, query);
    } else {
      FlatOfPlain(r.path);
      if Ambiguous(r) {
        var i, j :| StartsSuffix(r.path, i, j);
        RaisedAccepted(r.path, i, j);
        SameUrlExactly(cfg, Raised(r.path, i, j), r, query, query);
      }
    }
    if Shared(cfg, r, query) {
      var other :| Accepted(other) && other != r && UrlFor(cfg, other, query) == UrlFor(cfg, r, query);
      SharedMeansAmbiguous(cfg, r, other, query);
    }
  }

  lemma SharedMeansAmbiguous(cfg: Config, r: Request, other: Request, query: Bytes)
    requires Accepted(r) && Accepted(other) && other != r && UrlFor(cfg, other, query) == UrlFor(cfg, r, query)
    ensures Ambiguous(r)
  {
    SameUrlExactly(cfg, other, r, query, query);
    if r.suffix != [] && other.suffix != [] {
      SuffixedDiffer(r, other);
    } else if r.suffix != [] {
      FlatOfPlain(other.path);
      LoweredAccepted(r);
    } else {
      FlatOfPlain(r.path);
      if other.suffix == [] {
        FlatOfPlain(other.path);
      } else {
        var i, j := FlatStartsSuffix(other);
      }
    }
  }

  /** No slash is needed: every suffix without one collides with a request whose
      last segment holds the tilde itself. */
  lemma SlashFreeCollides(cfg: Config, path: seq<Bytes>, last: Bytes, suffix: Bytes, query: Bytes)
    requires Check(path + [last], suffix) == None && suffix != [] && SLASH !in suffix
    ensures Check(path + [last + suffix], []) == None
    ensures UrlOf(cfg, path + [last], suffix, query) == UrlOf(cfg, path + [last + suffix], [], query)
  {
    var r := Request(path + [last], suffix);
    SplitFirst(suffix, []);
    assert Flat(r) == path + [last + suffix];
    SuffixCollides(cfg, r, query);
  }

  /** Where no segment holds a tilde the URL determines the request, suffix and all. */
  lemma TildeFreeInjective(cfg: Config, a: Request, b: Request, queryA: Bytes, queryB: Bytes)
    requires Accepted(a) && Accepted(b) && TildeFree(a.path) && TildeFree(b.path)
    requires UrlFor(cfg, a, queryA) == UrlFor(cfg, b, queryB)
    ensures a == b && queryA == queryB
  {
    TildeRoundTrip(cfg, a.path, a.suffix, queryA);
    TildeRoundTrip(cfg, b.path, b.suffix, queryB);
    SameUrlExactly(cfg, a, b, queryA, queryB);
  }
}
