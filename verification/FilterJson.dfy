/** The JSON text of a filter body, and a reader that recovers the tree from it. */
module FilterJson {
  import opened Prelude
  import opened Filter

  // ---------------------------------------------------------------- printing

  function Name(c: Comparison): string {
    match c
    case EQUALS => "EQUALS"
    case NOT_EQUALS => "NOT_EQUALS"
    case LIKE => "LIKE"
    case CONTAINS => "CONTAINS"
    case GREATER_THAN => "GREATER_THAN"
    case GREATER_THAN_OR_EQUAL => "GREATER_THAN_OR_EQUAL"
    case LESS_THAN => "LESS_THAN"
    case LESS_THAN_OR_EQUAL => "LESS_THAN_OR_EQUAL"
    case IS_NULL => "IS_NULL"
    case IS_NOT_NULL => "IS_NOT_NULL"
  }

  function GroupName(op: GroupOp): string {
    if op == And then "and" else "or"
  }

  const QUOTE := '\"'
  const BACKSLASH := '\\'

  function HexDigit(d: nat): char
    requires d < 16
  {
    if d < 10 then '0' + d as char else 'a' + (d - 10) as char
  }

  /** \uXXXX for a code of at most four hex digits. */
  function Unicode(code: nat): string
    requires code < 0x1_0000
  {
    [BACKSLASH, 'u', HexDigit(code / 0x1000), HexDigit(code / 0x100 % 0x10), HexDigit(code / 0x10 % 0x10), HexDigit(code % 0x10)]
  }

  /** Quotes, backslashes and control characters must be escaped (section 7 of
      RFC 8259); angle brackets, ampersands and two line separators also are. */
  function Escape(c: char): string {
    if c == QUOTE || c == BACKSLASH then [BACKSLASH, c]
    else if c == '\U{08}' then [BACKSLASH, 'b']
    else if c == '\U{0C}' then [BACKSLASH, 'f']
    else if c == '\n' then [BACKSLASH, 'n']
    else if c == '\r' then [BACKSLASH, 'r']
    else if c == '\t' then [BACKSLASH, 't']
    else if c < ' ' || c == '<' || c == '>' || c == '&' || c == '\U{2028}' || c == '\U{2029}' then Unicode(c as int)
    else [c]
  }

  /** Each printer takes the text that follows: X(..) then k. */
  function EscapeThen(s: string, k: string): string {
    if s == "" then k else Escape(s[0]) + EscapeThen(s[1..], k)
  }

  function QuoteThen(s: string, k: string): string {
    [QUOTE] + EscapeThen(s, [QUOTE] + k)
  }

  /** The rest of an array of strings after its opening bracket. */
  function StringsThen(ss: seq<string>, k: string): string {
    if ss == [] then "]" + k
    else if |ss| == 1 then QuoteThen(ss[0], "]" + k)
    else QuoteThen(ss[0], "," + StringsThen(ss[1..], k))
  }

  const OPERATOR := "{\"operator\":"
  const PROPERTY := ",\"property\":"
  const ARGUMENT := ",\"argument\":["
  const NESTED := ",\"nestedExpression\":["

  function WireThen(w: Wire, k: string): string
    decreases w, 0
  {
    match w
    case Leaf(cmp, property, None) =>
      OPERATOR + QuoteThen(Name(cmp), PROPERTY + QuoteThen(property, "}" + k))
    case Leaf(cmp, property, Some(args)) =>
      OPERATOR + QuoteThen(Name(cmp), PROPERTY + QuoteThen(property, ARGUMENT + StringsThen(args, "}" + k)))
    case Node(op, nested) =>
      OPERATOR + QuoteThen(GroupName(op), NESTED + WiresThen(nested, "}" + k))
  }

  function WiresThen(ws: seq<Wire>, k: string): string
    decreases ws, 0
  {
    if ws == [] then "]" + k
    else if |ws| == 1 then WireThen(ws[0], "]" + k)
    else WireThen(ws[0], "," + WiresThen(ws[1..], k))
  }

  const ENVELOPE := "{\"QueryFilter\":{"
  const EXPRESSION := "\"expression\":"

  /** The request body; no expression key at all for the list-all filter. */
  function Body(f: Option<Wire>): string {
    match f
    case None => ENVELOPE + "}}"
    case Some(w) => ENVELOPE + (EXPRESSION + WireThen(w, "}}"))
  }

  function MarshalJSON(e: Expr): Result<string, Fault> {
    if e.Nil? then Ok(Body(None))
    else match Encode(e)
      case Ok(w) => Ok(Body(Some(w)))
      case Err(f) => Err(f)
  }

  // ----------------------------------------------------------------- reading

  datatype Parsed<+T> = Stuck | Got(value: T, rest: string)

  function HexValue(c: char): Option<nat> {
    if '0' <= c <= '9' then Some((c - '0') as nat)
    else if 'a' <= c <= 'f' then Some((c - 'a') as nat + 10)
    else if 'A' <= c <= 'F' then Some((c - 'A') as nat + 10)
    else None
  }

  /** One escape sequence, after its backslash. */
  function ReadEscape(s: string): (r: Parsed<char>)
    ensures r.Got? ==> |r.rest| < |s|
  {
    if s == "" then Stuck
    else if s[0] == QUOTE || s[0] == BACKSLASH || s[0] == '/' then Got(s[0], s[1..])
    else if s[0] == 'b' then Got('\U{08}', s[1..])
    else if s[0] == 'f' then Got('\U{0C}', s[1..])
    else if s[0] == 'n' then Got('\n', s[1..])
    else if s[0] == 'r' then Got('\r', s[1..])
    else if s[0] == 't' then Got('\t', s[1..])
    else if s[0] == 'u' && |s| >= 5 then
      var a, b, c, d := HexValue(s[1]), HexValue(s[2]), HexValue(s[3]), HexValue(s[4]);
      if a.None? || b.None? || c.None? || d.None? then Stuck
      else
        var code := a.value * 0x1000 + b.value * 0x100 + c.value * 0x10 + d.value;
        if code < 0xD800 || 0xE000 <= code < 0x1_0000 then Got(code as char, s[5..]) else Stuck
    else Stuck
  }

  /** The characters of a string up to and including the closing quote. */
  function ReadChars(s: string): (r: Parsed<string>)
    ensures r.Got? ==> |r.rest| < |s|
    decreases |s|
  {
    if s == "" || s[0] < ' ' then Stuck
    else if s[0] == QUOTE then Got("", s[1..])
    else
      var one := if s[0] == BACKSLASH then ReadEscape(s[1..]) else Got(s[0], s[1..]);
      if one.Stuck? then Stuck
      else match ReadChars(one.rest)
        case Stuck => Stuck
        case Got(t, rest) => Got([one.value] + t, rest)
  }

  function ReadString(s: string): (r: Parsed<string>)
    ensures r.Got? ==> |r.rest| < |s|
  {
    if s == "" || s[0] != QUOTE then Stuck else ReadChars(s[1..])
  }

  function Expect(token: string, s: string): (r: Option<string>)
    ensures r.Some? ==> |r.value| == |s| - |token|
  {
    if token <= s then Some(s[|token|..]) else None
  }

  function ReadStrings(s: string): (r: Parsed<seq<string>>)
    ensures r.Got? ==> |r.rest| < |s|
    decreases |s|
  {
    if s == "" then Stuck
    else if s[0] == ']' then Got([], s[1..])
    else match ReadString(s)
      case Stuck => Stuck
      case Got(x, rest) =>
        if rest == "" then Stuck
        else if rest[0] == ']' then Got([x], rest[1..])
        else if rest[0] != ',' || |rest| == 1 || rest[1] == ']' then Stuck
        else match ReadStrings(rest[1..])
          case Stuck => Stuck
          case Got(xs, rest') => Got([x] + xs, rest')
  }

  function ComparisonOf(name: string): Option<Comparison> {
    if name == "EQUALS" then Some(EQUALS)
    else if name == "NOT_EQUALS" then Some(NOT_EQUALS)
    else if name == "LIKE" then Some(LIKE)
    else if name == "CONTAINS" then Some(CONTAINS)
    else if name == "GREATER_THAN" then Some(GREATER_THAN)
    else if name == "GREATER_THAN_OR_EQUAL" then Some(GREATER_THAN_OR_EQUAL)
    else if name == "LESS_THAN" then Some(LESS_THAN)
    else if name == "LESS_THAN_OR_EQUAL" then Some(LESS_THAN_OR_EQUAL)
    else if name == "IS_NULL" then Some(IS_NULL)
    else if name == "IS_NOT_NULL" then Some(IS_NOT_NULL)
    else None
  }

  function GroupOf(name: string): Option<GroupOp> {
    if name == "and" then Some(And) else if name == "or" then Some(Or) else None
  }

  /** A comparison after its operator. */
  function ReadLeaf(cmp: Comparison, s: string): (r: Parsed<Wire>)
    ensures r.Got? ==> |r.rest| < |s|
  {
    match Expect(PROPERTY, s)
    case None => Stuck
    case Some(s1) =>
      match ReadString(s1)
      case Stuck => Stuck
      case Got(property, s2) =>
        if s2 != "" && s2[0] == '}' then Got(Leaf(cmp, property, None), s2[1..])
        else match Expect(ARGUMENT, s2)
          case None => Stuck
          case Some(s3) =>
            match ReadStrings(s3)
            case Stuck => Stuck
            case Got(args, s4) =>
              if s4 != "" && s4[0] == '}' then Got(Leaf(cmp, property, Some(args)), s4[1..]) else Stuck
  }

  function ReadWire(s: string): (r: Parsed<Wire>)
    ensures r.Got? ==> |r.rest| < |s|
    decreases |s|, 0
  {
    match Expect(OPERATOR, s)
    case None => Stuck
    case Some(s1) =>
      match ReadString(s1)
      case Stuck => Stuck
      case Got(name, s2) =>
        match ComparisonOf(name)
        case Some(cmp) => ReadLeaf(cmp, s2)
        case None =>
          match (GroupOf(name), Expect(NESTED, s2))
          case (Some(op), Some(s3)) =>
            (match ReadWires(s3)
             case Stuck => Stuck
             case Got(ws, s4) => if s4 != "" && s4[0] == '}' then Got(Node(op, ws), s4[1..]) else Stuck)
          case _ => Stuck
  }

  function ReadWires(s: string): (r: Parsed<seq<Wire>>)
    ensures r.Got? ==> |r.rest| < |s|
    decreases |s|, 1
  {
    if s == "" then Stuck
    else if s[0] == ']' then Got([], s[1..])
    else match ReadWire(s)
      case Stuck => Stuck
      case Got(w, rest) =>
        if rest == "" then Stuck
        else if rest[0] == ']' then Got([w], rest[1..])
        else if rest[0] != ',' || |rest| == 1 || rest[1] == ']' then Stuck
        else match ReadWires(rest[1..])
          case Stuck => Stuck
          case Got(ws, rest') => Got([w] + ws, rest')
  }

  /** A whole request body: None when it is not one. */
  function ReadBody(s: string): Option<Option<Wire>> {
    match Expect(ENVELOPE, s)
    case None => None
    case Some(s1) =>
      if s1 == "}}" then Some(None)
      else match Expect(EXPRESSION, s1)
        case None => None
        case Some(s2) =>
          match ReadWire(s2)
          case Stuck => None
          case Got(w, rest) => if rest == "}}" then Some(Some(w)) else None
  }

  // -------------------------------------------------------------- round trip

  lemma ExpectSame(token: string, k: string)
    ensures Expect(token, token + k) == Some(k)
  {
    assert (token + k)[|token|..] == k;
  }

  lemma HexRoundTrip(d: nat)
    requires d < 16
    ensures HexValue(HexDigit(d)) == Some(d)
  {
  }

  lemma HexDigitsOf(code: nat)
    requires code < 0x1_0000
    ensures code == code / 0x1000 * 0x1000 + code / 0x100 % 0x10 * 0x100 + code / 0x10 % 0x10 * 0x10 + code % 0x10
  {
    var x, y, z := code / 0x10, code / 0x100, code / 0x1000;
    assert code == x * 0x10 + code % 0x10;
    assert y == x / 0x10 && x == y * 0x10 + x % 0x10;
    assert z == y / 0x10 && y == z * 0x10 + y % 0x10;
  }

  lemma ReadHex(a: nat, b: nat, c: nat, d: nat, k: string)
    requires a < 16 && b < 16 && c < 16 && d < 16
    requires a * 0x1000 + b * 0x100 + c * 0x10 + d < 0xD800
    ensures ReadEscape(['u', HexDigit(a), HexDigit(b), HexDigit(c), HexDigit(d)] + k)
            == Got((a * 0x1000 + b * 0x100 + c * 0x10 + d) as char, k)
  {
    HexRoundTrip(a);
    HexRoundTrip(b);
    HexRoundTrip(c);
    HexRoundTrip(d);
    var s := ['u', HexDigit(a), HexDigit(b), HexDigit(c), HexDigit(d)] + k;
    assert s[5..] == k;
  }

  lemma UnicodeRoundTrip(code: nat, k: string)
    requires code < 0xD800
    ensures ReadEscape((Unicode(code) + k)[1..]) == Got(code as char, k)
  {
    var a, b, c, d := code / 0x1000, code / 0x100 % 0x10, code / 0x10 % 0x10, code % 0x10;
    HexDigitsOf(code);
    ReadHex(a, b, c, d, k);
    assert (Unicode(code) + k)[1..] == ['u', HexDigit(a), HexDigit(b), HexDigit(c), HexDigit(d)] + k;
  }

  /** Reading one printed character gives it back, whatever follows. */
  lemma CharRoundTrip(c: char, k: string)
    ensures var s := Escape(c) + k;
            && s != "" && s[0] >= ' ' && s[0] != QUOTE
            && (if s[0] == BACKSLASH then ReadEscape(s[1..]) else Got(s[0], s[1..])) == Got(c, k)
  {
    var s := Escape(c) + k;
    if c < ' ' || c == '<' || c == '>' || c == '&' || c == '\U{2028}' || c == '\U{2029}' {
      if |Escape(c)| == 6 {
        UnicodeRoundTrip(c as int, k);
      } else {
        assert s[1..][1..] == k;
      }
    } else if |Escape(c)| == 2 {
      assert s[1..][1..] == k;
    } else {
      assert s[1..] == k;
    }
  }

  lemma {:induction false} CharsRoundTrip(x: string, k: string)
    ensures ReadChars(EscapeThen(x, [QUOTE] + k)) == Got(x, k)
  {
    if x == "" {
      assert ([QUOTE] + k)[1..] == k;
    } else {
      CharsRoundTrip(x[1..], k);
      CharRoundTrip(x[0], EscapeThen(x[1..], [QUOTE] + k));
      assert [x[0]] + x[1..] == x;
    }
  }

  lemma StringRoundTrip(x: string, k: string)
    ensures ReadString(QuoteThen(x, k)) == Got(x, k)
    ensures QuoteThen(x, k)[0] == QUOTE
  {
    CharsRoundTrip(x, k);
    assert QuoteThen(x, k)[1..] == EscapeThen(x, [QUOTE] + k);
  }

  lemma {:induction false} StringsRoundTrip(xs: seq<string>, k: string)
    ensures ReadStrings(StringsThen(xs, k)) == Got(xs, k)
    ensures xs != [] ==> StringsThen(xs, k)[0] == QUOTE
  {
    if xs == [] {
      assert ("]" + k)[1..] == k;
    } else if |xs| == 1 {
      StringRoundTrip(xs[0], "]" + k);
      assert xs == [xs[0]];
      assert ("]" + k)[1..] == k;
    } else {
      var tail := StringsThen(xs[1..], k);
      StringsRoundTrip(xs[1..], k);
      StringRoundTrip(xs[0], "," + tail);
      assert ("," + tail)[1..] == tail;
      assert [xs[0]] + xs[1..] == xs;
    }
  }

  lemma NamesRoundTrip(c: Comparison, op: GroupOp)
    ensures ComparisonOf(Name(c)) == Some(c)
    ensures ComparisonOf(GroupName(op)) == None && GroupOf(GroupName(op)) == Some(op)
  {
  }

  lemma BareRoundTrip(cmp: Comparison, property: string, k: string)
    ensures ReadLeaf(cmp, PROPERTY + QuoteThen(property, "}" + k)) == Got(Leaf(cmp, property, None), k)
  {
    assert ("}" + k)[1..] == k;
    ExpectSame(PROPERTY, QuoteThen(property, "}" + k));
    StringRoundTrip(property, "}" + k);
  }

  lemma ArgumentRoundTrip(cmp: Comparison, property: string, args: seq<string>, k: string)
    ensures ReadLeaf(cmp, PROPERTY + QuoteThen(property, ARGUMENT + StringsThen(args, "}" + k)))
            == Got(Leaf(cmp, property, Some(args)), k)
  {
    assert ("}" + k)[1..] == k;
    var s3 := ARGUMENT + StringsThen(args, "}" + k);
    ExpectSame(PROPERTY, QuoteThen(property, s3));
    StringRoundTrip(property, s3);
    ExpectSame(ARGUMENT, StringsThen(args, "}" + k));
    assert s3[0] == ',';
    StringsRoundTrip(args, "}" + k);
  }

  lemma PropertyRoundTrip(cmp: Comparison, property: string, argument: Option<seq<string>>, k: string)
    ensures ReadLeaf(cmp, PROPERTY + QuoteThen(property,
              if argument.None? then "}" + k else ARGUMENT + StringsThen(argument.value, "}" + k)))
            == Got(Leaf(cmp, property, argument), k)
  {
    match argument
    case None => BareRoundTrip(cmp, property, k);
    case Some(args) => ArgumentRoundTrip(cmp, property, args, k);
  }

  lemma LeafRoundTrip(w: Wire, k: string)
    requires w.Leaf?
    ensures ReadWire(WireThen(w, k)) == Got(w, k)
  {
    NamesRoundTrip(w.cmp, And);
    PropertyRoundTrip(w.cmp, w.property, w.argument, k);
    var s2 := PROPERTY + QuoteThen(w.property,
      if w.argument.None? then "}" + k else ARGUMENT + StringsThen(w.argument.value, "}" + k));
    StringRoundTrip(Name(w.cmp), s2);
    ExpectSame(OPERATOR, QuoteThen(Name(w.cmp), s2));
  }

  predicate OpensObject(s: string) {
    s != "" && s[0] == '{'
  }

  lemma WireOpens(w: Wire, k: string)
    ensures OpensObject(WireThen(w, k))
  {
  }

  lemma {:induction false} WireRoundTrip(w: Wire, k: string)
    ensures ReadWire(WireThen(w, k)) == Got(w, k)
    decreases w, 0
  {
    if w.Leaf? {
      LeafRoundTrip(w, k);
    } else {
      NamesRoundTrip(EQUALS, w.op);
      WiresRoundTrip(w.nested, "}" + k);
      assert ("}" + k)[1..] == k;
      var s2 := NESTED + WiresThen(w.nested, "}" + k);
      ExpectSame(NESTED, WiresThen(w.nested, "}" + k));
      StringRoundTrip(GroupName(w.op), s2);
      ExpectSame(OPERATOR, QuoteThen(GroupName(w.op), s2));
    }
  }

  lemma ReadLastWire(s: string, w: Wire, k: string)
    requires OpensObject(s) && ReadWire(s) == Got(w, "]" + k)
    ensures ReadWires(s) == Got([w], k)
  {
    assert ("]" + k)[1..] == k;
  }

  lemma ReadMoreWires(s: string, w: Wire, tail: string, ws: seq<Wire>, k: string)
    requires OpensObject(s) && ReadWire(s) == Got(w, "," + tail)
    requires OpensObject(tail) && ReadWires(tail) == Got(ws, k)
    ensures ReadWires(s) == Got([w] + ws, k)
  {
    assert ("," + tail)[1..] == tail;
  }

  lemma WiresOpen(ws: seq<Wire>, k: string)
    requires ws != []
    ensures OpensObject(WiresThen(ws, k))
  {
    WireOpens(ws[0], if |ws| == 1 then "]" + k else "," + WiresThen(ws[1..], k));
  }

  lemma LastRoundTrip(w: Wire, k: string)
    requires ReadWire(WireThen(w, "]" + k)) == Got(w, "]" + k)
    ensures ReadWires(WiresThen([w], k)) == Got([w], k)
  {
    WireOpens(w, "]" + k);
    ReadLastWire(WireThen(w, "]" + k), w, k);
  }

  lemma MoreRoundTrip(w: Wire, ws: seq<Wire>, k: string)
    requires ws != [] && ReadWires(WiresThen(ws, k)) == Got(ws, k)
    requires ReadWire(WireThen(w, "," + WiresThen(ws, k))) == Got(w, "," + WiresThen(ws, k))
    ensures ReadWires(WiresThen([w] + ws, k)) == Got([w] + ws, k)
  {
    var tail := WiresThen(ws, k);
    WireOpens(w, "," + tail);
    WiresOpen(ws, k);
    ReadMoreWires(WireThen(w, "," + tail), w, tail, ws, k);
    assert ([w] + ws)[1..] == ws;
  }

  lemma {:induction false} WiresRoundTrip(ws: seq<Wire>, k: string)
    ensures ReadWires(WiresThen(ws, k)) == Got(ws, k)
    decreases ws, 0
  {
    if ws == [] {
      assert ("]" + k)[1..] == k;
    } else if |ws| == 1 {
      WireRoundTrip(ws[0], "]" + k);
      LastRoundTrip(ws[0], k);
      assert ws == [ws[0]];
    } else {
      WiresRoundTrip(ws[1..], k);
      WireRoundTrip(ws[0], "," + WiresThen(ws[1..], k));
      MoreRoundTrip(ws[0], ws[1..], k);
      assert ws == [ws[0]] + ws[1..];
    }
  }

  /** Printing a filter body and reading it back gives the same tree, for every
      tree over any Unicode strings, and the list-all filter stays itself. */
  lemma BodyRoundTrip(f: Option<Wire>)
    ensures ReadBody(Body(f)) == Some(f)
  {
    match f
    case None => ExpectSame(ENVELOPE, "}}");
    case Some(w) =>
      WireRoundTrip(w, "}}");
      ExpectSame(ENVELOPE, EXPRESSION + WireThen(w, "}}"));
      ExpectSame(EXPRESSION, WireThen(w, "}}"));
  }

  /** Different filters have different bodies: [""] is not an absent argument,
      and no expression prints as the list-all filter. */
  lemma BodyInjective(f: Option<Wire>, g: Option<Wire>)
    requires Body(f) == Body(g)
    ensures f == g
  {
    BodyRoundTrip(f);
    BodyRoundTrip(g);
  }

  /** From source expression to text and back: whatever the body says on the wire
      means exactly what the caller's expression meant. */
  lemma MarshalRoundTrip(e: Expr, row: Row)
    ensures MarshalJSON(e).Ok? <==> e.Nil? || WellFormed(e)
    ensures MarshalJSON(e).Ok? ==>
              match ReadBody(MarshalJSON(e).value)
              case None => false
              case Some(None) => e.Nil?
              case Some(Some(w)) => !e.Nil? && Normal(w) && WireTruth(w, row) == Truth(e, row)
  {
    if e.Nil? {
      BodyRoundTrip(None);
    } else {
      CompileCorrect(e, row);
      if Encode(e).Ok? {
        BodyRoundTrip(Some(Encode(e).value));
      }
    }
  }

  // -------------------------------------------------------------- the text

  /** The platform's own words for the operators. */
  lemma OperatorNames()
    ensures Name(EQUALS) == "EQUALS" && Name(NOT_EQUALS) == "NOT_EQUALS" && Name(LIKE) == "LIKE"
    ensures Name(CONTAINS) == "CONTAINS" && Name(IS_NULL) == "IS_NULL" && Name(IS_NOT_NULL) == "IS_NOT_NULL"
    ensures Name(GREATER_THAN) == "GREATER_THAN" && Name(GREATER_THAN_OR_EQUAL) == "GREATER_THAN_OR_EQUAL"
    ensures Name(LESS_THAN) == "LESS_THAN" && Name(LESS_THAN_OR_EQUAL) == "LESS_THAN_OR_EQUAL"
    ensures GroupName(And) == "and" && GroupName(Or) == "or"
  {
  }

  /** Text that no escaping changes. */
  predicate Literal(s: string) {
    forall c | c in s :: Escape(c) == [c]
  }

  lemma {:induction false} LiteralThen(s: string, k: string)
    requires Literal(s)
    ensures EscapeThen(s, k) == s + k
  {
    if s == "" {
      assert s + k == k;
    } else {
      assert Escape(s[0]) == [s[0]];
      LiteralThen(s[1..], k);
      Assoc([s[0]], s[1..], k);
      assert s == [s[0]] + s[1..];
    }
  }

  function Quoted(s: string): string {
    "\"" + (s + "\"")
  }

  lemma QuotedThen(s: string, k: string)
    requires Literal(s)
    ensures QuoteThen(s, k) == Quoted(s) + k
  {
    LiteralThen(s, [QUOTE] + k);
    Assoc(s, [QUOTE], k);
    Assoc([QUOTE], s + [QUOTE], k);
  }

  predicate UpperCase(s: string) {
    forall i | 0 <= i < |s| :: s[i] == '_' || 'A' <= s[i] <= 'Z'
  }

  lemma NamesUpperCase(c: Comparison)
    ensures UpperCase(Name(c))
  {
  }

  lemma UpperIsLiteral(s: string)
    requires UpperCase(s)
    ensures Literal(s)
  {
    forall x | x in s ensures Escape(x) == [x] {
      var i :| 0 <= i < |s| && s[i] == x;
    }
  }

  lemma NamesLiteral(c: Comparison)
    ensures Literal(Name(c))
  {
    NamesUpperCase(c);
    UpperIsLiteral(Name(c));
  }

  /** A comparison on the wire, in full, for any property and argument that need no escaping. */
  lemma LeafText(cmp: Comparison, property: string, argument: string)
    requires Literal(property) && Literal(argument)
    ensures WireThen(Leaf(cmp, property, None), "")
            == "{\"operator\":" + (Quoted(Name(cmp)) + (",\"property\":" + (Quoted(property) + "}")))
    ensures WireThen(Leaf(cmp, property, Some([argument])), "")
            == "{\"operator\":" + (Quoted(Name(cmp)) + (",\"property\":" + (Quoted(property)
               + (",\"argument\":[" + (Quoted(argument) + "]}")))))
  {
    NamesLiteral(cmp);
    assert "}" + "" == "}" && "]" + "}" == "]}";
    QuotedThen(argument, "]}");
    var rest := ARGUMENT + (Quoted(argument) + "]}");
    QuotedThen(property, "}");
    QuotedThen(property, rest);
    QuotedThen(Name(cmp), PROPERTY + (Quoted(property) + "}"));
    QuotedThen(Name(cmp), PROPERTY + (Quoted(property) + rest));
  }

  /** A group on the wire: its operator and its members. */
  lemma NodeText(op: GroupOp, nested: seq<Wire>, k: string)
    ensures WireThen(Node(op, nested), k)
            == "{\"operator\":" + (Quoted(if op == And then "and" else "or") + (",\"nestedExpression\":[" + WiresThen(nested, "}" + k)))
  {
    forall x | x in GroupName(op) ensures Escape(x) == [x] {
      assert 'a' <= x <= 'z';
    }
    QuotedThen(GroupName(op), NESTED + WiresThen(nested, "}" + k));
  }

  /** The escapes as the encoder of the source writes them. */
  lemma EscapeText()
    ensures Escape('\"') == "\\\"" && Escape('\\') == "\\\\"
    ensures Escape('\U{08}') == "\\b" && Escape('\U{0C}') == "\\f"
    ensures Escape('\n') == "\\n" && Escape('\r') == "\\r" && Escape('\t') == "\\t"
    ensures Escape('<') == "\\u003c" && Escape('>') == "\\u003e" && Escape('&') == "\\u0026"
    ensures Escape('\U{1F}') == "\\u001f" && Escape('\U{2028}') == "\\u2028" && Escape('\U{2029}') == "\\u2029"
  {
  }

  /** The list-all body, in full, and the frame around any expression. */
  lemma BodyText(w: Wire)
    ensures Body(None) == "{\"QueryFilter\":{}}"
    ensures Body(Some(w)) == "{\"QueryFilter\":{" + ("\"expression\":" + WireThen(w, "}}"))
  {
    EmptyBodyText();
  }

  lemma EmptyBodyText()
    ensures Body(None) == "{\"QueryFilter\":{}}"
  {
  }

  /** Characters that never appear in printed text as themselves. */
  predicate Unsafe(c: char) {
    c < ' ' || c == '<' || c == '>' || c == '&' || c == '\U{2028}' || c == '\U{2029}'
  }

  /** Printed strings are safe to embed in HTML and script: control characters, angle
      brackets, ampersands and the two line separators only appear escaped. */
  lemma {:induction false} EscapedIsSafe(s: string)
    ensures forall c | c in EscapeThen(s, "") :: !Unsafe(c)
  {
    if s != "" {
      EscapedIsSafe(s[1..]);
    }
  }
}
