/** The three ways to name a component, and why their URLs are never confused. */
module Components {
  import opened Prelude
  import opened Url

  const COMPONENT: Bytes := [0x43, 0x6F, 0x6D, 0x70, 0x6F, 0x6E, 0x65, 0x6E, 0x74]
  const BRANCH_PREFIX: Bytes := [0x51, 0x6A, 0x6F]

  datatype ComponentError = EmptyId | TildeInId | BadVersion | BadBranch

  function ValidateId(id: Bytes): Option<ComponentError> {
    if id == [] then Some(EmptyId) else if TILDE in id then Some(TildeInId) else None
  }

  /** Decimal digits of a positive version. */
  function Digits(n: nat): Bytes {
    if n < 10 then [0x30 + n] else Digits(n / 10) + [0x30 + n % 10]
  }

  /** The three ways to name a component. */
  datatype Form =
    | Current(id: Bytes)
    | AtVersion(id: Bytes, version: int)
    | OnBranch(id: Bytes, branch: Bytes)

  /** The raw suffix of the request for this form, or why there is none. */
  function Suffix(f: Form): Result<Bytes, ComponentError> {
    match ValidateId(f.id)
    case Some(e) => Err(e)
    case None =>
      match f
      case Current(_) => Ok([])
      case AtVersion(_, version) => if version < 1 then Err(BadVersion) else Ok([TILDE] + Digits(version))
      case OnBranch(_, branch) => if BRANCH_PREFIX <= branch then Ok([TILDE] + branch) else Err(BadBranch)
  }

  lemma {:induction false} DigitsAreDigits(n: nat)
    ensures Digits(n) != [] && forall b | b in Digits(n) :: 0x30 <= b <= 0x39
  {
    if n >= 10 {
      DigitsAreDigits(n / 10);
    }
  }

  lemma EntityText()
    ensures COMPONENT == Ascii("Component")
  {
  }

  /** Which component requests are accepted, and why the others are not: the id must
      not be empty nor hold a tilde, a version is positive, a branch starts with Qjo. */
  lemma FormsAccepted(f: Form)
    ensures Suffix(f) == Err(EmptyId) <==> |f.id| == 0
    ensures Suffix(f) == Err(TildeInId) <==> |f.id| > 0 && 0x7E in f.id
    ensures Suffix(f) == Err(BadVersion) <==> |f.id| > 0 && 0x7E !in f.id && f.AtVersion? && f.version <= 0
    ensures Suffix(f) == Err(BadBranch) <==>
              |f.id| > 0 && 0x7E !in f.id && f.OnBranch? && !(|f.branch| >= 3 && f.branch[..3] == [0x51, 0x6A, 0x6F])
    ensures Suffix(f).Ok? ==>
              match f
              case Current(_) => Suffix(f).value == []
              case AtVersion(_, version) => Suffix(f).value == [0x7E] + Digits(version)
              case OnBranch(_, branch) => Suffix(f).value == [0x7E] + branch
  {
    if f.OnBranch? && BRANCH_PREFIX <= f.branch {
      assert f.branch[..3] == BRANCH_PREFIX;
    }
  }

  /** Versions print without leading zeros. */
  lemma {:induction false} NoLeadingZero(n: nat)
    requires n > 0
    ensures Digits(n)[0] != 0x30
  {
    if n >= 10 {
      NoLeadingZero(n / 10);
      DigitsAreDigits(n / 10);
    }
  }

  /** The current and versioned forms always pass the URL builder's own checks. */
  lemma VersionSuffixValid(f: Form)
    requires !f.OnBranch? && Suffix(f).Ok?
    ensures Check([COMPONENT, f.id], Suffix(f).value) == None
  {
    if f.AtVersion? {
      DigitsAreDigits(f.version);
      var s := [TILDE] + Digits(f.version);
      assert forall i | 1 <= i < |s| :: s[i] == Digits(f.version)[i - 1] && s[i] in Digits(f.version);
    }
  }

  function Number(digits: Bytes): int {
    if digits == [] then 0
    else Number(digits[..|digits| - 1]) * 10 + digits[|digits| - 1] - 0x30
  }

  lemma {:induction false} NumberOfDigits(n: nat)
    ensures Number(Digits(n)) == n
  {
    if n >= 10 {
      NumberOfDigits(n / 10);
      assert Digits(n)[..|Digits(n)| - 1] == Digits(n / 10);
    } else {
      assert Digits(n)[..0] == [];
    }
  }

  lemma SuffixesInjective(f: Form, g: Form)
    requires f.id == g.id && Suffix(f).Ok? && Suffix(f) == Suffix(g)
    ensures f == g
  {
    var s := Suffix(f).value;
    if s != [] {
      if f.AtVersion? {
        DigitsAreDigits(f.version);
        NumberOfDigits(f.version);
        assert s[1..] == Digits(f.version) && s[1] in s[1..];
      }
      if g.AtVersion? {
        DigitsAreDigits(g.version);
        NumberOfDigits(g.version);
        assert s[1..] == Digits(g.version) && s[1] in s[1..];
      }
      if f.OnBranch? {
        assert s[1..] == f.branch && s[1] == BRANCH_PREFIX[0];
      }
      if g.OnBranch? {
        assert s[1..] == g.branch && s[1] == BRANCH_PREFIX[0];
      }
    }
  }

  lemma NoTilde(f: Form)
    requires Suffix(f).Ok?
    ensures TildeFree([COMPONENT, f.id])
  {
    assert TILDE !in COMPONENT;
  }

  /** For all forms of components, cutting at the first tilde recovers the id and
      the suffix: ids with tildes were rejected. */
  lemma FormRoundTrip(cfg: Config, f: Form, query: Bytes)
    requires Suffix(f).Ok? && Check([COMPONENT, f.id], Suffix(f).value) == None
    ensures ReadRequest(RootOf(Base(cfg), cfg.accountId), UrlOf(cfg, [COMPONENT, f.id], Suffix(f).value, query))
         == Some(([COMPONENT, f.id], Suffix(f).value))
  {
    NoTilde(f);
    TildeRoundTrip(cfg, [COMPONENT, f.id], Suffix(f).value, query);
  }

  /** So component URLs are unambiguous: two accepted component requests of a client,
      of whatever form, have the same URL only if they are the same request. */
  lemma ComponentUrlsInjective(cfg: Config, f: Form, g: Form, queryF: Bytes, queryG: Bytes)
    requires Suffix(f).Ok? && Check([COMPONENT, f.id], Suffix(f).value) == None
    requires Suffix(g).Ok? && Check([COMPONENT, g.id], Suffix(g).value) == None
    requires UrlOf(cfg, [COMPONENT, f.id], Suffix(f).value, queryF) == UrlOf(cfg, [COMPONENT, g.id], Suffix(g).value, queryG)
    ensures f == g
  {
    FormRoundTrip(cfg, f, queryF);
    FormRoundTrip(cfg, g, queryG);
    SuffixesInjective(f, g);
  }
}
