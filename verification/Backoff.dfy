/** The retry policy: full jitter under an exponential envelope, or the server's
    own Retry-After. Durations are nanoseconds; the curve is over the reals. */
module Backoff {
  import opened Prelude
  import opened Pacing

  datatype Policy = Policy(base: int, cap: int, retryAfterCeiling: int, multiplier: real, maxAttempts: int)

  datatype WaitError =
    | Exhausted(attempt: int)
    | AboveCeiling(retryAfter: int)

  /** base * multiplier^n. */
  function Growth(base: real, multiplier: real, n: nat): real {
    if n == 0 then base else multiplier * Growth(base, multiplier, n - 1)
  }

  /** Conversion of a real to a duration truncates toward zero. */
  function Trunc(x: real): int {
    if x >= 0.0 then x.Floor else -((-x).Floor)
  }

  /** The uncapped curve before retry number `attempt`. */
  function Curve(p: Policy, attempt: int): real {
    Growth(p.base as real, p.multiplier, Max(attempt, 1) - 1)
  }

  function Envelope(p: Policy, attempt: int): real {
    if Curve(p, attempt) > p.cap as real then p.cap as real else Curve(p, attempt)
  }

  /** Full jitter: the draw u scales the envelope. */
  function JitteredPause(p: Policy, attempt: int, u: real): int {
    var e := Envelope(p, attempt);
    Trunc(u * e)
  }

  /** The pause before retry number `attempt`; u is the jitter draw. */
  function Wait(p: Policy, attempt: int, retryAfter: int, u: real): Result<int, WaitError> {
    if attempt >= p.maxAttempts then Err(Exhausted(attempt))
    else if retryAfter > 0 then
      if retryAfter > p.retryAfterCeiling then Err(AboveCeiling(retryAfter)) else Ok(retryAfter)
    else Ok(JitteredPause(p, attempt, u))
  }

  /** Base and cap are not negative and the curve does not shrink. */
  predicate Sensible(p: Policy) {
    p.base >= 0 && p.cap >= 0 && p.multiplier >= 1.0
  }

  lemma {:induction false} GrowthMonotone(base: real, b: real, m: nat, n: nat)
    requires base >= 0.0 && b >= 1.0 && m <= n
    ensures 0.0 <= Growth(base, b, m) <= Growth(base, b, n)
    decreases n
  {
    if m < n {
      GrowthMonotone(base, b, m, n - 1);
      Scale(1.0, b, Growth(base, b, n - 1));
    } else if n > 0 {
      GrowthMonotone(base, b, n - 1, n - 1);
      Scale(1.0, b, Growth(base, b, n - 1));
    }
  }

  lemma Scale(a: real, b: real, c: real)
    requires a <= b && c >= 0.0
    ensures a * c <= b * c
  {
  }

  /** The envelope never shrinks from one attempt to the next and stays within the cap. */
  lemma EnvelopeMonotone(p: Policy, a: int, b: int)
    requires Sensible(p) && a <= b
    ensures 0.0 <= Envelope(p, a) <= Envelope(p, b) <= p.cap as real
    ensures Envelope(p, a) <= Curve(p, a)
  {
    GrowthMonotone(p.base as real, p.multiplier, Max(a, 1) - 1, Max(b, 1) - 1);
  }

  lemma Scaled(u: real, e: real) returns (x: real)
    requires 0.0 <= u < 1.0 && e >= 0.0
    ensures x == u * e && 0.0 <= x <= e
    ensures e > 0.0 ==> x < e
  {
    x := u * e;
    Scale(0.0, u, e);
    if e > 0.0 {
      Product(1.0 - u, e);
      assert e - x == (1.0 - u) * e;
    }
  }

  lemma Product(a: real, b: real)
    requires a > 0.0 && b > 0.0
    ensures a * b > 0.0
  {
  }

  lemma TruncBelow(x: real, e: real)
    requires 0.0 <= x
    ensures 0 <= Trunc(x)
    ensures x <= e ==> Trunc(x) as real <= e
    ensures x < e ==> Trunc(x) as real < e
  {
    assert Trunc(x) as real <= x;
  }

  /** Scaling any envelope e by a draw below one stays under everything e stays under. */
  lemma JitterWithin(u: real, e: real, cap: int, curve: real)
    requires 0.0 <= u < 1.0 && 0.0 <= e <= cap as real && e <= curve
    ensures var w := Trunc(u * e);
            && 0 <= w <= cap && w as real <= curve
            && (e > 0.0 ==> w as real < e)
  {
    var x := Scaled(u, e);
    TruncBelow(x, e);
  }

  /** Is w a pause in [0, envelope) for this attempt (0 when the envelope is 0)? */
  predicate UnderEnvelope(p: Policy, attempt: int, w: int) {
    && 0 <= w <= p.cap
    && w as real <= Curve(p, attempt)
    && (Envelope(p, attempt) > 0.0 ==> w as real < Envelope(p, attempt))
  }

  lemma JitterUnderEnvelope(p: Policy, attempt: int, u: real) returns (w: int)
    requires Sensible(p) && 0.0 <= u < 1.0
    ensures w == JitteredPause(p, attempt, u)
    ensures UnderEnvelope(p, attempt, w)
  {
    var e, c := Envelope(p, attempt), Curve(p, attempt);
    EnvelopeMonotone(p, attempt, attempt);
    JitterWithin(u, e, p.cap, c);
    w := Trunc(u * e);
  }

  /** A pause is either the server's positive hint, exact and within the ceiling,
      or lies under the jitter envelope of its attempt. */
  lemma WaitWithin(p: Policy, attempt: int, retryAfter: int, u: real)
    requires Sensible(p) && 0.0 <= u < 1.0
    requires Wait(p, attempt, retryAfter, u).Ok?
    ensures var w := Wait(p, attempt, retryAfter, u).value;
            if retryAfter > 0 then w == retryAfter <= p.retryAfterCeiling else UnderEnvelope(p, attempt, w)
    ensures 0 <= Wait(p, attempt, retryAfter, u).value <= Max(p.cap, p.retryAfterCeiling)
  {
    if retryAfter <= 0 {
      var w := JitterUnderEnvelope(p, attempt, u);
    }
  }

  /** The policy refuses exactly when the attempts are spent or the hint is too
      long, and says which; a hint it accepts is the pause. */
  lemma WaitRefuses(p: Policy, attempt: int, retryAfter: int, u: real)
    ensures Wait(p, attempt, retryAfter, u) == Err(Exhausted(attempt)) <==> attempt >= p.maxAttempts
    ensures Wait(p, attempt, retryAfter, u) == Err(AboveCeiling(retryAfter)) <==>
              attempt < p.maxAttempts && retryAfter > Max(p.retryAfterCeiling, 0)
    ensures Wait(p, attempt, retryAfter, u).Err? <==>
              attempt >= p.maxAttempts || retryAfter > Max(p.retryAfterCeiling, 0)
    ensures attempt < p.maxAttempts && 0 < retryAfter <= p.retryAfterCeiling ==>
              Wait(p, attempt, retryAfter, u) == Ok(retryAfter)
  {
  }

  /** The backoff before retry number `attempt`, before the cap: the base, and one
      multiplication for each further retry. */
  function Uncapped(p: Policy, attempt: nat): real {
    if attempt <= 1 then p.base as real else Uncapped(p, attempt - 1) * p.multiplier
  }

  /** w is x cut off to a whole number, toward zero. */
  predicate CutOff(w: int, x: real) {
    if x >= 0.0 then w as real <= x < w as real + 1.0 else w as real - 1.0 < x <= w as real
  }

  /** w is the draw u of the smaller of the cap and the uncapped backoff, in whole nanoseconds. */
  predicate FullJitter(p: Policy, attempt: nat, u: real, w: int) {
    var most := if p.cap as real < Uncapped(p, attempt) then p.cap as real else Uncapped(p, attempt);
    CutOff(w, u * most)
  }

  lemma {:induction false} CurveIsUncapped(p: Policy, attempt: nat)
    ensures Curve(p, attempt) == Uncapped(p, attempt)
  {
    if attempt > 1 {
      CurveIsUncapped(p, attempt - 1);
      assert Max(attempt, 1) - 1 == Max(attempt - 1, 1) - 1 + 1;
    }
  }

  lemma TruncCuts(x: real)
    ensures CutOff(Trunc(x), x)
  {
  }

  lemma CappedDraw(p: Policy, attempt: nat, u: real) returns (x: real)
    ensures x == u * (if p.cap as real < Uncapped(p, attempt) then p.cap as real else Uncapped(p, attempt))
    ensures JitteredPause(p, attempt, u) == Trunc(x)
  {
    CurveIsUncapped(p, attempt);
    x := u * Envelope(p, attempt);
  }

  /** Without a hint the pause is full jitter, exactly: for every policy, draw and
      attempt the policy still allows. */
  lemma WaitExact(p: Policy, attempt: nat, retryAfter: int, u: real)
    requires attempt < p.maxAttempts && retryAfter <= 0
    ensures Wait(p, attempt, retryAfter, u).Ok? && FullJitter(p, attempt, u, Wait(p, attempt, retryAfter, u).value)
  {
    var x := CappedDraw(p, attempt, u);
    TruncCuts(x);
  }

  // ------------------------------------------------- Retry-After in seconds

  const TWO63 := 0x8000_0000_0000_0000
  const TWO64 := 0x1_0000_0000_0000_0000

  /** Two's-complement wrap-around to a 64-bit signed integer. */
  function Wrap64(x: int): int {
    (x + TWO63) % TWO64 - TWO63
  }

  /** The delta-seconds form of the header, once it has parsed as an integer. */
  function DeltaSeconds(secs: int): int {
    if secs <= 0 then 0 else Wrap64(secs * SECOND)
  }

  const MAX_EXACT_SECONDS := 9_223_372_036

  /** No positive number of seconds, no hint; otherwise the hint is what the server
      asked for modulo 2^64, as a signed 64-bit number. */
  lemma DeltaSecondsValue(secs: int)
    ensures secs <= 0 ==> DeltaSeconds(secs) == 0
    ensures secs > 0 ==>
              && -0x8000_0000_0000_0000 <= DeltaSeconds(secs) < 0x8000_0000_0000_0000
              && (DeltaSeconds(secs) - secs * 1_000_000_000) % 0x1_0000_0000_0000_0000 == 0
  {
    var x := secs * SECOND + TWO63;
    assert x == x / TWO64 * TWO64 + x % TWO64;
    assert secs > 0 ==> DeltaSeconds(secs) - secs * SECOND == -(x / TWO64) * TWO64;
    Multiple(-(x / TWO64));
  }

  lemma Multiple(k: int)
    ensures (k * TWO64) % TWO64 == 0
  {
  }

  /** The hint is what the server asked for exactly up to 9223372036 seconds. */
  lemma DeltaSecondsExact(secs: int)
    requires 0 < secs < TWO63
    ensures DeltaSeconds(secs) == secs * SECOND <==> secs <= MAX_EXACT_SECONDS
  {
    assert -TWO63 <= Wrap64(secs * SECOND) < TWO63;
    if secs <= MAX_EXACT_SECONDS {
      assert secs * SECOND + TWO63 < TWO64;
    } else {
      assert secs * SECOND >= TWO63;
    }
  }

  /** Beyond that it wraps: a server asking for centuries can be retried within a
      third of a second, under any ceiling of at least that. */
  lemma DeltaSecondsWraps(p: Policy, attempt: int, u: real)
    requires attempt < p.maxAttempts && p.retryAfterCeiling >= SECOND / 3
    ensures Wait(p, attempt, DeltaSeconds(18_446_744_074), u) == Ok(290_448_384)
  {
    assert 18_446_744_074 * SECOND == TWO64 + 290_448_384;
    assert Wrap64(TWO64 + 290_448_384) == 290_448_384;
  }
}
