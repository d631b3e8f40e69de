/** Where the pacing protocol promises less than it may seem to: how sends relate
    to grants, which rates are really paced, and settings that come late. Each
    comes with the exact condition. */
module PacingLimits {
  import opened Prelude
  import opened Pacing
  import opened PacingSafety
  import opened PacingRuns

  lemma {:induction false} Burst(s: State, id: CallerId, n: nat) returns (more: seq<Action>)
    requires id in s.callers
    requires var c := s.callers[id];
             c.origin.Via? && (c.pc.Granted? || c.pc.Backoff?) && c.sends + n <= c.budget && n >= 1
    ensures var s' := Exec(s, more);
            && id in s'.callers && s'.callers[id].sends == s.callers[id].sends + n
            && s'.grants == s.grants && s'.clock == s.clock
    ensures forall a | a in more :: !a.SetRate? && !a.Begin?
    decreases n
  {
    var send := Step(s, Send(id));
    ExecSnoc(s, [], Send(id));
    if n == 1 {
      more := [Send(id)];
    } else {
      var again := Step(send, Answer(id, Retryable));
      ExecSnoc(s, [Send(id)], Answer(id, Retryable));
      var rest := Burst(again, id, n - 1);
      more := [Send(id)] + [Answer(id, Retryable)] + rest;
      ExecConcat(s, [Send(id)] + [Answer(id, Retryable)], rest);
    }
  }

  /** The bucket bounds grants, not sends: retries never re-enter it. With the
      default rate, one grant can be followed by any number of sends at one instant. */
  lemma RetriesBypassBucket(n: nat) returns (run: seq<Action>)
    requires n >= 1
    ensures ConfiguredByNew(run) && BudgetsWithin(run, n)
    ensures var s := Exec(Init(), run);
            && |s.grants| == 1 && s.clock == s.grants[0].at
            && 0 in s.callers && s.callers[0].sends == n
  {
    assert IntervalOf(DEFAULT_RPS) == SECOND / 8;
    var a1 := SetRate(Via(0), DEFAULT_RPS, SECOND / 8);
    var a2 := SetReads(Via(0), DEFAULT_READS);
    var a3 := Begin(0, Via(0), Read, n);
    ExecSnoc(Init(), [], a1);
    ExecSnoc(Init(), [a1], a2);
    ExecSnoc(Init(), [a1] + [a2], a3);
    ExecSnoc(Init(), [a1] + [a2] + [a3], TryGate(0));
    ExecSnoc(Init(), [a1] + [a2] + [a3] + [TryGate(0)], TryBucket(0));
    var prefix := [a1] + [a2] + [a3] + [TryGate(0)] + [TryBucket(0)];
    var more := Burst(Exec(Init(), prefix), 0, n);
    run := prefix + more;
    ExecConcat(Init(), prefix, more);
  }

  // ------------------------------------------------ sends against grants

  /** One element for each request a caller has put on the wire. */
  function Sent(s: State): set<(CallerId, nat)> {
    set id, k | id in s.callers && 0 <= k < s.callers[id].sends :: (id, k)
  }

  lemma SameSends(s: State, s': State)
    requires forall id | id in s.callers :: id in s'.callers && s'.callers[id].sends == s.callers[id].sends
    requires forall id | id in s'.callers && id !in s.callers :: s'.callers[id].sends == 0
    ensures Sent(s') == Sent(s)
  {
  }

  lemma OneSend(s: State, s': State, id: CallerId)
    requires id in s.callers && id in s'.callers && s'.callers == s.callers[id := s'.callers[id]]
    requires s'.callers[id].sends == s.callers[id].sends + 1
    ensures Sent(s') == Sent(s) + {(id, s.callers[id].sends)}
  {
  }

  lemma OtherSends(s: State, a: Action)
    requires !(a.Send? && Enabled(s, a))
    ensures forall id | id in s.callers ::
              id in Step(s, a).callers && Step(s, a).callers[id].sends == s.callers[id].sends
    ensures forall id | id in Step(s, a).callers && id !in s.callers :: Step(s, a).callers[id].sends == 0
  {
  }

  /** Indeed, sends and only sends add to it, one each. */
  lemma SendCounts(s: State, a: Action)
    ensures |Sent(Step(s, a))| == |Sent(s)| + if a.Send? && Enabled(s, a) then 1 else 0
  {
    if a.Send? && Enabled(s, a) {
      OneSend(s, Step(s, a), a.id);
    } else {
      OtherSends(s, a);
      SameSends(s, Step(s, a));
    }
  }

  /** Has this caller been granted and stayed to send? */
  predicate HasTurn(c: Caller) {
    c.sends > 0 || c.pc.Granted? || c.pc.Sending? || c.pc.Backoff?
  }

  function Served(s: State): set<CallerId> {
    set id | id in s.callers && HasTurn(s.callers[id])
  }

  lemma MoveServed(s: State, s': State, id: CallerId)
    requires id in s'.callers && s'.callers == s.callers[id := s'.callers[id]]
    ensures Served(s') == if HasTurn(s'.callers[id]) then Served(s) + {id} else Served(s) - {id}
  {
  }

  /** Only a grant brings a caller to its turn. */
  lemma TurnTakesGrant(s: State, a: Action)
    ensures |Step(s, a).grants| >= |s.grants|
    ensures Subject(a).Some? && Subject(a).value in Served(Step(s, a)) && Subject(a).value !in Served(s) ==>
              |Step(s, a).grants| == |s.grants| + 1
  {
  }

  lemma ServedStep(s: State, a: Action)
    requires |Served(s)| <= |s.grants|
    ensures |Served(Step(s, a))| <= |Step(s, a).grants|
  {
    var s' := Step(s, a);
    StepFrame(s, a);
    TurnTakesGrant(s, a);
    if s'.callers == s.callers {
      assert Served(s') == Served(s);
    } else {
      MoveServed(s, s', Subject(a).value);
    }
  }

  lemma {:induction false} ServedRun(run: seq<Action>)
    ensures |Served(Exec(Init(), run))| <= |Exec(Init(), run).grants|
  {
    if run == [] {
      assert Served(Init()) == {};
    } else {
      ServedRun(run[..|run| - 1]);
      ServedStep(Exec(Init(), run[..|run| - 1]), run[|run| - 1]);
    }
  }

  /** The first n numbers. */
  function Below(n: nat): (r: set<nat>)
    ensures |r| == n && forall i :: i in r <==> 0 <= i < n
  {
    if n == 0 then {} else Below(n - 1) + {n - 1}
  }

  lemma SubsetSize<T>(a: set<T>, b: set<T>)
    requires a <= b
    ensures |a| <= |b|
  {
    assert b == a + (b - a);
  }

  /** The sends that the budgets of the served callers allow: as many elements as
      those budgets have in all. */
  function Allowed(s: State): set<(CallerId, nat)> {
    set id, k | id in Served(s) && 0 <= k < s.callers[id].budget :: (id, k)
  }

  /** In every run each caller that has sent took a grant of its own, and all
      sends together stay within the budgets of the callers so granted. */
  lemma SendsWithinBudgets(run: seq<Action>)
    ensures var s := Exec(Init(), run);
            && (forall id | id in s.callers && s.callers[id].sends > 0 :: id in Served(s))
            && |Served(s)| <= |s.grants|
            && |Sent(s)| <= |Allowed(s)|
  {
    var s := Exec(Init(), run);
    ServedRun(run);
    assert Rejecters(Init()) == {};
    BreakerRun(Init(), run);
    forall p | p in Sent(s) ensures p in Allowed(s) {
      assert CallerSound(s.callers[p.0]);
    }
    SubsetSize(Sent(s), Allowed(s));
  }

  predicate BudgetsWithin(run: seq<Action>, b: nat) {
    forall a | a in run :: a.Begin? ==> a.budget <= b
  }

  lemma {:induction false} BudgetsKept(run: seq<Action>, b: nat)
    requires BudgetsWithin(run, b)
    ensures forall id | id in Exec(Init(), run).callers :: Exec(Init(), run).callers[id].budget <= b
  {
    if run != [] {
      BudgetsKept(run[..|run| - 1], b);
      assert run[|run| - 1] in run;
      StepFrame(Exec(Init(), run[..|run| - 1]), run[|run| - 1]);
    }
  }

  function Grid(ids: set<CallerId>, b: nat): set<(CallerId, nat)> {
    set id, k | id in ids && 0 <= k < b :: (id, k)
  }

  function Row(ids: set<CallerId>, k: nat): set<(CallerId, nat)> {
    set id | id in ids :: (id, k)
  }

  lemma {:induction false} RowSize(ids: set<CallerId>, k: nat)
    ensures |Row(ids, k)| == |ids|
    decreases |ids|
  {
    if ids == {} {
      assert Row(ids, k) == {};
    } else {
      var id :| id in ids;
      RowSize(ids - {id}, k);
      assert Row(ids, k) == Row(ids - {id}, k) + {(id, k)};
    }
  }

  lemma {:induction false} GridSize(ids: set<CallerId>, b: nat)
    ensures |Grid(ids, b)| == b * |ids|
  {
    if b == 0 {
      assert Grid(ids, b) == {};
    } else {
      GridSize(ids, b - 1);
      RowSize(ids, b - 1);
      assert Grid(ids, b) == Grid(ids, b - 1) + Row(ids, b - 1);
      assert b * |ids| == (b - 1) * |ids| + |ids|;
    }
  }

  /** So with budgets of at most b there are at most b sends per grant. */
  lemma SendsPerGrant(run: seq<Action>, b: nat)
    requires BudgetsWithin(run, b)
    ensures |Sent(Exec(Init(), run))| <= b * |Exec(Init(), run).grants|
  {
    var s := Exec(Init(), run);
    SendsWithinBudgets(run);
    BudgetsKept(run, b);
    AllowedSize(s, b);
    MulMonotone(|Served(s)|, |s.grants|, b);
  }

  lemma AllowedSize(s: State, b: nat)
    requires forall id | id in s.callers :: s.callers[id].budget <= b
    ensures |Allowed(s)| <= b * |Served(s)|
  {
    SubsetSize(Allowed(s), Grid(Served(s), b));
    GridSize(Served(s), b);
  }

  /** Sends are paced by the bucket exactly when no call may send twice: they never
      outnumber the grants in any run of these budgets if and only if b is at most one. */
  lemma SendsPacedExactly(b: nat)
    ensures (forall run | BudgetsWithin(run, b) :: |Sent(Exec(Init(), run))| <= |Exec(Init(), run).grants|) <==> b <= 1
  {
    if b <= 1 {
      forall run | BudgetsWithin(run, b) ensures |Sent(Exec(Init(), run))| <= |Exec(Init(), run).grants| {
        SendsPerGrant(run, b);
        MulMonotone(b, 1, |Exec(Init(), run).grants|);
      }
    } else {
      var run := RetriesBypassBucket(b);
      var s := Exec(Init(), run);
      GridSize({0}, b);
      SubsetSize(Grid({0}, b), Sent(s));
    }
  }

  // ------------------------------------------------- which rates are paced

  /** One caller acquires, is granted at once, and releases. */
  lemma Round(s: State, id: CallerId) returns (more: seq<Action>)
    requires s.bucket.Ready(s.clock) && !s.readGate.Full() && id !in s.callers
    ensures forall a | a in more :: !a.SetRate?
    ensures var s' := Exec(s, more);
            && s'.clock == s.clock && s'.bucket == s.bucket.Take(s.clock)
            && s'.grants == s.grants + [Grant(s.clock, s.bucket.interval)]
            && !s'.readGate.Full() && s'.callers.Keys == s.callers.Keys + {id}
  {
    var b, g, t, u, r := Begin(id, Direct, Read, 1), TryGate(id), TryBucket(id), GiveUp(id), Release(id);
    more := [b] + [g] + [t] + [u] + [r];
    var s3 := Step(Step(Step(s, b), g), t);
    RoundGranted(s, id);
    RoundReleased(s3, id);
    assert Exec(s, more) == Step(Step(s3, u), r) by {
      ExecSnoc(s, [], b);
      ExecSnoc(s, [b], g);
      ExecSnoc(s, [b] + [g], t);
      ExecSnoc(s, [b] + [g] + [t], u);
      ExecSnoc(s, [b] + [g] + [t] + [u], r);
    }
  }

  lemma RoundGranted(s: State, id: CallerId)
    requires s.bucket.Ready(s.clock) && !s.readGate.Full() && id !in s.callers
    ensures Step(Step(Step(s, Begin(id, Direct, Read, 1)), TryGate(id)), TryBucket(id))
            == s.(bucket := s.bucket.Take(s.clock),
                  grants := s.grants + [Grant(s.clock, s.bucket.interval)],
                  readGate := s.readGate.Enter(),
                  callers := s.callers[id := Caller(Direct, Read, 1, 0, 0, Granted)])
  {
  }

  lemma RoundReleased(s: State, id: CallerId)
    requires id in s.callers && s.callers[id] == Caller(Direct, Read, 1, 0, 0, Granted)
    ensures Step(Step(s, GiveUp(id)), Release(id))
            == s.(readGate := s.readGate.Release(), callers := s.callers[id := Caller(Direct, Read, 1, 0, 0, Done)])
  {
  }

  lemma {:induction false} Flood(s: State, n: nat, next: CallerId, from: int) returns (more: seq<Action>)
    requires s.bucket.Ready(s.clock) && !s.readGate.Full()
    requires forall id | id in s.callers :: id < next
    requires |s.grants| == next && s.clock == from + next * Max(0, s.bucket.interval)
    requires forall i | 0 <= i < next :: s.grants[i].at == from + i * Max(0, s.bucket.interval)
    ensures var s' := Exec(s, more);
            && |s'.grants| == next + n
            && forall i | 0 <= i < next + n :: s'.grants[i].at == from + i * Max(0, s.bucket.interval)
    ensures forall a | a in more :: !a.SetRate?
    decreases n
  {
    if n == 0 {
      more := [];
    } else {
      var round := Round(s, next);
      var s1 := Exec(s, round);
      var d := Max(0, s.bucket.interval);
      var tick := Tick(d);
      ExecSnoc(s, round, tick);
      var s2 := Step(s1, tick);
      forall id | id in s2.callers ensures id < next + 1 {
        assert id in s1.callers.Keys;
      }
      assert (next + 1) * d == next * d + d;
      var rest := Flood(s2, n - 1, next + 1, from);
      more := round + [tick] + rest;
      ExecConcat(s, round + [tick], rest);
    }
  }

  /** With a spacing of iv, however it came about, any number of grants can follow
      each other at that distance, or all at one instant if it is not positive. */
  lemma BackToBack(rps: real, iv: int, n: nat) returns (run: seq<Action>)
    requires 0.0 < rps <= MAX_RPS && Permitted(rps, iv)
    ensures AtRate(run, rps, iv)
    ensures var s := Exec(Init(), run);
            |s.grants| == n && forall i | 0 <= i < n :: s.grants[i].at == i * Max(0, iv)
  {
    var a1 := SetRate(Via(0), rps, iv);
    ExecSnoc(Init(), [], a1);
    var more := Flood(Exec(Init(), [a1]), n, 0, 0);
    run := [a1] + more;
    ExecConcat(Init(), [a1], more);
  }

  /** May the conversion of this rate's spacing yield iv? Where the spacing does
      not fit a duration, hardware decides: some yields the least duration. */
  predicate Permitted(rps: real, iv: int)
    requires rps > 0.0
  {
    Representable(rps) ==> iv == IntervalOf(rps)
  }

  /** Every rate of the run is this one, from a client's config, converted to iv. */
  predicate AtRate(run: seq<Action>, rps: real, iv: int) {
    forall a | a in run :: a.SetRate? ==> a.src.Via? && a.rps == rps && a.iv == iv
  }

  /** No run at this rate and conversion puts more than ten grants in a half-open second. */
  ghost predicate KeepsTen(rps: real, iv: int) {
    forall run, from: int | AtRate(run, rps, iv) :: |InWindow(Exec(Init(), run).grants, from, SECOND)| <= 10
  }

  lemma {:induction false} RateIntervals(run: seq<Action>, rps: real, iv: int)
    requires AtRate(run, rps, iv) && iv >= SECOND / 10
    ensures IntervalsAtLeast(Exec(Init(), run), SECOND / 10)
  {
    if run == [] {
      ClientInterval(DEFAULT_RPS);
    } else {
      var front, a := run[..|run| - 1], run[|run| - 1];
      RateIntervals(front, rps, iv);
      GrantsSpaced(front);
      SpacingStep(Exec(Init(), front), a);
    }
  }

  lemma {:induction false} FirstInWindow(grants: seq<Grant>, length: int, n: nat)
    requires n <= |grants| && forall i | 0 <= i < n :: 0 <= grants[i].at < length
    ensures |InWindow(grants, 0, length)| >= n
  {
    SubsetSize(Below(n), InWindow(grants, 0, length));
  }

  /** An accepted rate paces its account exactly when its spacing converts to at
      least a tenth of a second. */
  lemma KeepsTenExactly(rps: real, iv: int)
    requires 0.0 < rps <= MAX_RPS && Permitted(rps, iv)
    ensures KeepsTen(rps, iv) <==> iv >= SECOND / 10
  {
    if iv >= SECOND / 10 {
      forall run, from: int | AtRate(run, rps, iv) ensures |InWindow(Exec(Init(), run).grants, from, SECOND)| <= 10 {
        GrantsSpaced(run);
        RateIntervals(run, rps, iv);
        WindowBound(Exec(Init(), run).grants, from, 10, SECOND / 10);
      }
    } else {
      var run := BackToBack(rps, iv, 11);
      var grants := Exec(Init(), run).grants;
      forall i | 0 <= i < 11 ensures 0 <= grants[i].at < SECOND {
        MulMonotone(i, 10, Max(0, iv));
      }
      FirstInWindow(grants, SECOND, 11);
      assert |InWindow(grants, 0, SECOND)| > 10;
    }
  }

  /** New accepts rates so small that their spacing does not fit a duration. An
      accepted rate is safe on all hardware exactly when it does. */
  lemma RateSafeExactly(rps: real)
    requires 0.0 < rps <= MAX_RPS
    ensures (forall iv | Permitted(rps, iv) :: KeepsTen(rps, iv)) <==> Representable(rps)
  {
    if Representable(rps) {
      ClientInterval(rps);
      KeepsTenExactly(rps, IntervalOf(rps));
    } else {
      KeepsTenExactly(rps, -DURATION_LIMIT);
      assert Permitted(rps, -DURATION_LIMIT);
    }
  }

  /** Such rates exist: one request in more than 292 years. */
  lemma TinyRateUnpaced(rps: real)
    requires 0.0 < rps <= 0.0000000001
    ensures !Representable(rps)
  {
    var x := SECOND as real / rps;
    assert x * rps == SECOND as real;
    assert x * rps <= x * 0.0000000001;
  }

  // ------------------------------------------------------- a late limit

  lemma {:induction false} FillReads(n: nat) returns (run: seq<Action>)
    requires n <= DEFAULT_READS
    ensures var s := Exec(Init(), run);
            && s.readGate == NewGate(DEFAULT_READS).(active := n)
            && forall id | id in s.callers :: id < n
  {
    if n == 0 {
      run := [];
    } else {
      var front := FillReads(n - 1);
      var b, g := Begin(n - 1, Direct, Read, 1), TryGate(n - 1);
      run := front + [b] + [g];
      ExecSnoc(Init(), front, b);
      ExecSnoc(Init(), front + [b], g);
    }
  }

  /** Without configuration first, the first explicit limit may be looser than the
      default; it wakes nobody, so a caller can wait although the gate is no longer full. */
  lemma LateLimitWakesNobody() returns (run: seq<Action>, id: CallerId)
    ensures Waiting(Exec(Init(), run), id)
    ensures !Exec(Init(), run).GateOf(Exec(Init(), run).callers[id].cls).Full()
  {
    id := DEFAULT_READS;
    var front := FillReads(DEFAULT_READS);
    var b, g, t := Begin(id, Direct, Read, 1), TryGate(id), SetReads(Direct, 2 * DEFAULT_READS);
    run := front + [b] + [g] + [t];
    ExecSnoc(Init(), front, b);
    ExecSnoc(Init(), front + [b], g);
    ExecSnoc(Init(), front + [b] + [g], t);
  }

  // ------------------------------------------- when settings can be loosened

  lemma {:induction false} UnsetIsDefault(run: seq<Action>)
    ensures var s := Exec(Init(), run);
            && (!s.bucket.rpsSet ==> s.bucket.interval == IntervalOf(DEFAULT_RPS))
            && (!s.readGate.isSet ==> s.readGate.limit == DEFAULT_READS)
  {
    if run != [] {
      UnsetIsDefault(run[..|run| - 1]);
    }
  }

  /** In a reachable state the rate can never be loosened any more exactly when
      some explicit rate has been set: a first one may be looser than the default. */
  lemma RateStickyExactly(run: seq<Action>)
    ensures var s := Exec(Init(), run);
            (forall more :: Exec(s, more).bucket.interval >= s.bucket.interval) <==> s.bucket.rpsSet
  {
    var s := Exec(Init(), run);
    if s.bucket.rpsSet {
      forall more ensures Exec(s, more).bucket.interval >= s.bucket.interval {
        RateSticks(s, more);
      }
    } else {
      UnsetIsDefault(run);
      assert SECOND as real / DEFAULT_RPS == 125_000_000.0 && SECOND as real / MAX_RPS == 100_000_000.0;
      var looser := SetRate(Direct, MAX_RPS, IntervalOf(MAX_RPS));
      ExecSnoc(s, [], looser);
      assert Exec(s, [] + [looser]).bucket.interval < s.bucket.interval;
    }
  }

  /** And likewise the read limit. */
  lemma LimitStickyExactly(run: seq<Action>)
    ensures var s := Exec(Init(), run);
            (forall more :: Exec(s, more).readGate.limit <= s.readGate.limit) <==> s.readGate.isSet
  {
    var s := Exec(Init(), run);
    if s.readGate.isSet {
      forall more ensures Exec(s, more).readGate.limit <= s.readGate.limit {
        TighteningSticks(s, more);
      }
    } else {
      UnsetIsDefault(run);
      var looser := SetReads(Direct, DEFAULT_READS + 1);
      ExecSnoc(s, [], looser);
      assert Exec(s, [] + [looser]).readGate.limit > s.readGate.limit;
    }
  }
}
