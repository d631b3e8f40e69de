/** What every run of the pacing protocol keeps: spacing of grants, conservation
    of slots, and no stranded waiter. */
module PacingSafety {
  import opened Prelude
  import opened Pacing

  // ------------------------------------------------------- slot conservation

  /** The counter of each gate is exactly the number of acquires not yet released. */
  ghost predicate SlotsCounted(s: State) {
    && s.readGate.active == |Holders(s, Read)|
    && s.writeGate.active == |Holders(s, Write)|
  }

  /** The write gate is never configured and the read limit is always positive. */
  predicate LimitsSound(s: State) {
    && s.writeGate.limit == 1
    && !s.writeGate.isSet
    && s.readGate.limit >= 1
    && s.writeGate.active <= 1
  }

  lemma MoveHolder(s: State, s': State, id: CallerId, cls: Class)
    requires id in s'.callers && s'.callers == s.callers[id := s'.callers[id]]
    ensures Holders(s', cls) ==
            if s'.callers[id].cls == cls && Holds(s'.callers[id].pc)
            then Holders(s, cls) + {id} else Holders(s, cls) - {id}
  {
  }

  /** The caller an action concerns, if any. */
  function Subject(a: Action): Option<CallerId> {
    match a
    case Tick(_) => None
    case SetRate(_, _, _) => None
    case SkipRate(_) => None
    case SetReads(_, _) => None
    case Begin(id, _, _, _) => Some(id)
    case TryGate(id) => Some(id)
    case CancelWait(id) => Some(id)
    case TryBucket(id) => Some(id)
    case Wake(id) => Some(id)
    case CancelSleep(id) => Some(id)
    case Send(id) => Some(id)
    case Answer(id, _) => Some(id)
    case GiveUp(id) => Some(id)
    case Release(id) => Some(id)
  }

  /** An action leaves every other caller where it is, and never changes a caller's identity. */
  lemma StepFrame(s: State, a: Action)
    ensures Subject(a).None? ==> Step(s, a).callers == s.callers
    ensures Subject(a).Some? && Step(s, a).callers != s.callers ==>
              && Subject(a).value in Step(s, a).callers
              && Step(s, a).callers == s.callers[Subject(a).value := Step(s, a).callers[Subject(a).value]]
    ensures forall id | id in s.callers ::
              && id in Step(s, a).callers
              && Step(s, a).callers[id].cls == s.callers[id].cls
              && Step(s, a).callers[id].origin == s.callers[id].origin
              && Step(s, a).callers[id].budget == s.callers[id].budget
  {
  }

  /** Is `id` a holder of class `cls`? */
  predicate IsHolder(s: State, id: CallerId, cls: Class) {
    id in s.callers && s.callers[id].cls == cls && Holds(s.callers[id].pc)
  }

  /** An action moves a gate's counter exactly as it moves its subject in or out of the holders. */
  lemma CounterFollowsSubject(s: State, a: Action, cls: Class)
    ensures Subject(a).None? ==> Step(s, a).GateOf(cls).active == s.GateOf(cls).active
    ensures Subject(a).Some? ==>
              var id := Subject(a).value;
              Step(s, a).GateOf(cls).active - s.GateOf(cls).active
              == (if IsHolder(Step(s, a), id, cls) then 1 else 0) - (if IsHolder(s, id, cls) then 1 else 0)
  {
  }

  lemma SlotsStep(s: State, a: Action, cls: Class)
    requires s.GateOf(cls).active == |Holders(s, cls)|
    ensures Step(s, a).GateOf(cls).active == |Holders(Step(s, a), cls)|
  {
    var s' := Step(s, a);
    StepFrame(s, a);
    CounterFollowsSubject(s, a, cls);
    if s'.callers == s.callers {
      assert Holders(s', cls) == Holders(s, cls);
    } else {
      var id := Subject(a).value;
      MoveHolder(s, s', id, cls);
      assert IsHolder(s, id, cls) <==> id in Holders(s, cls);
    }
  }

  lemma LimitsStep(s: State, a: Action)
    requires LimitsSound(s)
    requires SlotsCounted(s)
    ensures LimitsSound(Step(s, a))
  {
  }

  /** Slot conservation over every run: cancellation at the gate, cancellation in
      the bucket, a second release and every way out of a call included. At most
      one write is ever between acquire and release. */
  lemma {:induction false} SlotConservation(run: seq<Action>)
    ensures SlotsCounted(Exec(Init(), run))
    ensures LimitsSound(Exec(Init(), run))
    ensures |Holders(Exec(Init(), run), Write)| <= 1
  {
    if run == [] {
      assert Holders(Init(), Read) == {} == Holders(Init(), Write);
    } else {
      var front := run[..|run| - 1];
      SlotConservation(front);
      SlotsStep(Exec(Init(), front), run[|run| - 1], Read);
      SlotsStep(Exec(Init(), front), run[|run| - 1], Write);
      LimitsStep(Exec(Init(), front), run[|run| - 1]);
    }
  }

  /** An action that takes a slot never lifts the count above the limit of that instant. */
  lemma AcquireWithinLimit(s: State, a: Action, cls: Class)
    ensures s.GateOf(cls).Full() ==> Step(s, a).GateOf(cls).active <= s.GateOf(cls).active
    ensures Step(s, a).GateOf(cls).active > s.GateOf(cls).active ==>
              Step(s, a).GateOf(cls).active <= Step(s, a).GateOf(cls).limit
  {
  }

  /** Once a read limit has been set, no run ever raises it, and a count that a
      tightening left above the limit never rises: it is bounded by where it stood. */
  lemma {:induction false} TighteningSticks(s: State, run: seq<Action>)
    requires s.readGate.isSet
    ensures Exec(s, run).readGate.isSet
    ensures Exec(s, run).readGate.limit <= s.readGate.limit
    ensures Exec(s, run).readGate.active <= Max(s.readGate.active, s.readGate.limit)
  {
    if run != [] {
      TighteningSticks(s, run[..|run| - 1]);
      AcquireWithinLimit(Exec(s, run[..|run| - 1]), run[|run| - 1], Read);
    }
  }

  /** Once a rate has been set, no run ever loosens it again. */
  lemma {:induction false} RateSticks(s: State, run: seq<Action>)
    requires s.bucket.rpsSet
    ensures Exec(s, run).bucket.rpsSet
    ensures Exec(s, run).bucket.interval >= s.bucket.interval
  {
    if run != [] {
      RateSticks(s, run[..|run| - 1]);
    }
  }

  // --------------------------------------------- which settings are in force

  /** Action k of the run sets a rate, or a read limit. */
  ghost predicate RateAt(run: seq<Action>, k: nat)
    requires k < |run|
  {
    run[k].SetRate? && Enabled(Before(run, k), run[k])
  }

  ghost predicate LimitAt(run: seq<Action>, k: nat)
    requires k < |run|
  {
    run[k].SetReads? && Enabled(Before(run, k), run[k])
  }

  /** An explicit spacing is taken when it is the first or the longest so far, and
      a read limit when it is the first or the smallest; nothing else moves them. */
  lemma SettingsStep(s: State, a: Action)
    ensures a.SetRate? && Enabled(s, a) ==>
              && Step(s, a).bucket.rpsSet
              && Step(s, a).bucket.interval == if s.bucket.rpsSet then Max(s.bucket.interval, a.iv) else a.iv
    ensures !(a.SetRate? && Enabled(s, a)) ==>
              Step(s, a).bucket.rpsSet == s.bucket.rpsSet && Step(s, a).bucket.interval == s.bucket.interval
    ensures a.SetReads? && Enabled(s, a) ==>
              && Step(s, a).readGate.isSet
              && Step(s, a).readGate.limit == if s.readGate.isSet then Min(s.readGate.limit, a.n) else a.n
    ensures !(a.SetReads? && Enabled(s, a)) ==>
              Step(s, a).readGate.isSet == s.readGate.isSet && Step(s, a).readGate.limit == s.readGate.limit
  {
  }

  /** The interval in force before action k is the longest of the explicit spacings
      so far, and an eighth of a second while there is none. */
  ghost predicate LongestInterval(run: seq<Action>, k: nat)
    requires k <= |run|
  {
    var b := Before(run, k).bucket;
    && (forall j | 0 <= j < k && RateAt(run, j) :: b.rpsSet && run[j].iv <= b.interval)
    && (if b.rpsSet then exists j :: 0 <= j < k && RateAt(run, j) && run[j].iv == b.interval
        else b.interval == 125_000_000)
  }

  lemma {:induction false} IntervalInForce(run: seq<Action>, k: nat)
    requires k <= |run|
    ensures LongestInterval(run, k)
  {
    if k == 0 {
      assert run[..0] == [];
      assert SECOND as real / DEFAULT_RPS == 125_000_000.0;
    } else {
      IntervalInForce(run, k - 1);
      BeforeNext(run, k - 1);
      SettingsStep(Before(run, k - 1), run[k - 1]);
      if RateAt(run, k - 1) && run[k - 1].iv != Before(run, k).bucket.interval {
        var j :| 0 <= j < k - 1 && RateAt(run, j) && run[j].iv == Before(run, k - 1).bucket.interval;
      }
    }
  }

  /** The read limit in force is the smallest of the explicit ones so far, and four while there is none. */
  ghost predicate SmallestLimit(run: seq<Action>, k: nat)
    requires k <= |run|
  {
    var g := Before(run, k).readGate;
    && (forall j | 0 <= j < k && LimitAt(run, j) :: g.isSet && g.limit <= run[j].n)
    && (if g.isSet then exists j :: 0 <= j < k && LimitAt(run, j) && run[j].n == g.limit else g.limit == 4)
  }

  lemma {:induction false} LimitInForce(run: seq<Action>, k: nat)
    requires k <= |run|
    ensures SmallestLimit(run, k)
  {
    if k == 0 {
      assert run[..0] == [];
    } else {
      LimitInForce(run, k - 1);
      BeforeNext(run, k - 1);
      SettingsStep(Before(run, k - 1), run[k - 1]);
      if LimitAt(run, k - 1) && run[k - 1].n != Before(run, k).readGate.limit {
        var j :| 0 <= j < k - 1 && LimitAt(run, j) && run[j].n == Before(run, k - 1).readGate.limit;
      }
    }
  }

  /** In every run the last and tightest word counts: the interval in force is the
      longest explicit spacing and the read limit the smallest explicit limit so far. */
  lemma SettingsInForce(run: seq<Action>)
    ensures LongestInterval(run, |run|) && SmallestLimit(run, |run|) && Before(run, |run|) == Exec(Init(), run)
  {
    IntervalInForce(run, |run|);
    LimitInForce(run, |run|);
    BeforeEnd(run);
  }

  lemma {:induction false} GrantsAfter(s: State, run: seq<Action>, m: int)
    requires s.bucket.rpsSet && s.bucket.interval >= m
    ensures |Exec(s, run).grants| >= |s.grants|
    ensures forall i | |s.grants| <= i < |Exec(s, run).grants| :: Exec(s, run).grants[i].interval >= m
  {
    if run != [] {
      var front := run[..|run| - 1];
      GrantsAfter(s, front, m);
      RateSticks(s, front);
      GrantsGrow(Exec(s, front), run[|run| - 1]);
    }
  }

  lemma GrantsGrow(s: State, a: Action)
    ensures Step(s, a).grants == s.grants || Step(s, a).grants == s.grants + [Grant(s.clock, s.bucket.interval)]
  {
  }

  /** Whoever asked for a rate gets it: every grant after an explicit spacing of iv
      keeps at least iv from the next, whatever was configured before or after. */
  lemma AskedRateHolds(before: seq<Action>, a: Action, after: seq<Action>)
    requires a.SetRate? && Enabled(Exec(Init(), before), a)
    ensures var s, s' := Exec(Init(), before), Exec(Init(), before + [a] + after);
            && |s'.grants| >= |s.grants|
            && forall i | |s.grants| <= i < |s'.grants| :: s'.grants[i].interval >= a.iv
  {
    var s := Exec(Init(), before);
    SettingsStep(s, a);
    ExecSnoc(Init(), before, a);
    ExecConcat(Init(), before + [a], after);
    GrantsAfter(Step(s, a), after, a.iv);
  }

  /** The interval of a rate is the greatest whole number of nanoseconds that fits. */
  lemma IntervalMeaning(rps: real)
    requires rps > 0.0
    ensures var iv := IntervalOf(rps) as real;
            iv * rps <= 1_000_000_000.0 < iv * rps + rps
  {
    var x := SECOND as real / rps;
    assert x * rps == 1_000_000_000.0;
    AtLeast(IntervalOf(rps) as real, x, rps, 1_000_000_000.0);
    JustBelow(IntervalOf(rps) as real, x, rps, 1_000_000_000.0);
  }

  lemma AtLeast(a: real, x: real, c: real, total: real)
    requires a <= x && c > 0.0 && x * c == total
    ensures a * c <= total
  {
  }

  lemma JustBelow(a: real, x: real, c: real, total: real)
    requires x < a + 1.0 && c > 0.0 && x * c == total
    ensures total < a * c + c
  {
    var d := a + 1.0 - x;
    Positive(d, c);
    assert d * c > 0.0;
    assert d * c == a * c + c - x * c;
    assert a * c + c - x * c > 0.0;
    assert a * c + c - total > 0.0;
  }

  lemma Positive(a: real, c: real)
    requires a > 0.0 && c > 0.0
    ensures a * c > 0.0
  {
  }

  // ---------------------------------------------------- no stranded waiter

  /** A caller blocked on a channel that is still open read a positive limit that
      the gate's counter still reaches. */
  predicate WaiterSound(s: State, id: CallerId)
    requires id in s.callers
  {
    var c := s.callers[id];
    var g := s.GateOf(c.cls);
    c.pc.Blocked? ==>
      && c.pc.gen <= g.gen
      && c.pc.seen >= 1
      && (c.pc.gen == g.gen ==> g.active >= c.pc.seen)
  }

  ghost predicate WaitersSound(s: State) {
    forall id | id in s.callers :: WaiterSound(s, id)
  }

  lemma WaiterStep(s: State, a: Action, id: CallerId)
    requires id in s.callers && WaiterSound(s, id) && LimitsSound(s)
    ensures id in Step(s, a).callers && WaiterSound(Step(s, a), id)
  {
  }

  lemma WaitersStep(s: State, a: Action)
    requires WaitersSound(s) && LimitsSound(s)
    ensures WaitersSound(Step(s, a))
  {
    forall id | id in Step(s, a).callers ensures WaiterSound(Step(s, a), id) {
      if id in s.callers {
        WaiterStep(s, a, id);
      }
    }
  }

  lemma {:induction false} WaitersAlways(run: seq<Action>)
    ensures WaitersSound(Exec(Init(), run))
  {
    if run != [] {
      var front := run[..|run| - 1];
      WaitersAlways(front);
      SlotConservation(front);
      WaitersStep(Exec(Init(), front), run[|run| - 1]);
    }
  }

  /** Is this caller in select on a channel nobody has closed yet? */
  predicate Waiting(s: State, id: CallerId) {
    && id in s.callers
    && s.callers[id].pc.Blocked?
    && s.callers[id].pc.gen == s.GateOf(s.callers[id].cls).gen
  }

  /** Nobody is stranded: in every reachable state a caller waiting on an open
      channel faces a counter of at least the positive limit it read, and some
      other caller still holds a slot of that gate, so a broadcast is due. */
  lemma NoWaiterStranded(run: seq<Action>, id: CallerId)
    requires Waiting(Exec(Init(), run), id)
    ensures var s := Exec(Init(), run);
            var c := s.callers[id];
            && s.GateOf(c.cls).active >= c.pc.seen >= 1
            && exists d :: d in Holders(s, c.cls) && d != id
  {
    var s := Exec(Init(), run);
    WaitersAlways(run);
    SlotConservation(run);
    var cls := s.callers[id].cls;
    if Holders(s, cls) == {} {
      assert false;
    }
    var d :| d in Holders(s, cls);
  }

  /** That broadcast reaches everybody: when any holder lets go of its slot, every
      caller blocked on the gate may lock it again. */
  lemma ReleaseWakesEveryone(run: seq<Action>, holder: CallerId, a: Action, waiter: CallerId)
    requires a == Release(holder) || a == CancelSleep(holder)
    requires waiter in Exec(Init(), run).callers && Exec(Init(), run).callers[waiter].pc.Blocked?
    requires Enabled(Exec(Init(), run), a)
    requires holder in Holders(Exec(Init(), run), Exec(Init(), run).callers[waiter].cls)
    ensures Enabled(Step(Exec(Init(), run), a), TryGate(waiter))
  {
    WaitersAlways(run);
  }

  /** Every caller waiting on an open channel faces a gate that is full under the limit now in force. */
  ghost predicate WaitersAtLimit(s: State) {
    forall id | Waiting(s, id) :: s.GateOf(s.callers[id].cls).Full()
  }

  /** The guard of tighten that lets a limit rise past the counter: it is the
      first explicit one, and above the counter. */
  predicate Raises(s: State, a: Action) {
    a.SetReads? && Enabled(s, a) && !s.readGate.isSet && a.n > s.readGate.active
  }

  /** Such a limit, taken while a reader waits. */
  ghost predicate Loosens(s: State, a: Action) {
    Raises(s, a) && exists id :: Waiting(s, id) && s.callers[id].cls == Read
  }

  predicate WaiterAtLimit(s: State, id: CallerId) {
    Waiting(s, id) ==> s.GateOf(s.callers[id].cls).Full()
  }

  lemma WaiterAtLimitStep(s: State, a: Action, id: CallerId)
    requires WaiterAtLimit(s, id) && LimitsSound(s) && (id in s.callers ==> WaiterSound(s, id))
    ensures WaiterAtLimit(Step(s, a), id) <==> !(Raises(s, a) && Waiting(s, id) && s.callers[id].cls == Read)
  {
  }

  lemma AtLimitStep(s: State, a: Action)
    requires WaitersAtLimit(s) && LimitsSound(s) && WaitersSound(s)
    ensures WaitersAtLimit(Step(s, a)) <==> !Loosens(s, a)
  {
    forall id: CallerId
      ensures WaiterAtLimit(Step(s, a), id) <==> !(Raises(s, a) && Waiting(s, id) && s.callers[id].cls == Read)
    {
      WaiterAtLimitStep(s, a, id);
    }
    if Loosens(s, a) {
      var id :| Waiting(s, id) && s.callers[id].cls == Read;
      assert !WaiterAtLimit(Step(s, a), id);
    } else {
      forall id | Waiting(Step(s, a), id) ensures Step(s, a).GateOf(Step(s, a).callers[id].cls).Full() {
        assert WaiterAtLimit(Step(s, a), id);
      }
    }
  }

  lemma AtLimitNext(run: seq<Action>, k: nat)
    requires k < |run| && WaitersAtLimit(Before(run, k))
    ensures WaitersAtLimit(Before(run, k + 1)) <==> !Loosens(Before(run, k), run[k])
  {
    BeforeNext(run, k);
    SlotConservation(run[..k]);
    WaitersAlways(run[..k]);
    AtLimitStep(Before(run, k), run[k]);
  }

  lemma {:induction false} AtLimitUntil(run: seq<Action>, k: nat)
    requires k <= |run| && forall j | 0 <= j < |run| :: !Loosens(Before(run, j), run[j])
    ensures WaitersAtLimit(Before(run, k))
  {
    if k > 0 {
      AtLimitUntil(run, k - 1);
      AtLimitNext(run, k - 1);
    }
  }

  /** Throughout a run waiters stay at the limit in force exactly when no action
      of the run is a first explicit read limit that loosens a gate with a waiter. */
  lemma WaitersAtLimitExactly(run: seq<Action>)
    ensures (forall k | 0 <= k <= |run| :: WaitersAtLimit(Before(run, k)))
            <==> (forall k | 0 <= k < |run| :: !Loosens(Before(run, k), run[k]))
  {
    if forall k | 0 <= k <= |run| :: WaitersAtLimit(Before(run, k)) {
      forall k | 0 <= k < |run| ensures !Loosens(Before(run, k), run[k]) {
        AtLimitNext(run, k);
      }
    } else if forall k | 0 <= k < |run| :: !Loosens(Before(run, k), run[k]) {
      forall k | 0 <= k <= |run| ensures WaitersAtLimit(Before(run, k)) {
        AtLimitUntil(run, k);
      }
    }
  }

  /** The first explicit read limit came before every call and acquire, whoever set it. */
  ghost predicate LimitFirst(run: seq<Action>) {
    forall k | 0 <= k < |run| && run[k].Begin? && Enabled(Before(run, k), run[k]) :: Before(run, k).readGate.isSet
  }

  lemma {:induction false} SetOnceCalled(run: seq<Action>, k: nat)
    requires LimitFirst(run) && k <= |run|
    ensures Before(run, k).callers != map[] ==> Before(run, k).readGate.isSet
  {
    if k > 0 {
      SetOnceCalled(run, k - 1);
      BeforeNext(run, k - 1);
      StepFrame(Before(run, k - 1), run[k - 1]);
    }
  }

  /** When the read limit is configured first, the counter always reaches the
      limit in force wherever a caller waits, direct callers included. */
  lemma NoWaiterBelowLimit(run: seq<Action>)
    requires LimitFirst(run)
    ensures WaitersAtLimit(Exec(Init(), run))
  {
    forall k | 0 <= k < |run| ensures !Loosens(Before(run, k), run[k]) {
      SetOnceCalled(run, k);
    }
    AtLimitUntil(run, |run|);
    BeforeEnd(run);
  }

  /** Every caller came through a client. */
  predicate ThroughClients(run: seq<Action>) {
    forall a | a in run :: a.Begin? ==> a.origin.Via?
  }

  lemma {:induction false} AttachedMeansSet(run: seq<Action>)
    ensures Exec(Init(), run).attached != {} ==> Exec(Init(), run).readGate.isSet
  {
    if run != [] {
      AttachedMeansSet(run[..|run| - 1]);
    }
  }

  /** Clients arrange that: a client's calls start only after its attachPace. */
  lemma ClientsConfigureFirst(run: seq<Action>)
    requires ThroughClients(run)
    ensures LimitFirst(run)
  {
    forall k | 0 <= k < |run| && run[k].Begin? && Enabled(Before(run, k), run[k])
      ensures Before(run, k).readGate.isSet
    {
      assert run[k] in run;
      AttachedMeansSet(run[..k]);
    }
  }

  // --------------------------------------------------------- grant spacing

  /** Each grant keeps its distance from the one before it. */
  predicate Spaced(grants: seq<Grant>) {
    forall i :: 0 <= i < |grants| - 1 ==> grants[i].at + grants[i].interval <= grants[i + 1].at
  }

  predicate SpacingSound(s: State) {
    && Spaced(s.grants)
    && (s.grants != [] ==>
          var last := s.grants[|s.grants| - 1];
          s.bucket.next == last.at + last.interval)
  }

  lemma SpacingStep(s: State, a: Action)
    requires SpacingSound(s)
    ensures SpacingSound(Step(s, a))
    ensures Step(s, a).grants != s.grants ==>
              Step(s, a).grants == s.grants + [Grant(s.clock, s.bucket.interval)]
  {
  }

  /** In every run, consecutive grants are at least the interval in force at the
      earlier one apart, whatever was configured or cancelled in between. */
  lemma {:induction false} GrantsSpaced(run: seq<Action>)
    ensures SpacingSound(Exec(Init(), run))
  {
    if run != [] {
      GrantsSpaced(run[..|run| - 1]);
      SpacingStep(Exec(Init(), run[..|run| - 1]), run[|run| - 1]);
    }
  }

  lemma {:induction false} SpacingAdds(grants: seq<Grant>, i: nat, j: nat, m: nat)
    requires Spaced(grants) && i <= j < |grants|
    requires forall g | g in grants :: g.interval >= m
    ensures grants[j].at >= grants[i].at + (j - i) * m
    decreases j - i
  {
    if i < j {
      SpacingAdds(grants, i, j - 1, m);
      assert grants[j - 1].at + grants[j - 1].interval <= grants[j].at;
      assert (j - i) * m == (j - 1 - i) * m + m;
    }
  }

  /** The grants in the half-open window of n intervals that starts at `from`. */
  function InWindow(grants: seq<Grant>, from: int, length: int): set<nat> {
    set i | 0 <= i < |grants| && from <= grants[i].at < from + length
  }

  lemma {:induction false} RangeSize(xs: set<nat>, lo: nat, n: nat)
    requires forall x | x in xs :: lo <= x < lo + n
    ensures |xs| <= n
  {
    if n == 0 {
      if x :| x in xs {
        assert false;
      }
    } else {
      RangeSize(xs - {lo + n - 1}, lo, n - 1);
    }
  }

  /** Two grants in one window of n intervals are fewer than n grants apart. */
  lemma WindowSpan(grants: seq<Grant>, from: int, n: nat, m: nat, i: nat, j: nat)
    requires Spaced(grants)
    requires forall g | g in grants :: g.interval >= m
    requires i <= j && i in InWindow(grants, from, n * m) && j in InWindow(grants, from, n * m)
    ensures j < i + n
  {
    SpacingAdds(grants, i, j, m);
    if j >= i + n {
      MulMonotone(n, j - i, m);
    }
  }

  /** Any half-open window of n smallest intervals holds at most n grants. */
  lemma WindowBound(grants: seq<Grant>, from: int, n: nat, m: nat)
    requires Spaced(grants)
    requires forall g | g in grants :: g.interval >= m
    ensures |InWindow(grants, from, n * m)| <= n
  {
    var w := InWindow(grants, from, n * m);
    if w != {} {
      var lo := FirstOf(w);
      forall i | i in w ensures lo <= i < lo + n {
        WindowSpan(grants, from, n, m, lo, i);
      }
      RangeSize(w, lo, n);
    }
  }

  lemma {:induction false} FirstOf(w: set<nat>) returns (lo: nat)
    requires w != {}
    ensures lo in w && forall x | x in w :: lo <= x
    decreases |w|
  {
    lo :| lo in w;
    if w - {lo} != {} {
      var rest := FirstOf(w - {lo});
      assert forall x | x in w :: x == lo || x in w - {lo};
      if rest < lo {
        lo := rest;
      }
    } else {
      assert w == {lo};
    }
  }

  /** Rates that New accepts space grants by at least a tenth of a second. */
  lemma ClientInterval(rps: real)
    requires 0.0 < rps <= MAX_RPS
    ensures IntervalOf(rps) >= SECOND / 10
  {
    var x := SECOND as real / rps;
    assert x * rps == SECOND as real;
    if x < 100_000_000.0 {
      assert x * rps < 100_000_000.0 * rps <= 1_000_000_000.0;
    }
  }

  /** Every rate in the run came from a validated Config and fits a duration. */
  predicate ConfiguredByNew(run: seq<Action>) {
    forall a | a in run :: a.SetRate? ==> a.src.Via? && (a.rps > 0.0 ==> Representable(a.rps))
  }

  ghost predicate IntervalsAtLeast(s: State, m: int) {
    s.bucket.interval >= m && forall g | g in s.grants :: g.interval >= m
  }

  lemma {:induction false} ClientIntervals(run: seq<Action>)
    requires ConfiguredByNew(run)
    ensures IntervalsAtLeast(Exec(Init(), run), SECOND / 10)
  {
    if run == [] {
      ClientInterval(DEFAULT_RPS);
    } else {
      var front, a := run[..|run| - 1], run[|run| - 1];
      ClientIntervals(front);
      GrantsSpaced(front);
      SpacingStep(Exec(Init(), front), a);
      if a.SetRate? && Enabled(Exec(Init(), front), a) {
        ClientInterval(a.rps);
      }
    }
  }

  /** The platform's allowance: when every rate comes from New, no half-open
      second of any run holds more than ten grants. */
  lemma TenPerSecond(run: seq<Action>, from: int)
    requires ConfiguredByNew(run)
    ensures |InWindow(Exec(Init(), run).grants, from, SECOND)| <= 10
  {
    GrantsSpaced(run);
    ClientIntervals(run);
    WindowBound(Exec(Init(), run).grants, from, 10, SECOND / 10);
  }
}
