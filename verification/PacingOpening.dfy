/** What can still happen once the circuit is open, exactly: the calls admitted
    before may all still send and be rejected, and nothing else. */
module PacingOpening {
  import opened Prelude
  import opened Pacing
  import opened PacingSafety
  import opened PacingRuns
  import opened PacingProgress
  import opened PacingLimits

  // ------------------------------------------------------ what is within reach

  /** The sends a call will have made at most. */
  function Cap(c: Caller): nat {
    if Flying(c) then c.budget else c.sends
  }

  /** The sends made so far and those that calls in flight may still make. */
  function Reach(s: State): set<(CallerId, nat)> {
    set id, k | id in s.callers && 0 <= k < Cap(s.callers[id]) :: (id, k)
  }

  lemma SentWithinReach(s: State)
    requires BreakerSound(s)
    ensures Sent(s) <= Reach(s)
  {
    forall p | p in Sent(s) ensures p in Reach(s) {
      assert CallerSound(s.callers[p.0]);
    }
  }

  lemma CapStep(s: State, a: Action, id: CallerId)
    requires s.failures >= BREAKER_THRESHOLD && id in Step(s, a).callers
    requires id in s.callers ==> CallerSound(s.callers[id])
    ensures Cap(Step(s, a).callers[id]) <= if id in s.callers then Cap(s.callers[id]) else 0
  {
  }

  lemma ReachStep(s: State, a: Action)
    requires s.failures >= BREAKER_THRESHOLD && BreakerSound(s)
    ensures Reach(Step(s, a)) <= Reach(s)
  {
    forall p | p in Reach(Step(s, a)) ensures p in Reach(s) {
      CapStep(s, a, p.0);
    }
  }

  lemma {:induction false} ReachRun(s: State, run: seq<Action>)
    requires s.failures >= BREAKER_THRESHOLD && BreakerSound(s)
    ensures Sent(Exec(s, run)) <= Reach(Exec(s, run)) <= Reach(s)
  {
    BreakerRun(s, run);
    SentWithinReach(Exec(s, run));
    if run != [] {
      var front := run[..|run| - 1];
      ReachRun(s, front);
      BreakerRun(s, front);
      ReachStep(Exec(s, front), run[|run| - 1]);
    }
  }

  // ------------------------------------------------- everything in flight ends

  lemma SameCaps(s: State, s': State)
    requires s'.callers.Keys == s.callers.Keys
    requires forall id | id in s.callers :: Cap(s'.callers[id]) == Cap(s.callers[id])
    ensures Reach(s') == Reach(s)
  {
    assert forall id :: id in s.callers <==> id in s'.callers;
  }

  /** A holder in flight ends: it leaves the flight, and everything else stays in reach. */
  lemma HolderEnds(s: State, id: CallerId, reply: Ruling) returns (more: seq<Action>)
    requires Sound(s) && id in InFlight(s) && Holds(s.callers[id].pc)
    ensures Undisturbed(s, more) && Sound(Exec(s, more))
    ensures var s' := Exec(s, more);
            && InFlight(s') == InFlight(s) - {id}
            && s'.failures == s.failures + (if reply == Rejected then 1 else 0)
            && (reply == Retryable ==> Reach(s') == Reach(s))
  {
    assert CallerSound(s.callers[id]);
    more := FinishHolder(s, id, reply);
    var s' := Exec(s, more);
    SoundExec(s, more);
    MoveInFlight(s, s', id);
    if reply == Retryable {
      assert s'.callers.Keys == s.callers.Keys;
      SameCaps(s, s');
    }
  }

  lemma NobodyLanded(s: State, s': State, id: CallerId, ids: set<CallerId>)
    requires id in InFlight(s) && AtGate(s, id) && OnlyEnded(s, s', ids, {id})
    requires s'.callers[id] == s.callers[id].(pc := InBucket)
    requires forall h | h in ids && h in s.callers :: !Flying(s.callers[h])
    ensures InFlight(s') == InFlight(s) && Reach(s') == Reach(s)
  {
    forall h | h in s.callers ensures Flying(s'.callers[h]) == Flying(s.callers[h]) && Cap(s'.callers[h]) == Cap(s.callers[h]) {
      if h != id && h in ids {
        assert Ended(s.callers[h], s'.callers[h], Final);
      }
    }
    assert forall h :: h in s.callers <==> h in s'.callers;
    SameCaps(s, s');
  }

  /** The same for a caller at its gate, where nobody in flight holds a slot. */
  lemma WaiterEnds(s: State, id: CallerId, reply: Ruling) returns (more: seq<Action>)
    requires Sound(s) && id in InFlight(s) && AtGate(s, id)
    requires forall h | h in InFlight(s) :: !Holds(s.callers[h].pc)
    ensures Undisturbed(s, more) && Sound(Exec(s, more))
    ensures var s' := Exec(s, more);
            && InFlight(s') == InFlight(s) - {id}
            && s'.failures == s.failures + (if reply == Rejected then 1 else 0)
            && (reply == Retryable ==> Reach(s') == Reach(s))
  {
    var enter := EnterGate(s, id);
    var s1 := Exec(s, enter);
    NobodyLanded(s, s1, id, Holders(s, s.callers[id].cls));
    var finish := HolderEnds(s1, id, reply);
    more := enter + finish;
    CalmConcat(s, enter, finish);
  }

  /** From every sound state all calls in flight can end, undisturbed and all answered
      alike: each is rejected once, or each spends its whole budget. */
  lemma {:induction false} FinishAll(s: State, reply: Ruling) returns (more: seq<Action>)
    requires Sound(s)
    ensures Undisturbed(s, more)
    ensures var s' := Exec(s, more);
            && Sound(s') && InFlight(s') == {}
            && s'.failures == s.failures + (if reply == Rejected then |InFlight(s)| else 0)
            && (reply == Retryable ==> Reach(s') == Reach(s))
    decreases |InFlight(s)|
  {
    if InFlight(s) == {} {
      more := [];
    } else {
      var first, id;
      if h :| h in InFlight(s) && Holds(s.callers[h].pc) {
        id := h;
        first := HolderEnds(s, id, reply);
      } else {
        id :| id in InFlight(s);
        first := WaiterEnds(s, id, reply);
      }
      var rest := FinishAll(Exec(s, first), reply);
      more := first + rest;
      CalmConcat(s, first, rest);
    }
  }

  // ------------------------------------------------------ after the opening

  /** The most rejections an open circuit can still see are those of the calls in
      flight, and an undisturbed continuation reaches them. */
  lemma RejectionsToCome(before: seq<Action>) returns (after: seq<Action>)
    requires Exec(Init(), before).failures >= 2
    ensures var s := Exec(Init(), before);
            && Undisturbed(s, after)
            && Exec(Init(), before + after).failures == s.failures + |InFlight(s)|
            && forall more :: s.failures <= Exec(Init(), before + more).failures <= s.failures + |InFlight(s)|
  {
    var s := Exec(Init(), before);
    SoundReached(before);
    after := FinishAll(s, Rejected);
    ExecConcat(Init(), before, after);
    forall more ensures s.failures <= Exec(Init(), before + more).failures <= s.failures + |InFlight(s)| {
      BreakerRun(s, more);
      ExecConcat(Init(), before, more);
    }
  }

  /** An open circuit has seen its last rejection exactly when no call is in flight. */
  lemma LastRejectionExactly(before: seq<Action>)
    requires Exec(Init(), before).failures >= 2
    ensures (forall more :: Exec(Init(), before + more).failures == Exec(Init(), before).failures)
            <==> InFlight(Exec(Init(), before)) == {}
  {
    var after := RejectionsToCome(before);
  }

  /** The most sends an open circuit can still see are those within the budgets of
      the calls in flight, and an undisturbed continuation makes all of them. */
  lemma SendsToCome(before: seq<Action>) returns (after: seq<Action>)
    requires Exec(Init(), before).failures >= 2
    ensures var s := Exec(Init(), before);
            && Undisturbed(s, after)
            && Sent(Exec(Init(), before + after)) == Reach(s)
            && forall more :: Sent(Exec(Init(), before + more)) <= Reach(s)
  {
    var s := Exec(Init(), before);
    SoundReached(before);
    after := FinishAll(s, Retryable);
    ExecConcat(Init(), before, after);
    NothingOwed(Exec(s, after));
    forall more ensures Sent(Exec(Init(), before + more)) <= Reach(s) {
      ReachRun(s, more);
      ExecConcat(Init(), before, more);
    }
  }

  /** No call in flight has a send left in its budget. */
  ghost predicate AllSpent(s: State) {
    forall id | id in InFlight(s) :: s.callers[id].sends == s.callers[id].budget
  }

  lemma NothingOwed(s: State)
    requires BreakerSound(s)
    ensures Sent(s) == Reach(s) <==> AllSpent(s)
  {
    SentWithinReach(s);
    forall id | id in InFlight(s) && Sent(s) == Reach(s) ensures s.callers[id].sends == s.callers[id].budget {
      var c := s.callers[id];
      assert CallerSound(c);
      assert c.sends < c.budget ==> (id, c.sends) in Reach(s);
    }
    if AllSpent(s) {
      forall p | p in Reach(s) ensures p in Sent(s) {
        assert p.0 in InFlight(s) || Cap(s.callers[p.0]) == s.callers[p.0].sends;
      }
    }
  }

  lemma {:induction false} SentGrows(s: State, run: seq<Action>)
    ensures Sent(s) <= Sent(Exec(s, run))
  {
    if run != [] {
      var s1, a := Exec(s, run[..|run| - 1]), run[|run| - 1];
      SentGrows(s, run[..|run| - 1]);
      if a.Send? && Enabled(s1, a) {
        OneSend(s1, Step(s1, a), a.id);
      } else {
        OtherSends(s1, a);
        SameSends(s1, Step(s1, a));
      }
    }
  }

  /** An open circuit has seen its last send exactly when every call in flight has
      spent its budget: it is on the wire for the last time. */
  lemma LastSendExactly(before: seq<Action>)
    requires Exec(Init(), before).failures >= 2
    ensures (forall more :: Sent(Exec(Init(), before + more)) == Sent(Exec(Init(), before)))
            <==> AllSpent(Exec(Init(), before))
  {
    var s := Exec(Init(), before);
    BreakerReached(before);
    NothingOwed(s);
    var after := SendsToCome(before);
    if AllSpent(s) {
      forall more ensures Sent(Exec(Init(), before + more)) == Sent(s) {
        SentGrows(s, more);
        ExecConcat(Init(), before, more);
        assert Sent(Exec(Init(), before + more)) <= Reach(s);
      }
    } else {
      assert Sent(Exec(Init(), before + after)) != Sent(s);
    }
  }

  // ------------------------------------------ runs that reach the bound

  /** n client calls granted and about to send, the circuit still closed. */
  ghost predicate Standing(s: State, n: nat, limit: int) {
    && s.failures == 0 && s.attached == {0} && s.readGate == NewGate(DEFAULT_READS).(active := n, limit := limit, isSet := true)
    && s.callers == Ready(n)
  }

  function Ready(n: nat): map<CallerId, Caller> {
    map id | id in Below(n) :: Caller(Via(0), Read, 1, 0, 0, Granted)
  }

  lemma OneMoreReady(n: nat)
    ensures Ready(n)[n := Caller(Via(0), Read, 1, 0, 0, Granted)] == Ready(n + 1)
  {
  }

  lemma AdmitOne(s: State, n: nat, limit: int) returns (more: seq<Action>)
    requires Standing(s, n, limit) && n < limit
    ensures Standing(Exec(s, more), n + 1, limit)
    ensures forall a | a in more :: !a.SetRate?
  {
    var b, g, w, t := Begin(n, Via(0), Read, 1), TryGate(n), Tick(Max(0, s.bucket.next - s.clock)), TryBucket(n);
    more := [b] + [g] + [w] + [t];
    SlotTaken(s, n, limit);
    TurnTaken(Step(Step(s, b), g), n);
    OneMoreReady(n);
    ExecSnoc(s, [], b);
    ExecSnoc(s, [b], g);
    ExecSnoc(s, [b] + [g], w);
    ExecSnoc(s, [b] + [g] + [w], t);
  }

  lemma SlotTaken(s: State, n: nat, limit: int)
    requires Standing(s, n, limit) && n < limit
    ensures Step(Step(s, Begin(n, Via(0), Read, 1)), TryGate(n))
            == s.(callers := s.callers[n := Caller(Via(0), Read, 1, 0, 0, InBucket)], readGate := s.readGate.Enter())
  {
  }

  lemma TurnTaken(s: State, id: CallerId)
    requires At(s, id, InBucket)
    ensures var s' := Step(Step(s, Tick(Max(0, s.bucket.next - s.clock))), TryBucket(id));
            && s'.callers == s.callers[id := s.callers[id].(pc := Granted)]
            && s'.failures == s.failures && s'.attached == s.attached && s'.readGate == s.readGate
  {
  }

  lemma {:induction false} AdmitMany(n: nat, limit: int) returns (run: seq<Action>)
    requires n <= limit && limit >= 1
    ensures Standing(Exec(Init(), run), n, limit) && ConfiguredByNew(run)
  {
    if n == 0 {
      var a1, a2 := SetRate(Via(0), DEFAULT_RPS, IntervalOf(DEFAULT_RPS)), SetReads(Via(0), limit);
      assert SECOND as real / DEFAULT_RPS == 125_000_000.0;
      run := [a1] + [a2];
      ExecSnoc(Init(), [], a1);
      ExecSnoc(Init(), [a1], a2);
    } else {
      var front := AdmitMany(n - 1, limit);
      var more := AdmitOne(Exec(Init(), front), n - 1, limit);
      run := front + more;
      ExecConcat(Init(), front, more);
    }
  }

  lemma RejectOne(s: State, id: CallerId)
    requires id in s.callers && s.callers[id] == Caller(Via(0), Read, 1, 0, 0, Granted)
    ensures Step(Step(s, Send(id)), Answer(id, Rejected))
            == s.(failures := s.failures + 1, callers := s.callers[id := Caller(Via(0), Read, 1, 1, 1, Closing)])
  {
  }

  /** Callers i to n send, and each is rejected. */
  lemma {:induction false} RejectFrom(s: State, i: nat, n: nat) returns (more: seq<Action>)
    requires i <= n && forall id | i <= id < n :: id in s.callers && s.callers[id] == Caller(Via(0), Read, 1, 0, 0, Granted)
    ensures forall a | a in more :: !a.SetRate?
    ensures var s' := Exec(s, more);
            && s'.failures == s.failures + (n - i)
            && (forall id | id in s.callers :: id in s'.callers)
            && s'.callers.Keys == s.callers.Keys
            && (forall id | id in s.callers && !(i <= id < n) :: s'.callers[id] == s.callers[id])
            && forall id | i <= id < n :: s'.callers[id] == Caller(Via(0), Read, 1, 1, 1, Closing)
    decreases n - i
  {
    if i == n {
      more := [];
    } else {
      RejectOne(s, i);
      ExecSnoc(s, [], Send(i));
      ExecSnoc(s, [Send(i)], Answer(i, Rejected));
      var s1 := Exec(s, [Send(i)] + [Answer(i, Rejected)]);
      var rest := RejectFrom(s1, i + 1, n);
      more := [Send(i)] + [Answer(i, Rejected)] + rest;
      ExecConcat(s, [Send(i)] + [Answer(i, Rejected)], rest);
    }
  }

  /** The bound on rejections is attained for every number of calls in flight:
      admitted before the opening and not yet on the wire, all k of them send
      after it and are rejected. */
  lemma RejectionsAttained(k: nat) returns (before: seq<Action>, after: seq<Action>)
    ensures ConfiguredByNew(before + after)
    ensures var s, s' := Exec(Init(), before), Exec(Init(), before + after);
            && s.failures == 2 && |InFlight(s)| == k
            && s'.failures == 2 + k
            && |Sent(s')| == |Sent(s)| + k
  {
    var n := k + 2;
    var stand := AdmitMany(n, n);
    var open := RejectFrom(Exec(Init(), stand), 0, 2);
    before := stand + open;
    ExecConcat(Init(), stand, open);
    var s := Exec(Init(), before);
    after := RejectFrom(s, 2, n);
    ExecConcat(Init(), before, after);
    var s' := Exec(Init(), before + after);
    RejectionsBounded(before, after);
    RangeSize(InFlight(s), 2, k);
    SentOnce(s, 2);
    SentOnce(s', n);
  }

  lemma SentOnce(s: State, m: nat)
    requires forall id | id in s.callers :: s.callers[id].sends == if id < m then 1 else 0
    requires forall id: CallerId :: id < m ==> id in s.callers
    ensures |Sent(s)| == m
  {
    RowSize(Below(m), 0);
    forall p | p in Row(Below(m), 0) ensures p in Sent(s) {
      assert p.0 in s.callers;
    }
    assert Sent(s) == Row(Below(m), 0);
  }
}
