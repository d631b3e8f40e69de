/** The auth breaker over whole runs. */
module PacingRuns {
  import opened Pacing
  import opened PacingSafety

  // ------------------------------------------------------------- the breaker

  /** What every caller's record keeps: sends within budget, at most one
      rejection, and a rejection ends the call. */
  predicate CallerSound(c: Caller) {
    && c.sends <= c.budget
    && c.rejections <= 1
    && (c.rejections == 1 ==> c.sends >= 1 && (c.pc.Closing? || c.pc.Done?))
    && (c.pc.Backoff? ==> c.sends < c.budget)
    && (c.pc.Granted? ==> c.sends < c.budget)
    && (c.pc.Refused? || c.pc.Admitted? || c.pc.Blocked? || c.pc.InBucket? || c.pc.Asleep? || c.pc.Granted?
        ==> c.sends == 0)
    && (c.pc.Sending? ==> c.origin.Via? && c.sends >= 1)
    && (c.origin.Direct? ==> c.sends == 0)
    && c.budget >= 1
  }

  /** The callers that have recorded a rejection. */
  function Rejecters(s: State): set<CallerId> {
    set id | id in s.callers && s.callers[id].rejections > 0
  }

  ghost predicate BreakerSound(s: State) {
    && (forall id | id in s.callers :: CallerSound(s.callers[id]))
    && s.failures == |Rejecters(s)|
  }

  lemma MoveRejecter(s: State, s': State, id: CallerId)
    requires id in s'.callers && s'.callers == s.callers[id := s'.callers[id]]
    ensures Rejecters(s') ==
            if s'.callers[id].rejections > 0 then Rejecters(s) + {id} else Rejecters(s) - {id}
  {
  }

  lemma MoveInFlight(s: State, s': State, id: CallerId)
    requires id in s'.callers && s'.callers == s.callers[id := s'.callers[id]]
    ensures InFlight(s') ==
            if s'.callers[id].origin.Via? && Live(s'.callers[id].pc) then InFlight(s) + {id} else InFlight(s) - {id}
  {
  }

  lemma CallersStep(s: State, a: Action)
    requires forall id | id in s.callers :: CallerSound(s.callers[id])
    ensures forall id | id in Step(s, a).callers :: CallerSound(Step(s, a).callers[id])
  {
  }

  /** What an action does to the counter, seen from its subject. */
  lemma FailuresFollowSubject(s: State, a: Action)
    requires forall id | id in s.callers :: CallerSound(s.callers[id])
    ensures Subject(a).None? ==> Step(s, a).failures == s.failures
    ensures Subject(a).Some? ==>
              var id := Subject(a).value;
              Step(s, a).failures - s.failures
              == (if id in Rejecters(Step(s, a)) then 1 else 0) - (if id in Rejecters(s) then 1 else 0)
    ensures Subject(a).Some? && Step(s, a).failures > s.failures ==>
              Subject(a).value in InFlight(s) && Subject(a).value !in InFlight(Step(s, a))
    ensures Step(s, a).failures >= s.failures
  {
  }

  /** Only an admission brings a call into flight. */
  lemma OnlyAdmissionEnters(s: State, a: Action)
    ensures Subject(a).Some? && Subject(a).value in InFlight(Step(s, a)) ==>
              Subject(a).value in InFlight(s) || (a.Begin? && s.failures < BREAKER_THRESHOLD)
  {
  }

  lemma CountedStep(s: State, a: Action)
    requires BreakerSound(s)
    ensures Step(s, a).failures == |Rejecters(Step(s, a))|
  {
    var s' := Step(s, a);
    StepFrame(s, a);
    FailuresFollowSubject(s, a);
    if s'.callers == s.callers {
      assert Rejecters(s') == Rejecters(s);
    } else {
      MoveRejecter(s, s', Subject(a).value);
    }
  }

  lemma PotentialStep(s: State, a: Action)
    requires BreakerSound(s)
    ensures Step(s, a).failures + |InFlight(Step(s, a))|
            <= s.failures + |InFlight(s)| + if a.Begin? && s.failures < BREAKER_THRESHOLD then 1 else 0
  {
    var s' := Step(s, a);
    StepFrame(s, a);
    FailuresFollowSubject(s, a);
    OnlyAdmissionEnters(s, a);
    if s'.callers == s.callers {
      assert InFlight(s') == InFlight(s);
    } else {
      MoveInFlight(s, s', Subject(a).value);
    }
  }

  /** An action keeps the books: failures never decrease, and failures plus calls
      in flight grow only by an admission, which the open circuit refuses. */
  lemma BreakerStep(s: State, a: Action)
    requires BreakerSound(s)
    ensures BreakerSound(Step(s, a))
    ensures Step(s, a).failures >= s.failures
    ensures Step(s, a).failures + |InFlight(Step(s, a))|
            <= s.failures + |InFlight(s)| + if a.Begin? && s.failures < BREAKER_THRESHOLD then 1 else 0
  {
    CallersStep(s, a);
    CountedStep(s, a);
    PotentialStep(s, a);
    FailuresFollowSubject(s, a);
  }

  lemma {:induction false} BreakerRun(s: State, run: seq<Action>)
    requires BreakerSound(s)
    ensures BreakerSound(Exec(s, run))
    ensures Exec(s, run).failures >= s.failures
    ensures s.failures >= BREAKER_THRESHOLD ==>
              Exec(s, run).failures + |InFlight(Exec(s, run))| <= s.failures + |InFlight(s)|
  {
    if run != [] {
      BreakerRun(s, run[..|run| - 1]);
      BreakerStep(Exec(s, run[..|run| - 1]), run[|run| - 1]);
    }
  }

  lemma BreakerReached(run: seq<Action>)
    ensures BreakerSound(Exec(Init(), run))
  {
    assert Rejecters(Init()) == {};
    BreakerRun(Init(), run);
  }

  /** In every run: each call sends within its budget and records at most one
      rejection, and the breaker's counter is the number of rejected calls. */
  lemma RejectionsCounted(run: seq<Action>)
    ensures var s := Exec(Init(), run);
            && s.failures == |Rejecters(s)|
            && forall id | id in s.callers ::
                 s.callers[id].rejections <= 1 && s.callers[id].sends <= s.callers[id].budget
  {
    BreakerReached(run);
    forall id | id in Exec(Init(), run).callers
      ensures Exec(Init(), run).callers[id].rejections <= 1
      ensures Exec(Init(), run).callers[id].sends <= Exec(Init(), run).callers[id].budget
    {
      assert CallerSound(Exec(Init(), run).callers[id]);
    }
  }

  /** After the opening, the only rejections still to come are those of calls
      admitted before it: at most two plus the calls then in flight, over any continuation. */
  lemma RejectionsBounded(before: seq<Action>, after: seq<Action>)
    requires Exec(Init(), before).failures == 2
    ensures 2 <= Exec(Init(), before + after).failures <= 2 + |InFlight(Exec(Init(), before))|
  {
    BreakerReached(before);
    BreakerRun(Exec(Init(), before), after);
    ExecConcat(Init(), before, after);
  }

  /** Client calls start only while no other one is in flight. */
  ghost predicate Sequential(run: seq<Action>) {
    forall k | 0 <= k < |run| && run[k].Begin? :: InFlight(Exec(Init(), run[..k])) == {}
  }

  lemma {:induction false} SequentialPotential(run: seq<Action>)
    requires Sequential(run)
    ensures BreakerSound(Exec(Init(), run))
    ensures Exec(Init(), run).failures + |InFlight(Exec(Init(), run))| <= BREAKER_THRESHOLD
  {
    if run == [] {
      assert Rejecters(Init()) == {} == InFlight(Init());
    } else {
      var front := run[..|run| - 1];
      forall k | 0 <= k < |front| && front[k].Begin?
        ensures InFlight(Exec(Init(), front[..k])) == {}
      {
        assert front[..k] == run[..k];
      }
      SequentialPotential(front);
      BreakerStep(Exec(Init(), front), run[|run| - 1]);
    }
  }

  /** Without concurrency the account never sees a third rejection. */
  lemma SequentialRejections(run: seq<Action>)
    requires Sequential(run)
    ensures Exec(Init(), run).failures <= 2
  {
    SequentialPotential(run);
  }

  predicate RefusedOrDirect(s: State, id: CallerId) {
    id in s.callers ==> s.callers[id].origin.Direct? || (s.callers[id].pc.Refused? && s.callers[id].sends == 0)
  }

  lemma RefusedStep(s: State, a: Action, id: CallerId)
    requires s.failures >= BREAKER_THRESHOLD && RefusedOrDirect(s, id)
    ensures RefusedOrDirect(Step(s, a), id)
  {
  }

  lemma {:induction false} StaysRefused(s: State, run: seq<Action>, id: CallerId)
    requires BreakerSound(s) && s.failures >= BREAKER_THRESHOLD && RefusedOrDirect(s, id)
    ensures RefusedOrDirect(Exec(s, run), id)
  {
    if run != [] {
      var front := run[..|run| - 1];
      StaysRefused(s, front, id);
      BreakerRun(s, front);
      RefusedStep(Exec(s, front), run[|run| - 1], id);
    }
  }

  /** An open circuit never closes: once two rejections are recorded, no Do and
      no Download that starts later ever sends, whatever else happens. */
  lemma OpenForever(before: seq<Action>, after: seq<Action>, id: CallerId)
    requires Exec(Init(), before).failures >= 2
    requires id !in Exec(Init(), before).callers
    ensures var s := Exec(Init(), before + after);
            && s.failures >= 2
            && (id in s.callers && s.callers[id].origin.Via? ==> s.callers[id].sends == 0)
  {
    BreakerReached(before);
    BreakerRun(Exec(Init(), before), after);
    StaysRefused(Exec(Init(), before), after, id);
    ExecConcat(Init(), before, after);
  }

  // ------------------------------------------------------------ cancellation

  lemma {:induction false} DoneForever(s: State, run: seq<Action>, id: CallerId)
    requires id in s.callers && s.callers[id].pc.Done?
    ensures id in Exec(s, run).callers && Exec(s, run).callers[id] == s.callers[id]
  {
    if run != [] {
      DoneForever(s, run[..|run| - 1], id);
      DoneStep(Exec(s, run[..|run| - 1]), run[|run| - 1], id);
    }
  }

  lemma DoneStep(s: State, a: Action, id: CallerId)
    requires id in s.callers && s.callers[id].pc.Done?
    ensures id in Step(s, a).callers && Step(s, a).callers[id] == s.callers[id]
  {
  }

  /** Cancellation is final: a caller whose context ends before it is granted holds
      no slot from then on, and never sends, whatever happens afterwards. */
  lemma CancelledForGood(before: seq<Action>, a: Action, after: seq<Action>, id: CallerId)
    requires a == CancelWait(id) || a == CancelSleep(id)
    requires Enabled(Exec(Init(), before), a)
    ensures var s := Exec(Init(), before + [a] + after);
            && id in s.callers && s.callers[id].sends == 0
            && id !in Holders(s, Read) + Holders(s, Write)
  {
    BreakerReached(before);
    assert CallerSound(Exec(Init(), before).callers[id]);
    ExecSnoc(Init(), before, a);
    ExecConcat(Init(), before + [a], after);
    DoneForever(Step(Exec(Init(), before), a), after, id);
  }
}
