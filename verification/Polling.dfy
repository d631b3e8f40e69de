/** The polling loop shared by the async API, execution records and report
    downloads: poll, give up after MaxWait, otherwise sleep a growing delay. */
module Polling {
  import opened Prelude
  import opened Pacing

  datatype Options = Options(initialDelay: int, maxDelay: int, maxWait: int)

  const DEFAULT_OPTIONS := Options(2 * SECOND, 10 * SECOND, 900 * SECOND)

  /** Unset (non-positive) fields take their defaults. */
  function WithDefaults(o: Option<Options>): (r: Options)
    ensures r.initialDelay > 0 && r.maxDelay > 0 && r.maxWait > 0
    ensures o.None? ==> r == Options(2_000_000_000, 10_000_000_000, 900_000_000_000)
    ensures o.Some? ==>
              && (o.value.initialDelay > 0 ==> r.initialDelay == o.value.initialDelay)
              && (o.value.maxDelay > 0 ==> r.maxDelay == o.value.maxDelay)
              && (o.value.maxWait > 0 ==> r.maxWait == o.value.maxWait)
    ensures o.Some? ==>
              && (o.value.initialDelay <= 0 ==> r.initialDelay == 2_000_000_000)
              && (o.value.maxDelay <= 0 ==> r.maxDelay == 10_000_000_000)
              && (o.value.maxWait <= 0 ==> r.maxWait == 900_000_000_000)
  {
    match o
    case None => DEFAULT_OPTIONS
    case Some(v) =>
      Options(if v.initialDelay > 0 then v.initialDelay else DEFAULT_OPTIONS.initialDelay,
              if v.maxDelay > 0 then v.maxDelay else DEFAULT_OPTIONS.maxDelay,
              if v.maxWait > 0 then v.maxWait else DEFAULT_OPTIONS.maxWait)
  }

  // ------------------------------------------------------------- the delays

  function NextDelay(o: Options, delay: int): int {
    if delay < o.maxDelay then delay + SECOND else delay
  }

  /** The pause after poll k. */
  function DelayAt(o: Options, k: nat): int {
    if k == 0 then o.initialDelay else NextDelay(o, DelayAt(o, k - 1))
  }

  /** How many one-second steps the delay takes before it stops growing. */
  function Steps(o: Options): nat {
    if o.initialDelay < o.maxDelay then (o.maxDelay - o.initialDelay + SECOND - 1) / SECOND else 0
  }

  /** Delays never shrink, have this closed form, and never exceed the larger of
      InitialDelay and MaxDelay plus just under one second. */
  lemma {:induction false} DelayClosedForm(o: Options, k: nat)
    ensures DelayAt(o, k) == o.initialDelay + SECOND * Min(k, Steps(o))
    ensures DelayAt(o, k) <= DelayAt(o, k + 1)
    ensures DelayAt(o, k) <= Max(o.initialDelay, o.maxDelay + SECOND - 1)
  {
    if k > 0 {
      DelayClosedForm(o, k - 1);
    }
  }

  /** No delay ever exceeds MaxDelay exactly when InitialDelay does not and the
      distance between them is a whole number of seconds. */
  lemma DelayWithinExactly(o: Options)
    ensures (forall k: nat :: DelayAt(o, k) <= o.maxDelay)
            <==> o.initialDelay <= o.maxDelay && (o.maxDelay - o.initialDelay) % SECOND == 0
  {
    var n := Steps(o);
    DelayClosedForm(o, 0);
    DelayClosedForm(o, n);
    forall k: nat ensures DelayAt(o, k) <= DelayAt(o, n) {
      DelayClosedForm(o, k);
    }
    assert DelayAt(o, 0) <= o.maxDelay <==> o.initialDelay <= o.maxDelay;
  }

  /** How far it can go: just under a second when InitialDelay is below MaxDelay
      (the bound of the closed form is attained), and by any amount when it is above. */
  lemma DelayOvershoots(d: nat, excess: nat)
    ensures var o := Options(d, d + 1, 1);
            DelayAt(o, 1) == o.maxDelay + SECOND - 1
    ensures DelayAt(Options(d + excess, d, 1), 0) == d + excess
  {
  }

  // --------------------------------------------------------------- the loop

  datatype Verdict = Working | Settled | Broken

  /** Everything the loop does not decide, by poll number: replies, how long a poll
      takes, how much longer than asked a sleep lasts, and where the context ends. */
  datatype World<!R> = World(reply: nat -> R, latency: nat -> nat, oversleep: nat -> nat, cut: nat -> bool)

  datatype End = Finished | Failed | TimedOut | Cancelled

  datatype Trace = Trace(polls: nat, waits: seq<int>, end: End)

  /** The loop from poll k on, started `elapsed` ago. */
  function Polls<R>(o: Options, w: World<R>, judge: R -> Verdict, k: nat, elapsed: nat, delay: int): (t: Trace)
    requires delay > 0
    ensures t.polls >= 1
    decreases Max(0, o.maxWait + 1 - elapsed)
  {
    var now := elapsed + w.latency(k);
    match judge(w.reply(k))
    case Settled => Trace(1, [], Finished)
    case Broken => Trace(1, [], Failed)
    case Working =>
      if now > o.maxWait then Trace(1, [], TimedOut)
      else if w.cut(k) then Trace(1, [delay], Cancelled)
      else
        var rest := Polls(o, w, judge, k + 1, now + delay + w.oversleep(k), NextDelay(o, delay));
        Trace(1 + rest.polls, [delay] + rest.waits, rest.end)
  }

  /** The whole loop, seen before poll k: what it has done so far, followed by the rest. */
  ghost predicate Ahead<R>(goal: Trace, o: Options, w: World<R>, judge: R -> Verdict,
                           k: nat, elapsed: nat, delay: int, waits: seq<int>)
  {
    && delay > 0
    && var rest := Polls(o, w, judge, k, elapsed, delay);
    goal == Trace(k + rest.polls, waits + rest.waits, rest.end)
  }

  lemma OnePoll<R>(goal: Trace, o: Options, w: World<R>, judge: R -> Verdict,
                   k: nat, elapsed: nat, delay: int, waits: seq<int>)
    requires Ahead(goal, o, w, judge, k, elapsed, delay, waits)
    ensures var v, now := judge(w.reply(k)), elapsed + w.latency(k);
            if v.Settled? then goal == Trace(k + 1, waits, Finished)
            else if v.Broken? then goal == Trace(k + 1, waits, Failed)
            else if now > o.maxWait then goal == Trace(k + 1, waits, TimedOut)
            else if w.cut(k) then goal == Trace(k + 1, waits + [delay], Cancelled)
            else Ahead(goal, o, w, judge, k + 1, now + delay + w.oversleep(k), NextDelay(o, delay), waits + [delay])
  {
    var now := elapsed + w.latency(k);
    assert waits + [] == waits;
    if judge(w.reply(k)).Working? && now <= o.maxWait && !w.cut(k) {
      Assoc(waits, [delay], Polls(o, w, judge, k + 1, now + delay + w.oversleep(k), NextDelay(o, delay)).waits);
    }
  }

  /** The loop as it runs. */
  method Poll<R>(o: Options, w: World<R>, judge: R -> Verdict) returns (t: Trace)
    requires o.initialDelay > 0
    ensures t == Polls(o, w, judge, 0, 0, o.initialDelay)
  {
    ghost var goal := Polls(o, w, judge, 0, 0, o.initialDelay);
    var delay, elapsed, k := o.initialDelay, 0, 0;
    var waits: seq<int> := [];
    assert [] + goal.waits == goal.waits;
    while true
      invariant elapsed >= 0 && k >= 0 && Ahead(goal, o, w, judge, k, elapsed, delay, waits)
      decreases Max(0, o.maxWait + 1 - elapsed)
    {
      OnePoll(goal, o, w, judge, k, elapsed, delay, waits);
      var verdict := judge(w.reply(k));
      elapsed := elapsed + w.latency(k);
      if verdict.Settled? {
        return Trace(k + 1, waits, Finished);
      }
      if verdict.Broken? {
        return Trace(k + 1, waits, Failed);
      }
      if elapsed > o.maxWait {
        return Trace(k + 1, waits, TimedOut);
      }
      waits := waits + [delay];
      if w.cut(k) {
        return Trace(k + 1, waits, Cancelled);
      }
      elapsed := elapsed + delay + w.oversleep(k);
      delay := NextDelay(o, delay);
      k := k + 1;
    }
  }

  // ------------------------------------------------------------- the bounds

  lemma QuotientBound(k: nat, step: nat, total: nat)
    requires step > 0 && k * step <= total
    ensures k <= total / step
  {
    var q := total / step;
    assert total < q * step + step;
    if k > q {
      MulMonotone(q + 1, k, step);
    }
  }

  lemma {:induction false} PollsFrom<R>(o: Options, w: World<R>, judge: R -> Verdict, k: nat, elapsed: nat, delay: int)
    requires o.initialDelay > 0 && o.maxWait >= 0
    requires delay >= o.initialDelay && elapsed >= k * o.initialDelay
    ensures Polls(o, w, judge, k, elapsed, delay).polls <= Max(1, o.maxWait / o.initialDelay + 2 - k)
    decreases Max(0, o.maxWait + 1 - elapsed)
  {
    var now := elapsed + w.latency(k);
    if judge(w.reply(k)).Working? && now <= o.maxWait && !w.cut(k) {
      QuotientBound(k, o.initialDelay, o.maxWait);
      var next := now + delay + w.oversleep(k);
      assert (k + 1) * o.initialDelay == k * o.initialDelay + o.initialDelay;
      PollsFrom(o, w, judge, k + 1, next, NextDelay(o, delay));
    }
  }

  /** Whatever the platform answers, as long as sleeps are no shorter than asked,
      the loop polls at most floor(MaxWait / InitialDelay) + 2 times. */
  lemma PollBound<R>(o: Options, w: World<R>, judge: R -> Verdict)
    requires o.initialDelay > 0 && o.maxWait >= 0
    ensures Polls(o, w, judge, 0, 0, o.initialDelay).polls <= o.maxWait / o.initialDelay + 2
  {
    PollsFrom(o, w, judge, 0, 0, o.initialDelay);
    assert o.maxWait / o.initialDelay >= 0;
  }

  lemma {:induction false} WaitsFrom<R>(o: Options, w: World<R>, judge: R -> Verdict, k: nat, elapsed: nat, i: nat)
    requires DelayAt(o, k) > 0
    requires i < |Polls(o, w, judge, k, elapsed, DelayAt(o, k)).waits|
    ensures Polls(o, w, judge, k, elapsed, DelayAt(o, k)).waits[i] == DelayAt(o, k + i)
    decreases i
  {
    if i > 0 {
      WaitsFrom(o, w, judge, k + 1, elapsed + w.latency(k) + DelayAt(o, k) + w.oversleep(k), i - 1);
    }
  }

  /** The pauses taken are exactly the delays of the closed form, in order. */
  lemma WaitsAreDelays<R>(o: Options, w: World<R>, judge: R -> Verdict, i: nat)
    requires o.initialDelay > 0
    requires i < |Polls(o, w, judge, 0, 0, o.initialDelay).waits|
    ensures Polls(o, w, judge, 0, 0, o.initialDelay).waits[i] == o.initialDelay + SECOND * Min(i, Steps(o))
  {
    WaitsFrom(o, w, judge, 0, 0, i);
    DelayClosedForm(o, i);
  }

  /** How long after the start the reply to poll k arrives. */
  function Elapsed<R>(o: Options, w: World<R>, k: nat): int {
    if k == 0 then w.latency(0)
    else Elapsed(o, w, k - 1) + DelayAt(o, k - 1) + w.oversleep(k - 1) + w.latency(k)
  }

  /** Does the loop go round again after poll k? */
  predicate GoesOn<R>(o: Options, w: World<R>, judge: R -> Verdict, k: nat) {
    judge(w.reply(k)).Working? && Elapsed(o, w, k) <= o.maxWait && !w.cut(k)
  }

  /** Is `end` what this poll calls for? */
  predicate EndsAt<R>(o: Options, w: World<R>, judge: R -> Verdict, last: nat, end: End) {
    match end
    case Finished => judge(w.reply(last)).Settled?
    case Failed => judge(w.reply(last)).Broken?
    case TimedOut => judge(w.reply(last)).Working? && Elapsed(o, w, last) > o.maxWait
    case Cancelled => judge(w.reply(last)).Working? && Elapsed(o, w, last) <= o.maxWait && w.cut(last)
  }

  lemma {:induction false} EndsFrom<R>(o: Options, w: World<R>, judge: R -> Verdict, k: nat, elapsed: nat)
    requires DelayAt(o, k) > 0 && elapsed + w.latency(k) == Elapsed(o, w, k)
    ensures var t := Polls(o, w, judge, k, elapsed, DelayAt(o, k));
            && (forall i | k <= i < k + t.polls - 1 :: GoesOn(o, w, judge, i))
            && EndsAt(o, w, judge, k + t.polls - 1, t.end)
    decreases Max(0, o.maxWait + 1 - elapsed)
  {
    if GoesOn(o, w, judge, k) {
      EndsFrom(o, w, judge, k + 1, Elapsed(o, w, k) + DelayAt(o, k) + w.oversleep(k));
    }
  }

  /** The loop stops at the first poll that is answered, broken, over budget or
      cut off, and ends the way that poll calls for: only a settled reply succeeds,
      even one that arrives after the budget. */
  lemma LastPollDecides<R>(o: Options, w: World<R>, judge: R -> Verdict)
    requires o.initialDelay > 0
    ensures var t := Polls(o, w, judge, 0, 0, o.initialDelay);
            && (forall i | 0 <= i < t.polls - 1 :: GoesOn(o, w, judge, i))
            && EndsAt(o, w, judge, t.polls - 1, t.end)
  {
    EndsFrom(o, w, judge, 0, 0);
  }

  // ---------------------------------------------------- the three pollers

  const STATUS_ACCEPTED := 202

  /** A row of a result: an operation status, a record, or JSON that is neither. */
  datatype ResultRow = StatusRow(message: string) | RecordRow(running: bool) | OpaqueRow

  datatype AsyncReply =
    | CallFailed
    | AsyncResult(statusCode: int, numberOfResults: Option<int>, rows: seq<ResultRow>)

  /** The in-progress message of an async result, none once it has settled. */
  function StatusMessage(statusCode: int, numberOfResults: Option<int>, rows: seq<ResultRow>): Option<string> {
    if statusCode != STATUS_ACCEPTED then None
    else if rows == [] then
      if numberOfResults.Some? then None else Some("waiting for platform")
    else if !rows[0].StatusRow? then None
    else Some(if rows[0].message == "" then "in progress" else rows[0].message)
  }

  function JudgeAsync(r: AsyncReply): Verdict {
    match r
    case CallFailed => Broken
    case AsyncResult(code, n, rows) => if StatusMessage(code, n, rows).Some? then Working else Settled
  }

  /** The execution-record endpoint has its own idea of settled. */
  function JudgeRecord(r: AsyncReply): Verdict {
    match r
    case CallFailed => Broken
    case AsyncResult(code, _, rows) =>
      if code == STATUS_ACCEPTED || rows == [] then Working
      else if exists i | 0 <= i < |rows| :: rows[i].OpaqueRow? then Broken
      else if rows[0].RecordRow? && rows[0].running then Working
      else Settled
  }

  /** The async loop polls on exactly while the platform answers 202 with a status
      row first, or with neither rows nor a count; it returns anything else. */
  lemma AsyncPollsOn(o: Options, w: World<AsyncReply>)
    requires o.initialDelay > 0
    ensures var t := Polls(o, w, JudgeAsync, 0, 0, o.initialDelay);
            && (forall i | 0 <= i < t.polls - 1 :: InProgress(w.reply(i)))
            && (t.end.Finished? <==> w.reply(t.polls - 1).AsyncResult? && !InProgress(w.reply(t.polls - 1)))
            && (t.end.Failed? <==> w.reply(t.polls - 1).CallFailed?)
  {
    LastPollDecides(o, w, JudgeAsync);
    forall i | 0 <= i < Polls(o, w, JudgeAsync, 0, 0, o.initialDelay).polls - 1 ensures InProgress(w.reply(i)) {
      assert GoesOn(o, w, JudgeAsync, i);
    }
  }

  predicate InProgress(r: AsyncReply) {
    && r.AsyncResult? && r.statusCode == 202
    && if |r.rows| > 0 then r.rows[0].StatusRow? else r.numberOfResults.None?
  }

  /** The record loop polls on exactly while there is no record (202, or no rows)
      or a readable answer whose first record is still running; it returns only a
      readable answer whose first row is not such a record, and an unreadable one fails. */
  lemma RecordPollsOn(o: Options, w: World<AsyncReply>)
    requires o.initialDelay > 0
    ensures var t := Polls(o, w, JudgeRecord, 0, 0, o.initialDelay);
            && (forall i | 0 <= i < t.polls - 1 :: NoRecordYet(w.reply(i)) || (Readable(w.reply(i)) && StillRunning(w.reply(i))))
            && var last := w.reply(t.polls - 1);
            && (t.end.Finished? <==> last.AsyncResult? && !NoRecordYet(last) && Readable(last) && !StillRunning(last))
            && (t.end.Failed? <==> last.CallFailed? || (!NoRecordYet(last) && !Readable(last)))
  {
    LastPollDecides(o, w, JudgeRecord);
    forall i | 0 <= i < Polls(o, w, JudgeRecord, 0, 0, o.initialDelay).polls - 1
      ensures NoRecordYet(w.reply(i)) || (Readable(w.reply(i)) && StillRunning(w.reply(i)))
    {
      assert GoesOn(o, w, JudgeRecord, i);
    }
  }

  predicate NoRecordYet(r: AsyncReply) {
    r.AsyncResult? && (r.statusCode == 202 || |r.rows| == 0)
  }

  predicate Readable(r: AsyncReply) {
    r.AsyncResult? && forall row | row in r.rows :: !row.OpaqueRow?
  }

  predicate StillRunning(r: AsyncReply) {
    r.AsyncResult? && |r.rows| > 0 && r.rows[0] == RecordRow(true)
  }

  /** The message of a reply in progress is never empty: the platform's own, or a stand-in. */
  lemma StatusMessageMeaning(statusCode: int, numberOfResults: Option<int>, rows: seq<ResultRow>)
    ensures var m := StatusMessage(statusCode, numberOfResults, rows);
            && (m.Some? <==> InProgress(AsyncResult(statusCode, numberOfResults, rows)))
            && (m.Some? && |rows| == 0 ==> m.value == "waiting for platform")
            && (m.Some? && |rows| > 0 ==> m.value == if rows[0].message == "" then "in progress" else rows[0].message)
  {
  }

  /** A settled-but-empty 202 ends the async loop at that poll instead of being
      polled forever, while the record loop takes the very same reply for work in progress. */
  lemma EmptyAnswerSettles(o: Options, w: World<AsyncReply>, n: int)
    requires o.initialDelay > 0
    requires w.reply(0) == AsyncResult(202, Some(n), [])
    ensures Polls(o, w, JudgeAsync, 0, 0, o.initialDelay) == Trace(1, [], Finished)
    ensures Polls(o, w, JudgeRecord, 0, 0, o.initialDelay).end == Finished ==>
              Polls(o, w, JudgeRecord, 0, 0, o.initialDelay).polls > 1
  {
    LastPollDecides(o, w, JudgeRecord);
  }
}
