/** Fetching an execution's log archive: post until the request is accepted, then
    poll the one location it named; both phases share one budget. */
module ExecutionLog {
  import opened Prelude
  import Polling

  datatype Call = Post(at: int) | Fetch(url: string, at: int)

  datatype PostReply = NotReady | PostFailed | Accepted(url: string)

  datatype FetchReply = Archive | Generating | FetchFailed

  /** An adversarial platform and clock: everything may depend on the calls so far,
      the last of which is the one concerned. Times count from the start. */
  datatype World = World(
    post: seq<Call> -> PostReply,
    fetch: seq<Call> -> FetchReply,
    latency: seq<Call> -> nat,
    oversleep: seq<Call> -> nat,
    cut: seq<Call> -> bool
  )

  datatype End = Delivered | TimedOut | Cancelled | Failed | NoLocation

  datatype Log = Log(calls: seq<Call>, end: End)

  /** The first phase, from a state with these calls behind it. */
  function Posting(w: World, o: Polling.Options, past: seq<Call>, now: int): Log
    requires o.initialDelay > 0
    decreases Max(0, o.maxWait + 1 - now), 1
  {
    var calls := past + [Post(now)];
    var t := now + w.latency(calls);
    match w.post(calls)
    case PostFailed => Log(calls, Failed)
    case Accepted(url) => if url == "" then Log(calls, NoLocation) else Fetching(w, o, calls, url, t)
    case NotReady =>
      if t > o.maxWait then Log(calls, TimedOut)
      else if w.cut(calls) then Log(calls, Cancelled)
      else Posting(w, o, calls, t + o.initialDelay + w.oversleep(calls))
  }

  /** The second phase: the same location until it delivers. */
  function Fetching(w: World, o: Polling.Options, past: seq<Call>, url: string, now: int): Log
    requires o.initialDelay > 0
    decreases Max(0, o.maxWait + 1 - now), 0
  {
    var calls := past + [Fetch(url, now)];
    var t := now + w.latency(calls);
    match w.fetch(calls)
    case FetchFailed => Log(calls, Failed)
    case Archive => Log(calls, Delivered)
    case Generating =>
      if t > o.maxWait then Log(calls, TimedOut)
      else if w.cut(calls) then Log(calls, Cancelled)
      else Fetching(w, o, calls, url, t + o.initialDelay + w.oversleep(calls))
  }

  /** The two loops as they run. */
  method RunLog(w: World, o: Polling.Options) returns (log: Log)
    requires o.initialDelay > 0
    ensures log == Posting(w, o, [], 0)
  {
    var calls: seq<Call> := [];
    var now, url := 0, "";
    while url == ""
      invariant Posting(w, o, [], 0) == if url == "" then Posting(w, o, calls, now) else Fetching(w, o, calls, url, now)
      decreases url == "", Max(0, o.maxWait + 1 - now)
    {
      calls := calls + [Post(now)];
      now := now + w.latency(calls);
      match w.post(calls)
      case PostFailed => return Log(calls, Failed);
      case Accepted(location) =>
        if location == "" {
          return Log(calls, NoLocation);
        }
        url := location;
      case NotReady =>
        if now > o.maxWait {
          return Log(calls, TimedOut);
        }
        if w.cut(calls) {
          return Log(calls, Cancelled);
        }
        now := now + o.initialDelay + w.oversleep(calls);
    }
    while true
      invariant Posting(w, o, [], 0) == Fetching(w, o, calls, url, now)
      decreases Max(0, o.maxWait + 1 - now)
    {
      calls := calls + [Fetch(url, now)];
      now := now + w.latency(calls);
      match w.fetch(calls)
      case FetchFailed => return Log(calls, Failed);
      case Archive => return Log(calls, Delivered);
      case Generating =>
        if now > o.maxWait {
          return Log(calls, TimedOut);
        }
        if w.cut(calls) {
          return Log(calls, Cancelled);
        }
        now := now + o.initialDelay + w.oversleep(calls);
    }
  }

  // --------------------------------------------- the shape of every run

  function Front(calls: seq<Call>): seq<Call>
    requires calls != []
  {
    calls[..|calls| - 1]
  }

  function Last(calls: seq<Call>): Call
    requires calls != []
  {
    calls[|calls| - 1]
  }

  /** Only posts so far, each answered "not ready" and made within the budget. */
  predicate Refused(w: World, o: Polling.Options, calls: seq<Call>) {
    calls == []
    || (Last(calls).Post? && Last(calls).at <= o.maxWait && w.post(calls) == NotReady && Refused(w, o, Front(calls)))
  }

  /** Posts, the last of which was accepted and named `url`, then fetches of `url`,
      each still generating and made within the same budget. */
  predicate Waiting(w: World, o: Polling.Options, calls: seq<Call>, url: string) {
    && calls != []
    && match Last(calls)
       case Post(_) => url != "" && w.post(calls) == Accepted(url) && Refused(w, o, Front(calls))
       case Fetch(u, at) => u == url && at <= o.maxWait && w.fetch(calls) == Generating && Waiting(w, o, Front(calls), url)
  }

  /** A run ends either on a post, with nothing accepted but what that post said,
      or on a fetch of the one location, delivering exactly when it has the archive. */
  predicate TwoPhases(w: World, o: Polling.Options, log: Log, url: string) {
    && log.calls != []
    && match Last(log.calls)
       case Post(_) =>
         && Refused(w, o, Front(log.calls)) && log.end != Delivered
         && (w.post(log.calls).Accepted? ==> w.post(log.calls).url == "" && log.end == NoLocation)
       case Fetch(u, _) =>
         && u == url && Waiting(w, o, Front(log.calls), url)
         && (log.end == Delivered <==> w.fetch(log.calls) == Archive)
  }

  lemma {:induction false} FetchingShape(w: World, o: Polling.Options, past: seq<Call>, url: string, now: int)
    requires o.initialDelay > 0 && Waiting(w, o, past, url)
    ensures TwoPhases(w, o, Fetching(w, o, past, url, now), url)
    decreases Max(0, o.maxWait + 1 - now)
  {
    var calls := past + [Fetch(url, now)];
    assert Front(calls) == past;
    var t := now + w.latency(calls);
    if w.fetch(calls) == Generating && t <= o.maxWait && !w.cut(calls) {
      FetchingShape(w, o, calls, url, t + o.initialDelay + w.oversleep(calls));
    }
  }

  /** Does the first phase go round again after this post? */
  predicate PostsAgain(w: World, o: Polling.Options, calls: seq<Call>, now: int) {
    w.post(calls) == NotReady && now + w.latency(calls) <= o.maxWait && !w.cut(calls)
  }

  lemma PostingStops(w: World, o: Polling.Options, past: seq<Call>, now: int) returns (url: string)
    requires o.initialDelay > 0 && Refused(w, o, past)
    requires !PostsAgain(w, o, past + [Post(now)], now)
    ensures TwoPhases(w, o, Posting(w, o, past, now), url)
  {
    var calls := past + [Post(now)];
    assert Front(calls) == past;
    if Took(w, calls) {
      url := w.post(calls).url;
      FetchingShape(w, o, calls, url, now + w.latency(calls));
      PostingTurns(w, o, past, now);
    } else {
      url := "";
      PostingHalts(w, o, past, now);
    }
  }

  lemma {:induction false} PostingShape(w: World, o: Polling.Options, past: seq<Call>, now: int) returns (url: string)
    requires o.initialDelay > 0 && Refused(w, o, past)
    ensures TwoPhases(w, o, Posting(w, o, past, now), url)
    decreases Max(0, o.maxWait + 1 - now)
  {
    var calls := past + [Post(now)];
    if PostsAgain(w, o, calls, now) {
      assert Front(calls) == past;
      url := PostingShape(w, o, calls, now + w.latency(calls) + o.initialDelay + w.oversleep(calls));
    } else {
      url := PostingStops(w, o, past, now);
    }
  }

  /** On every platform the log is fetched by some number of posts, of which
      exactly the last can be accepted, followed only by fetches of the location
      that post returned, all under one budget. */
  lemma LogShape(w: World, o: Polling.Options) returns (url: string)
    requires o.initialDelay > 0
    ensures TwoPhases(w, o, Posting(w, o, [], 0), url)
  {
    url := PostingShape(w, o, [], 0);
  }

  // ------------------------------------------------- every run, exactly

  /** When the reply to the last of these calls arrives. */
  function Now(w: World, calls: seq<Call>): int
    requires calls != []
  {
    Last(calls).at + w.latency(calls)
  }

  /** The last of these calls was answered "not yet": a post too early, or a fetch of an unfinished archive. */
  predicate NotYet(w: World, calls: seq<Call>)
    requires calls != []
  {
    if Last(calls).Post? then w.post(calls) == NotReady else w.fetch(calls) == Generating
  }

  /** The call that follows: after "not yet", within the budget and not cut off, the
      same again one delay later; after an accepted post, the fetch of its location at once. */
  predicate GoesOnTo(w: World, o: Polling.Options, calls: seq<Call>, next: Call)
    requires calls != []
  {
    if NotYet(w, calls) then
      && Now(w, calls) <= o.maxWait && !w.cut(calls)
      && next == Last(calls).(at := Now(w, calls) + o.initialDelay + w.oversleep(calls))
    else
      && Last(calls).Post? && w.post(calls).Accepted? && w.post(calls).url != ""
      && next == Fetch(w.post(calls).url, Now(w, calls))
  }

  predicate StopsWith(w: World, o: Polling.Options, calls: seq<Call>, end: End)
    requires calls != []
  {
    match end
    case Delivered => Last(calls).Fetch? && w.fetch(calls) == Archive
    case Failed => if Last(calls).Post? then w.post(calls) == PostFailed else w.fetch(calls) == FetchFailed
    case NoLocation => Last(calls).Post? && w.post(calls) == Accepted("")
    case TimedOut => NotYet(w, calls) && Now(w, calls) > o.maxWait
    case Cancelled => NotYet(w, calls) && Now(w, calls) <= o.maxWait && w.cut(calls)
  }

  /** The first call is a post at once, and each further call follows from those before it. */
  predicate Path(w: World, o: Polling.Options, calls: seq<Call>) {
    && calls != []
    && if |calls| == 1 then calls[0] == Post(0) else Path(w, o, Front(calls)) && GoesOnTo(w, o, Front(calls), Last(calls))
  }

  lemma PathOn(w: World, o: Polling.Options, calls: seq<Call>, next: Call)
    requires Path(w, o, calls) && GoesOnTo(w, o, calls, next)
    ensures Path(w, o, calls + [next])
  {
    assert Front(calls + [next]) == calls;
  }

  predicate Exactly(w: World, o: Polling.Options, log: Log) {
    Path(w, o, log.calls) && StopsWith(w, o, log.calls, log.end)
  }

  lemma {:induction false} FetchingExactly(w: World, o: Polling.Options, past: seq<Call>, url: string, now: int)
    requires o.initialDelay > 0 && Path(w, o, past + [Fetch(url, now)])
    ensures Exactly(w, o, Fetching(w, o, past, url, now))
    decreases Max(0, o.maxWait + 1 - now)
  {
    var calls := past + [Fetch(url, now)];
    var t := now + w.latency(calls);
    if w.fetch(calls) == Generating && t <= o.maxWait && !w.cut(calls) {
      var later := t + o.initialDelay + w.oversleep(calls);
      PathOn(w, o, calls, Fetch(url, later));
      FetchingExactly(w, o, calls, url, later);
    }
  }

  /** The first phase, one post later. */
  lemma PostAgain(w: World, o: Polling.Options, past: seq<Call>, now: int)
    requires o.initialDelay > 0 && PostsAgain(w, o, past + [Post(now)], now)
    ensures var calls := past + [Post(now)];
            Posting(w, o, past, now) == Posting(w, o, calls, now + w.latency(calls) + o.initialDelay + w.oversleep(calls))
  {
  }

  /** The platform took this post and named a location. */
  predicate Took(w: World, calls: seq<Call>) {
    w.post(calls).Accepted? && w.post(calls).url != ""
  }

  lemma PostingTurns(w: World, o: Polling.Options, past: seq<Call>, now: int)
    requires o.initialDelay > 0 && Took(w, past + [Post(now)])
    ensures var calls := past + [Post(now)];
            Posting(w, o, past, now) == Fetching(w, o, calls, w.post(calls).url, now + w.latency(calls))
  {
  }

  lemma PostingHalts(w: World, o: Polling.Options, past: seq<Call>, now: int)
    requires o.initialDelay > 0
    requires !PostsAgain(w, o, past + [Post(now)], now) && !Took(w, past + [Post(now)])
    ensures var log := Posting(w, o, past, now);
            log.calls == past + [Post(now)] && StopsWith(w, o, log.calls, log.end)
  {
    assert Last(past + [Post(now)]) == Post(now);
  }

  lemma PostingEnds(w: World, o: Polling.Options, past: seq<Call>, now: int)
    requires o.initialDelay > 0 && Path(w, o, past + [Post(now)])
    requires !PostsAgain(w, o, past + [Post(now)], now)
    ensures Exactly(w, o, Posting(w, o, past, now))
  {
    var calls := past + [Post(now)];
    if Took(w, calls) {
      var fetch := Fetch(w.post(calls).url, now + w.latency(calls));
      PathOn(w, o, calls, fetch);
      FetchingExactly(w, o, calls, fetch.url, fetch.at);
      PostingTurns(w, o, past, now);
    } else {
      PostingHalts(w, o, past, now);
    }
  }

  lemma {:induction false} PostingExactly(w: World, o: Polling.Options, past: seq<Call>, now: int)
    requires o.initialDelay > 0 && Path(w, o, past + [Post(now)])
    ensures Exactly(w, o, Posting(w, o, past, now))
    decreases Max(0, o.maxWait + 1 - now)
  {
    var calls := past + [Post(now)];
    if PostsAgain(w, o, calls, now) {
      var later := now + w.latency(calls) + o.initialDelay + w.oversleep(calls);
      PathOn(w, o, calls, Post(later));
      PostAgain(w, o, past, now);
      PostingExactly(w, o, calls, later);
    } else {
      PostingEnds(w, o, past, now);
    }
  }

  lemma GoesOrStops(w: World, o: Polling.Options, calls: seq<Call>, a: Call, b: Call, x: End, y: End)
    requires calls != []
    ensures GoesOnTo(w, o, calls, a) && GoesOnTo(w, o, calls, b) ==> a == b
    ensures StopsWith(w, o, calls, x) ==> !GoesOnTo(w, o, calls, a)
    ensures StopsWith(w, o, calls, x) && StopsWith(w, o, calls, y) ==> x == y
  {
  }

  lemma {:induction false} PathsAgree(w: World, o: Polling.Options, a: seq<Call>, b: seq<Call>)
    requires Path(w, o, a) && Path(w, o, b) && |a| == |b|
    ensures a == b
  {
    if |a| > 1 {
      PathsAgree(w, o, Front(a), Front(b));
      GoesOrStops(w, o, Front(a), Last(a), Last(b), Failed, Failed);
      assert a == Front(a) + [Last(a)] && b == Front(b) + [Last(b)];
    } else {
      assert a == [a[0]] && b == [b[0]];
    }
  }

  lemma {:induction false} PathGoesOn(w: World, o: Polling.Options, calls: seq<Call>, n: nat)
    requires Path(w, o, calls) && 0 < n < |calls|
    ensures Path(w, o, calls[..n]) && GoesOnTo(w, o, calls[..n], calls[n])
    decreases |calls|
  {
    if n < |calls| - 1 {
      PathGoesOn(w, o, Front(calls), n);
      assert Front(calls)[..n] == calls[..n];
    }
  }

  /** A run stops where it stops, and no run goes on from there. */
  lemma NoLonger(w: World, o: Polling.Options, a: Log, b: Log)
    requires Exactly(w, o, a) && Path(w, o, b.calls)
    ensures |b.calls| <= |a.calls|
  {
    var n := |a.calls|;
    if n < |b.calls| {
      PathGoesOn(w, o, b.calls, n);
      PathsAgree(w, o, a.calls, b.calls[..n]);
      GoesOrStops(w, o, a.calls, b.calls[n], b.calls[n], a.end, a.end);
    }
  }

  /** The run on a platform is the one log that starts with a post at once, goes on
      as each reply, the budget and the context call for, and stops as they call for. */
  lemma LogExactly(w: World, o: Polling.Options, log: Log)
    requires o.initialDelay > 0
    ensures log == Posting(w, o, [], 0) <==> Exactly(w, o, log)
  {
    assert [] + [Post(0)] == [Post(0)];
    PostingExactly(w, o, [], 0);
    var run := Posting(w, o, [], 0);
    if Exactly(w, o, log) {
      NoLonger(w, o, log, run);
      NoLonger(w, o, run, log);
      PathsAgree(w, o, log.calls, run.calls);
      GoesOrStops(w, o, log.calls, Post(0), Post(0), log.end, run.end);
    }
  }

  lemma {:induction false} FetchingCount(w: World, o: Polling.Options, past: seq<Call>, url: string, now: int, waits: nat)
    requires o.initialDelay > 0 && o.maxWait >= 0 && now >= waits * o.initialDelay
    ensures |Fetching(w, o, past, url, now).calls| <= |past| + Max(1, o.maxWait / o.initialDelay + 2 - waits)
    decreases Max(0, o.maxWait + 1 - now)
  {
    var calls := past + [Fetch(url, now)];
    var t := now + w.latency(calls);
    if w.fetch(calls) == Generating && t <= o.maxWait && !w.cut(calls) {
      Polling.QuotientBound(waits, o.initialDelay, o.maxWait);
      assert (waits + 1) * o.initialDelay == waits * o.initialDelay + o.initialDelay;
      FetchingCount(w, o, calls, url, t + o.initialDelay + w.oversleep(calls), waits + 1);
    }
  }

  lemma {:induction false} PostingCount(w: World, o: Polling.Options, past: seq<Call>, now: int, waits: nat)
    requires o.initialDelay > 0 && o.maxWait >= 0 && now >= waits * o.initialDelay
    ensures |Posting(w, o, past, now).calls| <= |past| + Max(1, o.maxWait / o.initialDelay + 2 - waits) + 1
    decreases Max(0, o.maxWait + 1 - now)
  {
    var calls := past + [Post(now)];
    var t := now + w.latency(calls);
    match w.post(calls)
    case PostFailed =>
    case Accepted(location) =>
      if location != "" {
        FetchingCount(w, o, calls, location, t, waits);
      }
    case NotReady =>
      if t <= o.maxWait && !w.cut(calls) {
        Polling.QuotientBound(waits, o.initialDelay, o.maxWait);
        assert (waits + 1) * o.initialDelay == waits * o.initialDelay + o.initialDelay;
        PostingCount(w, o, calls, t + o.initialDelay + w.oversleep(calls), waits + 1);
      }
  }

  /** Both phases together make at most floor(MaxWait / InitialDelay) + 3 calls. */
  lemma LogCallBound(w: World, o: Polling.Options)
    requires o.initialDelay > 0 && o.maxWait >= 0
    ensures |Posting(w, o, [], 0).calls| <= o.maxWait / o.initialDelay + 3
  {
    PostingCount(w, o, [], 0, 0);
    assert o.maxWait / o.initialDelay >= 0;
  }

  // -------------------------------------------- a platform that generates

  /** Calls take no time and are never cut off; posts are accepted from time
      `visible` on; each accepted post starts a fresh generation of length
      `length`, ready at minted(url) + length. */
  ghost predicate Generates(w: World, visible: int, length: int, minted: string -> int) {
    && (forall h: seq<Call> {:trigger w.latency(h)} :: w.latency(h) == 0)
    && (forall h: seq<Call> {:trigger w.cut(h)} :: !w.cut(h))
    && (forall h: seq<Call> | h != [] && h[|h| - 1].Post? :: PostAnswer(w, h, visible, minted))
    && (forall h: seq<Call> | h != [] && h[|h| - 1].Fetch? :: FetchAnswer(w, h, length, minted))
  }

  predicate PostAnswer(w: World, h: seq<Call>, visible: int, minted: string -> int)
    requires h != []
  {
    var at, r := h[|h| - 1].at, w.post(h);
    if at < visible then r == NotReady else r.Accepted? && r.url != "" && minted(r.url) == at
  }

  predicate FetchAnswer(w: World, h: seq<Call>, length: int, minted: string -> int)
    requires h != [] && h[|h| - 1].Fetch?
  {
    w.fetch(h) == if h[|h| - 1].at >= minted(h[|h| - 1].url) + length then Archive else Generating
  }

  lemma {:induction false} FetchingDelivers(w: World, o: Polling.Options, past: seq<Call>, url: string, now: int,
                                            visible: int, length: int, minted: string -> int)
    requires o.initialDelay > 0 && Generates(w, visible, length, minted)
    requires minted(url) + length <= o.maxWait
    ensures Fetching(w, o, past, url, now).end == Delivered
    decreases Max(0, o.maxWait + 1 - now)
  {
    var calls := past + [Fetch(url, now)];
    assert FetchAnswer(w, calls, length, minted);
    if now < minted(url) + length {
      FetchingDelivers(w, o, calls, url, now + w.latency(calls) + o.initialDelay + w.oversleep(calls), visible, length, minted);
    }
  }

  lemma {:induction false} FetchesOneLocation(w: World, o: Polling.Options, past: seq<Call>, url: string, now: int)
    requires o.initialDelay > 0
    ensures var calls := Fetching(w, o, past, url, now).calls;
            calls != [] && Last(calls).Fetch? && Last(calls).url == url
    decreases Max(0, o.maxWait + 1 - now)
  {
    var calls := past + [Fetch(url, now)];
    var t := now + w.latency(calls);
    if w.fetch(calls) == Generating && t <= o.maxWait && !w.cut(calls) {
      FetchesOneLocation(w, o, calls, url, t + o.initialDelay + w.oversleep(calls));
    }
  }

  /** If the run got to a location whose generation fits the budget, it delivered. */
  predicate DeliversInTime(log: Log, o: Polling.Options, length: int, minted: string -> int) {
    && log.calls != []
    && (Last(log.calls).Fetch? && minted(Last(log.calls).url) + length <= o.maxWait ==> log.end == Delivered)
  }

  lemma {:induction false} PostingDelivers(w: World, o: Polling.Options, past: seq<Call>, now: int,
                                           visible: int, length: int, minted: string -> int)
    requires o.initialDelay > 0 && Generates(w, visible, length, minted)
    ensures DeliversInTime(Posting(w, o, past, now), o, length, minted)
    decreases Max(0, o.maxWait + 1 - now)
  {
    var calls := past + [Post(now)];
    if PostsAgain(w, o, calls, now) {
      PostAgain(w, o, past, now);
      PostingDelivers(w, o, calls, now + w.latency(calls) + o.initialDelay + w.oversleep(calls), visible, length, minted);
    } else {
      StopsInTime(w, o, past, now, visible, length, minted);
    }
  }

  lemma StopsInTime(w: World, o: Polling.Options, past: seq<Call>, now: int,
                    visible: int, length: int, minted: string -> int)
    requires o.initialDelay > 0 && Generates(w, visible, length, minted)
    requires !PostsAgain(w, o, past + [Post(now)], now)
    ensures DeliversInTime(Posting(w, o, past, now), o, length, minted)
  {
    var calls := past + [Post(now)];
    assert PostAnswer(w, calls, visible, minted);
    if w.post(calls).Accepted? {
      AcceptedDelivers(w, o, calls, w.post(calls).url, now + w.latency(calls), visible, length, minted);
    }
  }

  lemma AcceptedDelivers(w: World, o: Polling.Options, past: seq<Call>, url: string, now: int,
                         visible: int, length: int, minted: string -> int)
    requires o.initialDelay > 0 && Generates(w, visible, length, minted)
    ensures DeliversInTime(Fetching(w, o, past, url, now), o, length, minted)
  {
    FetchesOneLocation(w, o, past, url, now);
    if minted(url) + length <= o.maxWait {
      FetchingDelivers(w, o, past, url, now, visible, length, minted);
    }
  }

  /** However long the sleeps really last: once a post has been accepted at a time
      from which the generation fits into the budget, the archive is delivered. */
  lemma AcceptedInTimeDelivers(w: World, o: Polling.Options, visible: int, length: int, minted: string -> int)
    requires o.initialDelay > 0 && Generates(w, visible, length, minted)
    ensures DeliversInTime(Posting(w, o, [], 0), o, length, minted)
  {
    PostingDelivers(w, o, [], 0, visible, length, minted);
  }

  // ----------------------------------------------- exactly when it delivers

  /** How long n waits take. */
  function Waits(n: nat, step: int): int {
    if n == 0 then 0 else Waits(n - 1, step) + step
  }

  lemma {:induction false} WaitsProduct(n: nat, step: int)
    ensures Waits(n, step) == n * step
  {
    if n > 0 {
      WaitsProduct(n - 1, step);
      assert n * step == (n - 1) * step + step;
    }
  }

  /** n is the number of waits of this length it takes to reach `target` from zero. */
  predicate WaitsFor(n: nat, step: int, target: int) {
    Waits(n, step) >= target && (n == 0 || Waits(n - 1, step) < target)
  }

  /** Does the last of n waits of this length, counted from `now`, start within the budget? */
  predicate LastWaitFits(now: int, n: nat, step: int, maxWait: int) {
    n == 0 || now + Waits(n - 1, step) <= maxWait
  }

  lemma {:induction false} WaitsPositive(n: nat, step: int)
    requires step > 0
    ensures Waits(n, step) >= 0
  {
    if n > 0 {
      WaitsPositive(n - 1, step);
    }
  }

  /** One wait later, one wait fewer is left. */
  lemma WaitOnce(n: nat, step: int, target: int, left: int)
    requires n > 0 && step > 0 && WaitsFor(n, step, target) && left == target - step
    ensures target > 0
    ensures WaitsFor(n - 1, step, left)
  {
    WaitsPositive(n - 1, step);
  }

  lemma FitsLater(now: int, n: nat, step: int, maxWait: int)
    requires n > 0 && step > 0
    ensures LastWaitFits(now, n, step, maxWait) <==> now <= maxWait && LastWaitFits(now + step, n - 1, step, maxWait)
  {
    WaitsPositive(n - 1, step);
    if n > 1 {
      WaitsPositive(n - 2, step);
    }
  }

  ghost predicate ExactSleeps(w: World) {
    forall h: seq<Call> {:trigger w.oversleep(h)} :: w.oversleep(h) == 0
  }

  lemma {:induction false} FetchingExact(w: World, o: Polling.Options, past: seq<Call>, url: string, now: int,
                                         visible: int, length: int, minted: string -> int, n: nat)
    requires o.initialDelay > 0 && Generates(w, visible, length, minted) && ExactSleeps(w)
    requires WaitsFor(n, o.initialDelay, minted(url) + length - now)
    ensures Fetching(w, o, past, url, now).end == Delivered <==> LastWaitFits(now, n, o.initialDelay, o.maxWait)
    decreases n
  {
    var calls := past + [Fetch(url, now)];
    assert FetchAnswer(w, calls, length, minted);
    if n > 0 {
      WaitOnce(n, o.initialDelay, minted(url) + length - now, minted(url) + length - (now + o.initialDelay));
      FitsLater(now, n, o.initialDelay, o.maxWait);
      if now <= o.maxWait {
        FetchingExact(w, o, calls, url, now + o.initialDelay, visible, length, minted, n - 1);
      }
    }
  }

  lemma VisiblePost(w: World, o: Polling.Options, past: seq<Call>, now: int,
                    visible: int, length: int, minted: string -> int)
    requires o.initialDelay > 0 && Generates(w, visible, length, minted) && now >= visible
    ensures var calls := past + [Post(now)];
            && w.post(calls).Accepted? && minted(w.post(calls).url) == now
            && Posting(w, o, past, now) == Fetching(w, o, calls, w.post(calls).url, now)
  {
    assert PostAnswer(w, past + [Post(now)], visible, minted);
  }

  lemma InvisiblePost(w: World, o: Polling.Options, past: seq<Call>, now: int,
                      visible: int, length: int, minted: string -> int)
    requires o.initialDelay > 0 && Generates(w, visible, length, minted) && ExactSleeps(w) && now < visible
    ensures Posting(w, o, past, now)
            == if now <= o.maxWait then Posting(w, o, past + [Post(now)], now + o.initialDelay)
               else Log(past + [Post(now)], TimedOut)
  {
    assert PostAnswer(w, past + [Post(now)], visible, minted);
  }

  /** From this post on the archive is delivered exactly when n waits fit. */
  ghost predicate DeliversAfter(w: World, o: Polling.Options, past: seq<Call>, now: int, n: nat)
    requires o.initialDelay > 0
  {
    Posting(w, o, past, now).end == Delivered <==> LastWaitFits(now, n, o.initialDelay, o.maxWait)
  }

  lemma VisibleExact(w: World, o: Polling.Options, past: seq<Call>, now: int,
                     visible: int, length: int, minted: string -> int, n: nat)
    requires o.initialDelay > 0 && Generates(w, visible, length, minted) && ExactSleeps(w) && now >= visible
    requires WaitsFor(n, o.initialDelay, length)
    ensures DeliversAfter(w, o, past, now, n)
  {
    var calls := past + [Post(now)];
    VisiblePost(w, o, past, now, visible, length, minted);
    FetchingExact(w, o, calls, w.post(calls).url, now, visible, length, minted, n);
  }

  /** If n - 1 waits decide the run after a refused post, n decide it before. */
  lemma OneMoreWait(w: World, o: Polling.Options, past: seq<Call>, now: int,
                    visible: int, length: int, minted: string -> int, n: nat, calls: seq<Call>, later: int)
    requires o.initialDelay > 0 && Generates(w, visible, length, minted) && ExactSleeps(w)
    requires now < visible && now <= o.maxWait && n > 0
    requires calls == past + [Post(now)] && later == now + o.initialDelay
    requires DeliversAfter(w, o, calls, later, n - 1)
    ensures DeliversAfter(w, o, past, now, n)
  {
    FitsLater(now, n, o.initialDelay, o.maxWait);
    InvisiblePost(w, o, past, now, visible, length, minted);
  }

  lemma NoMoreWait(w: World, o: Polling.Options, past: seq<Call>, now: int,
                   visible: int, length: int, minted: string -> int, n: nat)
    requires o.initialDelay > 0 && Generates(w, visible, length, minted) && ExactSleeps(w)
    requires o.maxWait < now < visible && n > 0
    ensures DeliversAfter(w, o, past, now, n)
  {
    FitsLater(now, n, o.initialDelay, o.maxWait);
    InvisiblePost(w, o, past, now, visible, length, minted);
  }

  lemma {:induction false} PostingExact(w: World, o: Polling.Options, past: seq<Call>, now: int,
                                        visible: int, length: int, minted: string -> int, m: nat, n: nat, total: nat)
    requires o.initialDelay > 0 && Generates(w, visible, length, minted) && ExactSleeps(w)
    requires WaitsFor(m, o.initialDelay, visible - now) && WaitsFor(n, o.initialDelay, length) && total == m + n
    ensures DeliversAfter(w, o, past, now, total)
    decreases m
  {
    if m == 0 {
      VisibleExact(w, o, past, now, visible, length, minted, n);
    } else {
      var calls, later := past + [Post(now)], now + o.initialDelay;
      WaitOnce(m, o.initialDelay, visible - now, visible - later);
      if now <= o.maxWait {
        PostingExact(w, o, calls, later, visible, length, minted, m - 1, n, total - 1);
        OneMoreWait(w, o, past, now, visible, length, minted, total, calls, later);
      } else {
        NoMoreWait(w, o, past, now, visible, length, minted, total);
      }
    }
  }

  /** With exact sleeps: if visibility takes m waits and generation n, the archive
      is delivered exactly when the start of the last of those waits is within the budget. */
  lemma DeliversExactly(w: World, o: Polling.Options, visible: int, length: int, minted: string -> int, m: nat, n: nat)
    requires o.initialDelay > 0 && Generates(w, visible, length, minted) && ExactSleeps(w)
    requires WaitsFor(m, o.initialDelay, visible) && WaitsFor(n, o.initialDelay, length)
    ensures Posting(w, o, [], 0).end == Delivered <==> m + n == 0 || (m + n - 1) * o.initialDelay <= o.maxWait
  {
    PostingExact(w, o, [], 0, visible, length, minted, m, n, m + n);
    if m + n > 0 {
      WaitsProduct(m + n - 1, o.initialDelay);
    }
  }
}
