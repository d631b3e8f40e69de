/** The licence report: one outstanding report per account, and the recovery from a stuck one. */
module Licensing {
  import opened Prelude
  import Polling

  datatype Call = Post | Fetch(url: string)

  /** Stuck is the refusal that names the location of a report never collected. */
  datatype PostReply = Started(url: string) | Stuck(url: string) | PostFailed

  datatype FetchReply<R> = File(rows: R) | Generating | FetchFailed

  /** An adversarial platform: each reply may depend on every call so far. */
  datatype World<!R> = World(
    post: seq<Call> -> PostReply,
    fetch: seq<Call> -> FetchReply<R>,
    latency: nat -> nat,
    oversleep: nat -> nat,
    cut: nat -> bool
  )

  /** What startReport leaves behind: its calls, and its own location if it has one. */
  datatype Start = Start(calls: seq<Call>, url: Option<string>)

  /** A still-generating answer to the clearing fetch counts as cleared. */
  function StartReport<R>(w: World<R>, past: seq<Call>): Start {
    var posted := past + [Post];
    match w.post(posted)
    case Started(url) => Start(posted, if url == "" then None else Some(url))
    case PostFailed => Start(posted, None)
    case Stuck(stuck) =>
      if stuck == "" then Start(posted, None)
      else
        var cleared := posted + [Fetch(stuck)];
        if w.fetch(cleared).FetchFailed? then Start(cleared, None)
        else
          var again := cleared + [Post];
          match w.post(again)
          case Started(url) => Start(again, if url == "" then None else Some(url))
          case _ => Start(again, None)
  }

  function Fetches(n: nat, url: string): seq<Call> {
    seq(n, _ => Fetch(url))
  }

  /** The answer to fetch k of a location, counted from 0. */
  function AnswerAt<R>(w: World<R>, past: seq<Call>, url: string, k: nat): FetchReply<R> {
    w.fetch(past + Fetches(k + 1, url))
  }

  /** The await phase is the shared polling loop on this one location. */
  function AwaitWorld<R>(w: World<R>, past: seq<Call>, url: string): Polling.World<FetchReply<R>> {
    Polling.World((k: nat) => AnswerAt(w, past, url, k), w.latency, w.oversleep, w.cut)
  }

  function Judge<R>(r: FetchReply<R>): Polling.Verdict {
    match r
    case File(_) => Polling.Settled
    case Generating => Polling.Working
    case FetchFailed => Polling.Broken
  }

  datatype Report<R> = Report(calls: seq<Call>, rows: Option<R>)

  /** One start-await cycle. */
  function RunReport<R>(w: World<R>, o: Polling.Options, past: seq<Call>): Report<R>
    requires o.initialDelay > 0
  {
    var start := StartReport(w, past);
    if start.url.None? then Report(start.calls, None)
    else
      var url := start.url.value;
      var t := Polling.Polls(o, AwaitWorld(w, start.calls, url), (r: FetchReply<R>) => Judge(r), 0, 0, o.initialDelay);
      var calls := start.calls + Fetches(t.polls, url);
      Report(calls, if t.end.Finished? && w.fetch(calls).File? then Some(w.fetch(calls).rows) else None)
  }

  class Account<!R> {
    const w: World<R>
    var calls: seq<Call>

    constructor (w: World<R>, past: seq<Call>)
      ensures this.w == w && calls == past
    {
      this.w, calls := w, past;
    }

    method PostReport() returns (r: PostReply)
      modifies this
      ensures calls == old(calls) + [Post] && r == w.post(calls)
    {
      calls := calls + [Post];
      r := w.post(calls);
    }

    method Download(url: string) returns (r: FetchReply<R>)
      modifies this
      ensures calls == old(calls) + [Fetch(url)] && r == w.fetch(calls)
    {
      calls := calls + [Fetch(url)];
      r := w.fetch(calls);
    }

    /** Post; if an old report is in the way, fetch and discard it and post once more. */
    method Begin() returns (url: Option<string>)
      modifies this
      ensures StartReport(w, old(calls)) == Start(calls, url)
    {
      var start := PostReport();
      if start.Stuck? && start.url != "" {
        var clearing := Download(start.url);
        if clearing.FetchFailed? {
          return None;
        }
        start := PostReport();
      }
      if !start.Started? || start.url == "" {
        return None;
      }
      return Some(start.url);
    }

    /** Start, then poll the report's own location until it is there. */
    method Run(o: Polling.Options) returns (rows: Option<R>)
      requires o.initialDelay > 0
      modifies this
      ensures RunReport(w, o, old(calls)) == Report(calls, rows)
    {
      var url := Begin();
      if url.None? {
        return None;
      }
      var t := Polling.Poll(o, AwaitWorld(w, calls, url.value), (r: FetchReply<R>) => Judge(r));
      calls := calls + Fetches(t.polls, url.value);
      if t.end.Finished? && w.fetch(calls).File? {
        return Some(w.fetch(calls).rows);
      }
      return None;
    }
  }

  // ------------------------------------------------------------- properties

  function CountPosts(calls: seq<Call>): nat {
    if calls == [] then 0 else (if calls[|calls| - 1].Post? then 1 else 0) + CountPosts(calls[..|calls| - 1])
  }

  lemma {:induction false} PostsAppend(a: seq<Call>, b: seq<Call>)
    ensures CountPosts(a + b) == CountPosts(a) + CountPosts(b)
  {
    if b == [] {
      assert a + b == a;
    } else {
      PostsAppend(a, b[..|b| - 1]);
      assert (a + b)[..|a + b| - 1] == a + b[..|b| - 1];
    }
  }

  lemma {:induction false} FetchesArePure(n: nat, url: string)
    ensures CountPosts(Fetches(n, url)) == 0
  {
    if n > 0 {
      FetchesArePure(n - 1, url);
      assert Fetches(n, url)[..n - 1] == Fetches(n - 1, url);
    }
  }

  /** From any history, starting makes one post, or a post, one clearing fetch of
      the very location the refusal named, and at most one more post. */
  lemma StartBounded<R>(w: World<R>, past: seq<Call>)
    ensures var s := StartReport(w, past);
            || s.calls == past + [Post]
            || (w.post(past + [Post]).Stuck?
                && var stuck := Fetch(w.post(past + [Post]).url);
                   s.calls == past + [Post] + [stuck] || s.calls == past + [Post] + [stuck] + [Post])
    ensures var s := StartReport(w, past);
            s.url.Some? ==> s.url.value != "" && s.calls[|s.calls| - 1] == Post && w.post(s.calls) == Started(s.url.value)
  {
  }

  /** On every platform one report makes at most two posts; every fetch after the
      last post is of its own accepted location; and rows come only from there. */
  lemma ReportBounded<R>(w: World<R>, o: Polling.Options, past: seq<Call>)
    requires o.initialDelay > 0
    ensures var r := RunReport(w, o, past);
            var s := StartReport(w, past);
            && CountPosts(r.calls) <= CountPosts(past) + 2
            && (if s.url.None? then r.calls == s.calls && r.rows.None?
                else w.post(s.calls) == Started(s.url.value)
                     && exists n: nat :: n >= 1 && r.calls == s.calls + Fetches(n, s.url.value))
            && (r.rows.Some? ==> w.fetch(r.calls) == File(r.rows.value))
  {
    var s := StartReport(w, past);
    StartBounded(w, past);
    StartPosts(w, past);
    if s.url.Some? {
      var t := Polling.Polls(o, AwaitWorld(w, s.calls, s.url.value), (r: FetchReply<R>) => Judge(r), 0, 0, o.initialDelay);
      PostsAppend(s.calls, Fetches(t.polls, s.url.value));
      FetchesArePure(t.polls, s.url.value);
    }
  }

  lemma OneCall(past: seq<Call>, c: Call)
    ensures CountPosts(past + [c]) == CountPosts(past) + if c.Post? then 1 else 0
  {
    assert (past + [c])[..|past|] == past;
  }

  lemma StartPosts<R>(w: World<R>, past: seq<Call>)
    ensures CountPosts(StartReport(w, past).calls) <= CountPosts(past) + 2
  {
    OneCall(past, Post);
    var stuck := Fetch(if w.post(past + [Post]).Stuck? then w.post(past + [Post]).url else "");
    OneCall(past + [Post], stuck);
    OneCall(past + [Post] + [stuck], Post);
  }

  /** Rows are returned whenever the poll loop ends on the file: nothing is lost on the way. */
  lemma FinishedMeansRows<R>(w: World<R>, o: Polling.Options, past: seq<Call>)
    requires o.initialDelay > 0 && StartReport(w, past).url.Some?
    ensures var s := StartReport(w, past);
            var judge := (r: FetchReply<R>) => Judge(r);
            var t := Polling.Polls(o, AwaitWorld(w, s.calls, s.url.value), judge, 0, 0, o.initialDelay);
            RunReport(w, o, past).rows.Some? <==> t.end.Finished?
  {
    var s := StartReport(w, past);
    var world, judge := AwaitWorld(w, s.calls, s.url.value), (r: FetchReply<R>) => Judge(r);
    var t := Polling.Polls(o, world, judge, 0, 0, o.initialDelay);
    Polling.LastPollDecides(o, world, judge);
    assert world.reply(t.polls - 1) == AnswerAt(w, s.calls, s.url.value, t.polls - 1);
  }

  /** After fetch i the report is still being generated, within the budget and not cut off. */
  predicate FetchesOn<R>(w: World<R>, o: Polling.Options, past: seq<Call>, url: string, i: nat) {
    && AnswerAt(w, past, url, i).Generating?
    && Polling.Elapsed(o, AwaitWorld(w, past, url), i) <= o.maxWait
    && !w.cut(i)
  }

  lemma GoesOnMeans<R>(w: World<R>, o: Polling.Options, past: seq<Call>, url: string, i: nat)
    ensures Polling.GoesOn(o, AwaitWorld(w, past, url), (r: FetchReply<R>) => Judge(r), i) <==> FetchesOn(w, o, past, url, i)
  {
    assert AwaitWorld(w, past, url).reply(i) == AnswerAt(w, past, url, i);
  }

  lemma AwaitEnds<R>(w: World<R>, o: Polling.Options, past: seq<Call>, url: string) returns (t: Polling.Trace)
    requires o.initialDelay > 0
    ensures t == Polling.Polls(o, AwaitWorld(w, past, url), (r: FetchReply<R>) => Judge(r), 0, 0, o.initialDelay)
    ensures forall i | 0 <= i < t.polls - 1 :: FetchesOn(w, o, past, url, i)
    ensures !FetchesOn(w, o, past, url, t.polls - 1)
    ensures t.end.Finished? <==> AnswerAt(w, past, url, t.polls - 1).File?
  {
    var world, judge := AwaitWorld(w, past, url), (r: FetchReply<R>) => Judge(r);
    t := Polling.Polls(o, world, judge, 0, 0, o.initialDelay);
    Polling.LastPollDecides(o, world, judge);
    forall i: nat ensures Polling.GoesOn(o, world, judge, i) <==> FetchesOn(w, o, past, url, i) {
      GoesOnMeans(w, o, past, url, i);
    }
    assert world.reply(t.polls - 1) == AnswerAt(w, past, url, t.polls - 1);
  }

  /** The await phase, exactly, on the platform's own answers: it fetches on while
      the report is still being generated, the budget lasts and the context does;
      rows are returned exactly when the last fetch is answered with the file. */
  lemma AwaitExactly<R>(w: World<R>, o: Polling.Options, past: seq<Call>) returns (n: nat)
    requires o.initialDelay > 0 && StartReport(w, past).url.Some?
    ensures var s, r := StartReport(w, past), RunReport(w, o, past);
            var url := s.url.value;
            && n >= 1 && r.calls == s.calls + Fetches(n, url)
            && (forall i | 0 <= i < n - 1 :: FetchesOn(w, o, s.calls, url, i))
            && !FetchesOn(w, o, s.calls, url, n - 1)
            && match AnswerAt(w, s.calls, url, n - 1)
               case File(rows) => r.rows == Some(rows)
               case _ => r.rows == None
  {
    var s := StartReport(w, past);
    var t := AwaitEnds(w, o, s.calls, s.url.value);
    n := t.polls;
  }

  // ------------------------------------- a platform with one report at a time

  /** `slot` is the report outstanding after some calls: a post is refused with its
      location while there is one, and otherwise starts another. */
  predicate SlotRule<R>(w: World<R>, slot: seq<Call> -> Option<string>, h: seq<Call>) {
    match slot(h)
    case Some(u) => u != "" && w.post(h + [Post]) == Stuck(u)
    case None =>
      && w.post(h + [Post]).Started? && w.post(h + [Post]).url != ""
      && slot(h + [Post]) == Some(w.post(h + [Post]).url)
  }

  ghost predicate OneOutstanding<R(!new)>(w: World<R>, slot: seq<Call> -> Option<string>) {
    forall h: seq<Call> :: SlotRule(w, slot, h)
  }

  /** From any starting state: a report can be started exactly when none is
      outstanding, or the one clearing fetch succeeds and empties the slot. */
  lemma RecoveryExact<R(!new)>(w: World<R>, slot: seq<Call> -> Option<string>, past: seq<Call>)
    requires OneOutstanding(w, slot)
    ensures StartReport(w, past).url.Some? <==>
              || slot(past).None?
              || var cleared := past + [Post] + [Fetch(slot(past).value)];
                 !w.fetch(cleared).FetchFailed? && slot(cleared).None?
    ensures StartReport(w, past).url.Some? ==> slot(StartReport(w, past).calls) == StartReport(w, past).url
  {
    assert SlotRule(w, slot, past);
    if slot(past).Some? {
      assert SlotRule(w, slot, past + [Post] + [Fetch(slot(past).value)]);
    }
  }
}
