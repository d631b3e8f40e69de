/** Paginated queries: follow the tokens to the end, or fail with nothing. */
module Pages {
  import opened Prelude

  datatype Page<T> = Page(total: int, token: string, rows: seq<T>)

  datatype Request = First | More(token: string)

  datatype Reply<T> = Answer(page: Page<T>) | Refusal

  /** An adversarial platform: its reply to a request may depend on every request
      so far, the last of which is the one being answered. */
  type Platform<!T> = seq<Request> -> Reply<T>

  datatype PageEvent = PageEvent(done: nat, total: int, more: bool)

  datatype Outcome<T> = Rows(rows: seq<T>) | Failed | Truncated(collected: nat, total: int)

  /** The pages a crawl collects, and whether it reached one without a token. */
  datatype Crawl<T> = Crawl(pages: seq<Page<T>>, complete: bool)

  /** Following the tokens from request `req`; the platform stops answering after
      `horizon` requests, which is all that bounds the crawl. */
  function Follow<T>(p: Platform<T>, past: seq<Request>, req: Request, horizon: nat): Crawl<T>
    decreases horizon - |past|
  {
    if |past| >= horizon then Crawl([], false)
    else
      match p(past + [req])
      case Refusal => Crawl([], false)
      case Answer(page) =>
        if page.token == "" then Crawl([page], true)
        else
          var rest := Follow(p, past + [req], More(page.token), horizon);
          Crawl([page] + rest.pages, rest.complete)
  }

  function AllRows<T>(pages: seq<Page<T>>): seq<T> {
    if pages == [] then [] else pages[0].rows + AllRows(pages[1..])
  }

  /** Rows only when the crawl is complete and agrees with the first page's total. */
  function Verdict<T>(c: Crawl<T>): Outcome<T>
    requires c.complete ==> c.pages != []
  {
    if !c.complete then Failed
    else
      var rows := AllRows(c.pages);
      if |rows| == c.pages[0].total then Rows(rows) else Truncated(|rows|, c.pages[0].total)
  }

  lemma {:induction false} CrawlEnds<T>(p: Platform<T>, past: seq<Request>, req: Request, horizon: nat)
    ensures var c := Follow(p, past, req, horizon);
            && (c.complete <==> c.pages != [] && c.pages[|c.pages| - 1].token == "")
            && forall i | 0 <= i < |c.pages| - 1 :: c.pages[i].token != ""
    decreases horizon - |past|
  {
    if |past| < horizon && p(past + [req]).Answer? && p(past + [req]).page.token != "" {
      CrawlEnds(p, past + [req], More(p(past + [req]).page.token), horizon);
    }
  }

  /** The whole call: crawl, then verdict. */
  function Fetched<T>(p: Platform<T>, horizon: nat): Outcome<T> {
    CrawlEnds(p, [], First, horizon);
    Verdict(Follow(p, [], First, horizon))
  }

  /** One event per collected page: rows so far, the first page's total, whether a token remains. */
  function EventsFrom<T>(done: nat, total: int, pages: seq<Page<T>>): seq<PageEvent>
    decreases pages
  {
    if pages == [] then []
    else
      var now := done + |pages[0].rows|;
      [PageEvent(now, total, pages[0].token != "")] + EventsFrom(now, total, pages[1..])
  }

  function EventsOf<T>(pages: seq<Page<T>>): seq<PageEvent> {
    if pages == [] then [] else EventsFrom(0, pages[0].total, pages)
  }

  /** Event k reports the prefix sum of the first k + 1 pages. */
  lemma {:induction false} EventsArePrefixSums<T>(done: nat, total: int, pages: seq<Page<T>>, k: nat)
    requires k < |pages|
    ensures |EventsFrom(done, total, pages)| == |pages|
    ensures EventsFrom(done, total, pages)[k]
            == PageEvent(done + |AllRows(pages[..k + 1])|, total, pages[k].token != "")
    decreases pages
  {
    var rest := pages[1..];
    if k == 0 {
      assert pages[..1] == [pages[0]] + [];
      Unfold(pages[0], []);
      if rest != [] {
        EventsArePrefixSums(done + |pages[0].rows|, total, rest, 0);
      }
    } else {
      EventsArePrefixSums(done + |pages[0].rows|, total, rest, k - 1);
      assert pages[..k + 1] == [pages[0]] + rest[..k];
      Unfold(pages[0], rest[..k]);
    }
  }

  /** The events of a query: rows so far, the first page's total, whether more are to come. */
  lemma QueryEvents<T>(pages: seq<Page<T>>, k: nat)
    requires k < |pages|
    ensures |EventsOf(pages)| == |pages|
    ensures EventsOf(pages)[k] == PageEvent(|AllRows(pages[..k + 1])|, pages[0].total, pages[k].token != "")
  {
    EventsArePrefixSums(0, pages[0].total, pages, k);
  }

  /** The requests of a crawl: the query, then one queryMore per token received. */
  function RequestsOf<T>(pages: seq<Page<T>>): seq<Request> {
    [First] + TokensOf(pages)
  }

  function TokenRequest(token: string): seq<Request> {
    if token == "" then [] else [More(token)]
  }

  function TokensOf<T>(pages: seq<Page<T>>): seq<Request> {
    if pages == [] then [] else TokenRequest(pages[0].token) + TokensOf(pages[1..])
  }

  lemma Unfold<T>(page: Page<T>, rest: seq<Page<T>>)
    ensures AllRows([page] + rest) == page.rows + AllRows(rest)
    ensures TokensOf([page] + rest) == TokenRequest(page.token) + TokensOf(rest)
    ensures forall done: nat, total ::
              EventsFrom(done, total, [page] + rest)
              == [PageEvent(done + |page.rows|, total, page.token != "")] + EventsFrom(done + |page.rows|, total, rest)
  {
    assert ([page] + rest)[1..] == rest;
  }

  /** What is still to come when `past` has been asked and `token` was the last one received. */
  function Remaining<T>(p: Platform<T>, past: seq<Request>, token: string, horizon: nat): Crawl<T> {
    if token == "" then Crawl([], true) else Follow(p, past, More(token), horizon)
  }

  lemma CrawlStep<T>(p: Platform<T>, past: seq<Request>, req: Request, horizon: nat)
    requires |past| < horizon && p(past + [req]).Answer?
    ensures var page := p(past + [req]).page;
            var rest := Remaining(p, past + [req], page.token, horizon);
            Follow(p, past, req, horizon) == Crawl([page] + rest.pages, rest.complete)
  {
    var page := p(past + [req]).page;
    assert [page] + [] == [page];
  }

  /** The whole of a crawl, seen after some pages: rows, events and requests so
      far, followed by those of what remains. */
  ghost predicate Accounts<T>(goal: Crawl<T>, results: seq<T>, total: int, events: seq<PageEvent>,
                              requests: seq<Request>, rest: Crawl<T>)
  {
    && goal.pages != [] && goal.pages[0].total == total && goal.complete == rest.complete
    && AllRows(goal.pages) == results + AllRows(rest.pages)
    && EventsOf(goal.pages) == events + EventsFrom(|results|, total, rest.pages)
    && RequestsOf(goal.pages) == requests + TokensOf(rest.pages)
  }

  lemma Account<T>(goal: Crawl<T>, results: seq<T>, total: int, events: seq<PageEvent>, requests: seq<Request>,
                   page: Page<T>, rest: Crawl<T>)
    requires Accounts(goal, results, total, events, requests, Crawl([page] + rest.pages, rest.complete))
    ensures Accounts(goal, results + page.rows, total,
                     events + [PageEvent(|results + page.rows|, total, page.token != "")],
                     requests + TokenRequest(page.token), rest)
  {
    Unfold(page, rest.pages);
    Assoc(results, page.rows, AllRows(rest.pages));
    var now := |results + page.rows|;
    Assoc(events, [PageEvent(now, total, page.token != "")], EventsFrom(now, total, rest.pages));
    Assoc(requests, TokenRequest(page.token), TokensOf(rest.pages));
  }

  /** The platform and the record of one call on it. */
  class Connection<!T> {
    const platform: Platform<T>
    var requests: seq<Request>
    var events: seq<PageEvent>

    constructor (platform: Platform<T>)
      ensures this.platform == platform && requests == [] && events == []
    {
      this.platform, requests, events := platform, [], [];
    }

    method Ask(req: Request, horizon: nat) returns (r: Reply<T>)
      modifies this`requests
      ensures requests == old(requests) + [req]
      ensures r == if |old(requests)| >= horizon then Refusal else platform(requests)
    {
      requests := requests + [req];
      r := if |requests| > horizon then Refusal else platform(requests);
    }

    /** Pagination completes or fails: on any platform the outcome, the events and
        the requests are those of the crawl, and an error carries no rows. */
    method QueryAll(horizon: nat) returns (outcome: Outcome<T>)
      requires requests == [] && events == []
      modifies this
      ensures var c := Follow(platform, [], First, horizon);
              && outcome == Fetched(platform, horizon)
              && events == EventsOf(c.pages)
              && requests == RequestsOf(c.pages)
    {
      ghost var goal := Follow(platform, [], First, horizon);
      CrawlEnds(platform, [], First, horizon);
      var first := Ask(First, horizon);
      assert [] + [First] == [First];
      if first.Refusal? {
        return Failed;
      }
      var total, token, results := first.page.total, first.page.token, first.page.rows;
      events := events + [PageEvent(|results|, total, token != "")];
      CrawlStep(platform, [], First, horizon);
      ghost var left := Remaining(platform, requests, token, horizon);
      Unfold(first.page, left.pages);
      assert Accounts(goal, [], total, [], [First], goal);
      Account(goal, [], total, [], [First], first.page, left);
      assert [] + results == results;
      while token != ""
        invariant Accounts(goal, results, total, events, requests + TokenRequest(token),
                           Remaining(platform, requests, token, horizon))
        decreases token != "", Max(0, horizon - |requests|)
      {
        ghost var past := requests;
        var next := Ask(More(token), horizon);
        if next.Refusal? {
          assert requests + [] == requests && events + [] == events;
          return Failed;
        }
        CrawlStep(platform, past, More(token), horizon);
        Account(goal, results, total, events, requests, next.page,
                Remaining(platform, requests, next.page.token, horizon));
        results := results + next.page.rows;
        token := next.page.token;
        events := events + [PageEvent(|results|, total, token != "")];
      }
      assert results + [] == results && requests + [] == requests && events + [] == events;
      if |results| != total {
        return Truncated(|results|, total);
      }
      return Rows(results);
    }
  }

  // -------------------------------------------------- the honest platform

  /** The requests of an undisturbed crawl up to the one for page i. */
  function Chain(tokens: seq<string>, i: nat): seq<Request>
    requires i <= |tokens|
  {
    if i == 0 then [First] else Chain(tokens, i - 1) + [More(tokens[i - 1])]
  }

  /** Page i answers the chain of requests that leads to it; only the first page's
      total must be that of the list. */
  predicate ServedAt<T(==)>(p: Platform<T>, cuts: seq<seq<T>>, tokens: seq<string>, i: nat)
    requires i < |cuts| == |tokens| + 1
  {
    var reply := p(Chain(tokens, i));
    && reply.Answer?
    && reply.page.rows == cuts[i]
    && reply.page.token == (if i < |tokens| then tokens[i] else "")
    && (i == 0 ==> reply.page.total == |Flatten(cuts)|)
  }

  /** Does this platform hold the list `Flatten(cuts)`, served in these cuts and
      chained by these tokens? Tokens may repeat: each reply may depend on the
      whole history, and nothing is asked of histories off the chain. */
  ghost predicate Serves<T>(p: Platform<T>, cuts: seq<seq<T>>, tokens: seq<string>) {
    && |cuts| == |tokens| + 1
    && (forall i | 0 <= i < |tokens| :: tokens[i] != "")
    && forall i: nat | i < |cuts| :: ServedAt(p, cuts, tokens, i)
  }

  /** From page i on, the crawl collects the rest of the list. */
  lemma {:induction false} CrawlServes<T>(p: Platform<T>, cuts: seq<seq<T>>, tokens: seq<string>,
                                          past: seq<Request>, req: Request, i: nat, horizon: nat)
    requires Serves(p, cuts, tokens) && i < |cuts| <= horizon
    requires past + [req] == Chain(tokens, i) && |past| == i
    ensures var c := Follow(p, past, req, horizon);
            && c.complete && c.pages != []
            && AllRows(c.pages) == Flatten(cuts[i..])
            && c.pages[0] == p(Chain(tokens, i)).page
    decreases |cuts| - i
  {
    assert ServedAt(p, cuts, tokens, i);
    CrawlStep(p, past, req, horizon);
    FlattenFrom(cuts, i);
    var h := past + [req];
    if i < |tokens| {
      assert h + [More(tokens[i])] == Chain(tokens, i + 1);
      CrawlServes(p, cuts, tokens, h, More(tokens[i]), i + 1, horizon);
      Unfold(p(h).page, Follow(p, h, More(tokens[i]), horizon).pages);
    } else {
      Unfold(p(h).page, []);
    }
  }

  lemma FlattenFrom<T>(cuts: seq<seq<T>>, i: nat)
    requires i < |cuts|
    ensures Flatten(cuts[i..]) == cuts[i] + Flatten(cuts[i + 1..])
    ensures i + 1 == |cuts| ==> Flatten(cuts[i + 1..]) == []
  {
    assert cuts[i..][1..] == cuts[i + 1..];
  }

  /** For any list and any way of cutting it into token-chained pages, empty pages
      and repeated tokens included, pagination returns exactly that list. */
  lemma QueryAllIsFetch<T>(p: Platform<T>, cuts: seq<seq<T>>, tokens: seq<string>, horizon: nat)
    requires Serves(p, cuts, tokens) && horizon >= |cuts|
    ensures Fetched(p, horizon) == Rows(Flatten(cuts))
  {
    assert [] + [First] == Chain(tokens, 0);
    CrawlServes(p, cuts, tokens, [], First, 0, horizon);
    assert ServedAt(p, cuts, tokens, 0);
    assert cuts[0..] == cuts;
  }

  /** Against any platform: rows are returned exactly when the crawl met a page
      without a token, before any refusal, and the rows of all its pages number
      what the first page reported; with another number the query is truncated,
      and without such a page it has failed. */
  lemma RowsExactlyWhenWhole<T>(p: Platform<T>, horizon: nat)
    ensures var pages := Follow(p, [], First, horizon).pages;
            var whole := pages != [] && pages[|pages| - 1].token == "";
            && (Fetched(p, horizon).Failed? <==> !whole)
            && (whole ==>
                  var rows, total := AllRows(pages), pages[0].total;
                  Fetched(p, horizon) == if |rows| == total then Rows(rows) else Truncated(|rows|, total))
  {
    CrawlEnds(p, [], First, horizon);
  }

  /** The requests of a crawl: the query first, then one request for each token
      received, in order; so a whole crawl sends as many requests as it has pages. */
  lemma {:induction false} RequestsFollowTokens<T>(pages: seq<Page<T>>, k: nat)
    requires forall i | 0 <= i < |pages| - 1 :: pages[i].token != ""
    requires k < |pages| && pages[k].token != ""
    ensures |TokensOf(pages)| == |pages| - (if pages[|pages| - 1].token == "" then 1 else 0)
    ensures TokensOf(pages)[k] == More(pages[k].token)
  {
    var rest := pages[1..];
    if rest == [] {
      assert TokensOf(rest) == [];
    } else if k == 0 {
      if rest[0].token != "" {
        RequestsFollowTokens(rest, 0);
      } else {
        assert |rest| == 1 && rest == [rest[0]] + [];
        Unfold(rest[0], []);
      }
    } else {
      RequestsFollowTokens(rest, k - 1);
    }
  }
}
