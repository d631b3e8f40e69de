/** Bulk fetch by id, in chunks of at most a hundred, complete or failed. */
module Bulk {
  import opened Prelude

  const BULK_CHUNK := 100
  const STATUS_OK := 200

  /** One entry of a reply; no result stands for an absent or empty one. */
  datatype Entry<R> = Entry(status: int, result: Option<R>)

  datatype Reply<R> = Entries(entries: seq<Entry<R>>) | Refusal

  datatype Miss = Miss(id: string, status: int)

  /** Results and misses, or the reason there are none. */
  datatype Outcome<T> =
    | Done(results: seq<T>, misses: seq<Miss>)
    | Refused
    | Truncated(entries: nat, ids: nat)
    | Undecodable(id: string)

  /** An adversarial platform: the reply to a bulk request may depend on all requests so far. */
  type Platform<!R> = seq<seq<string>> -> Reply<R>

  predicate IsMiss<R>(e: Entry<R>) {
    e.status != STATUS_OK || e.result.None?
  }

  /** Puts one more outcome behind what is already there. */
  function Join<T>(a: Outcome<T>, b: Outcome<T>): Outcome<T> {
    if !a.Done? then a
    else if !b.Done? then b
    else Done(a.results + b.results, a.misses + b.misses)
  }

  /** One pass over the per-id answers, in order: the unchunked call. */
  function OnePass<R, T>(ids: seq<string>, entries: seq<Entry<R>>, decode: R -> Option<T>): Outcome<T>
    requires |ids| == |entries|
  {
    if ids == [] then Done([], [])
    else
      var rest := OnePass(ids[1..], entries[1..], decode);
      Join(OneEntry(ids[0], entries[0], decode), rest)
  }

  function OneEntry<R, T>(id: string, e: Entry<R>, decode: R -> Option<T>): Outcome<T> {
    if IsMiss(e) then Done([], [Miss(id, e.status)])
    else match decode(e.result.value)
      case Some(item) => Done([item], [])
      case None => Undecodable(id)
  }

  function OneChunk<R, T>(ids: seq<string>, reply: Reply<R>, decode: R -> Option<T>): Outcome<T> {
    match reply
    case Refusal => Refused
    case Entries(entries) =>
      if |entries| != |ids| then Truncated(|entries|, |ids|) else OnePass(ids, entries, decode)
  }

  /** Chunk after chunk; the first failure is the outcome and ends the calls. */
  function AllChunks<R, T>(p: Platform<R>, past: seq<seq<string>>, chunks: seq<seq<string>>, decode: R -> Option<T>): Outcome<T>
    decreases chunks
  {
    if chunks == [] then Done([], [])
    else
      var now := past + [chunks[0]];
      Join(OneChunk(chunks[0], p(now), decode), AllChunks(p, now, chunks[1..], decode))
  }

  lemma JoinAssoc<T>(a: Outcome<T>, b: Outcome<T>, c: Outcome<T>)
    ensures Join(a, Join(b, c)) == Join(Join(a, b), c)
    ensures Join(Done([], []), a) == a
    ensures Join(a, Done([], [])) == a
  {
    if a.Done? {
      assert [] + a.results == a.results == a.results + [] && [] + a.misses == a.misses == a.misses + [];
      if b.Done? && c.Done? {
        assert a.results + (b.results + c.results) == a.results + b.results + c.results;
        assert a.misses + (b.misses + c.misses) == a.misses + b.misses + c.misses;
      }
    }
  }

  // ------------------------------------------------------------- the methods

  /** One bulk call, its entries taken in order. */
  method BulkChunkGet<R, T>(ids: seq<string>, reply: Reply<R>, decode: R -> Option<T>) returns (outcome: Outcome<T>)
    ensures outcome == OneChunk(ids, reply, decode)
  {
    if reply.Refusal? {
      return Refused;
    }
    var entries := reply.entries;
    if |entries| != |ids| {
      return Truncated(|entries|, |ids|);
    }
    var results: seq<T>, misses: seq<Miss> := [], [];
    var i := 0;
    assert ids[0..] == ids && entries[0..] == entries;
    JoinAssoc(OnePass(ids, entries, decode), Done([], []), Done([], []));
    while i < |entries|
      invariant 0 <= i <= |entries|
      invariant OnePass(ids, entries, decode) == Join(Done(results, misses), OnePass(ids[i..], entries[i..], decode))
    {
      var e := entries[i];
      ghost var one, rest := OneEntry(ids[i], e, decode), OnePass(ids[i + 1..], entries[i + 1..], decode);
      assert ids[i..][1..] == ids[i + 1..] && entries[i..][1..] == entries[i + 1..];
      JoinAssoc(Done(results, misses), one, rest);
      if IsMiss(e) {
        misses := misses + [Miss(ids[i], e.status)];
        assert results + [] == results;
      } else {
        var item := decode(e.result.value);
        if item.None? {
          return Undecodable(ids[i]);
        }
        results := results + [item.value];
        assert misses + [] == misses;
      }
      i := i + 1;
    }
    JoinAssoc(Done(results, misses), Done([], []), Done([], []));
    return Done(results, misses);
  }

  datatype PageEvent = PageEvent(done: nat, total: nat, more: bool)

  class Connection<!R> {
    const platform: Platform<R>
    var requests: seq<seq<string>>
    var events: seq<PageEvent>

    constructor (platform: Platform<R>)
      ensures this.platform == platform && requests == [] && events == []
    {
      this.platform, requests, events := platform, [], [];
    }

    /** One bulk call, recorded. */
    method Ask<T>(chunk: seq<string>, decode: R -> Option<T>) returns (got: Outcome<T>)
      modifies this`requests
      ensures requests == old(requests) + [chunk]
      ensures got == OneChunk(chunk, platform(requests), decode)
    {
      requests := requests + [chunk];
      got := BulkChunkGet(chunk, platform(requests), decode);
    }

    /** The chunk loop: its outcome is that of the chunks in order, the requests
        sent are a prefix of the chunks (all of them on success, and none after the
        first failure), and each chunk that succeeded was reported. */
    method BulkGet<T>(ids: seq<string>, decode: R -> Option<T>) returns (outcome: Outcome<T>)
      requires requests == [] && events == []
      modifies this
      ensures outcome == AllChunks(platform, [], Chunks(ids, BULK_CHUNK), decode)
      ensures requests <= Chunks(ids, BULK_CHUNK)
      ensures outcome.Done? ==> requests == Chunks(ids, BULK_CHUNK) && events == EventsFor(|requests|, |ids|)
      ensures !outcome.Done? ==>
                && requests != [] && events == EventsFor(|requests| - 1, |ids|)
                && outcome == OneChunk(requests[|requests| - 1], platform(requests), decode)
    {
      var results: seq<T>, misses: seq<Miss> := [], [];
      var start := 0;
      ghost var chunks := Chunks(ids, BULK_CHUNK);
      Starts(platform, chunks, decode);
      assert ids[0..] == ids;
      while start < |ids|
        invariant start == |requests| * BULK_CHUNK
        invariant Chunked(platform, chunks, requests, ChunksFrom(ids, start, BULK_CHUNK), Done(results, misses), decode)
        invariant events == EventsFor(|requests|, |ids|)
      {
        var end := Min(start + BULK_CHUNK, |ids|);
        var chunk := ids[start..end];
        ChunkStep(platform, chunks, requests, ids, start, Done(results, misses), decode);
        var got := Ask(chunk, decode);
        if !got.Done? {
          return got;
        }
        results, misses := results + got.results, misses + got.misses;
        events := events + [PageEvent(end, |ids|, end < |ids|)];
        start := start + BULK_CHUNK;
      }
      Ends(platform, chunks, requests, Done(results, misses), decode);
      return Done(results, misses);
    }
  }

  /** The whole call, seen after some chunks: requests so far and outcome so far,
      followed by those of the chunks that remain. */
  ghost predicate Chunked<R, T>(p: Platform<R>, chunks: seq<seq<string>>, requests: seq<seq<string>>,
                                rest: seq<seq<string>>, done: Outcome<T>, decode: R -> Option<T>)
  {
    && requests + rest == chunks
    && AllChunks(p, [], chunks, decode) == Join(done, AllChunks(p, requests, rest, decode))
  }

  lemma Starts<R, T>(p: Platform<R>, chunks: seq<seq<string>>, decode: R -> Option<T>)
    ensures Chunked(p, chunks, [], chunks, Done([], []), decode)
  {
    assert [] + chunks == chunks;
    JoinAssoc(AllChunks(p, [], chunks, decode), Done([], []), Done([], []));
  }

  lemma Ends<R, T>(p: Platform<R>, chunks: seq<seq<string>>, requests: seq<seq<string>>, done: Outcome<T>, decode: R -> Option<T>)
    requires Chunked(p, chunks, requests, [], done, decode)
    ensures requests == chunks && AllChunks(p, [], chunks, decode) == done
  {
    assert requests + [] == requests;
    JoinAssoc(done, Done([], []), Done([], []));
  }

  lemma Advance<R, T>(p: Platform<R>, chunks: seq<seq<string>>, requests: seq<seq<string>>, chunk: seq<string>,
                      after: seq<seq<string>>, done: Outcome<T>, decode: R -> Option<T>)
    requires done.Done? && Chunked(p, chunks, requests, [chunk] + after, done, decode)
    ensures var got := OneChunk(chunk, p(requests + [chunk]), decode);
            && requests + [chunk] <= chunks
            && (!got.Done? ==> AllChunks(p, [], chunks, decode) == got)
            && (got.Done? ==> Chunked(p, chunks, requests + [chunk], after, Join(done, got), decode))
  {
    var now := requests + [chunk];
    assert requests + ([chunk] + after) == now + after;
    assert ([chunk] + after)[1..] == after;
    JoinAssoc(done, OneChunk(chunk, p(now), decode), AllChunks(p, now, after, decode));
  }

  lemma ChunkStep<R, T>(p: Platform<R>, chunks: seq<seq<string>>, requests: seq<seq<string>>, ids: seq<string>,
                        start: nat, done: Outcome<T>, decode: R -> Option<T>)
    requires start < |ids| && done.Done?
    requires Chunked(p, chunks, requests, ChunksFrom(ids, start, BULK_CHUNK), done, decode)
    ensures var chunk := ids[start..Min(start + BULK_CHUNK, |ids|)];
            var got := OneChunk(chunk, p(requests + [chunk]), decode);
            && requests + [chunk] <= chunks
            && (!got.Done? ==> AllChunks(p, [], chunks, decode) == got)
            && (got.Done? ==>
                  Chunked(p, chunks, requests + [chunk], ChunksFrom(ids, start + BULK_CHUNK, BULK_CHUNK), Join(done, got), decode))
  {
    var chunk := ids[start..Min(start + BULK_CHUNK, |ids|)];
    NextChunk(ids, start, BULK_CHUNK);
    Advance(p, chunks, requests, chunk, ChunksFrom(ids, start + BULK_CHUNK, BULK_CHUNK), done, decode);
  }

  /** The events of the first k chunks of n ids. */
  function EventsFor(k: nat, n: nat): seq<PageEvent> {
    if k == 0 then []
    else EventsFor(k - 1, n) + [PageEvent(Min(k * BULK_CHUNK, n), n, k * BULK_CHUNK < n)]
  }

  lemma {:induction false} EventAt(k: nat, count: nat, n: nat)
    requires k < count
    ensures |EventsFor(count, n)| == count
    ensures EventsFor(count, n)[k] == PageEvent(Min((k + 1) * BULK_CHUNK, n), n, (k + 1) * BULK_CHUNK < n)
  {
    if k == count - 1 {
      if k > 0 {
        EventAt(k - 1, k, n);
      }
    } else {
      EventAt(k, count - 1, n);
    }
  }

  /** Event k reports the ids of the first k + 1 chunks, all ids, and whether a chunk is left. */
  lemma EventsCountIds(ids: seq<string>, k: nat, count: nat)
    requires k < count <= |Chunks(ids, BULK_CHUNK)|
    ensures |EventsFor(count, |ids|)| == count
    ensures EventsFor(count, |ids|)[k]
            == PageEvent(|Flatten(Chunks(ids, BULK_CHUNK)[..k + 1])|, |ids|, k + 1 < |Chunks(ids, BULK_CHUNK)|)
  {
    EventAt(k, count, |ids|);
    ChunksPrefix(ids, BULK_CHUNK, k + 1);
  }

  // -------------------------------------------------- chunks are invisible

  /** Every chunk was answered, with one entry per id; these are all the entries in order. */
  ghost predicate WellAnswered<R(!new)>(p: Platform<R>, past: seq<seq<string>>, chunks: seq<seq<string>>, entries: seq<Entry<R>>)
    decreases chunks
  {
    if chunks == [] then entries == []
    else
      var now := past + [chunks[0]];
      && p(now).Entries? && |p(now).entries| == |chunks[0]| <= |entries|
      && p(now).entries == entries[..|chunks[0]|]
      && WellAnswered(p, now, chunks[1..], entries[|chunks[0]|..])
  }

  lemma {:induction false} OnePassSplits<R, T>(a: seq<string>, b: seq<string>, x: seq<Entry<R>>, y: seq<Entry<R>>, decode: R -> Option<T>)
    requires |a| == |x| && |b| == |y|
    ensures OnePass(a + b, x + y, decode) == Join(OnePass(a, x, decode), OnePass(b, y, decode))
  {
    if a == [] {
      assert a + b == b && x + y == y;
      JoinAssoc(OnePass(b, y, decode), Done([], []), Done([], []));
    } else {
      OnePassSplits(a[1..], b, x[1..], y, decode);
      assert (a + b)[1..] == a[1..] + b && (x + y)[1..] == x[1..] + y;
      JoinAssoc(OneEntry(a[0], x[0], decode), OnePass(a[1..], x[1..], decode), OnePass(b, y, decode));
    }
  }

  lemma {:induction false} WellAnsweredLength<R(!new)>(p: Platform<R>, past: seq<seq<string>>, chunks: seq<seq<string>>, entries: seq<Entry<R>>)
    requires WellAnswered(p, past, chunks, entries)
    ensures |entries| == |Flatten(chunks)|
    decreases chunks
  {
    if chunks != [] {
      WellAnsweredLength(p, past + [chunks[0]], chunks[1..], entries[|chunks[0]|..]);
    }
  }

  /** When every chunk is answered entry for entry, the outcome is one pass over
      all the answers: where the chunks begin and end cannot be seen. */
  lemma {:induction false} ChunksInvisible<R(!new), T>(p: Platform<R>, past: seq<seq<string>>, chunks: seq<seq<string>>,
                                                       entries: seq<Entry<R>>, decode: R -> Option<T>)
    requires WellAnswered(p, past, chunks, entries)
    ensures |entries| == |Flatten(chunks)|
    ensures AllChunks(p, past, chunks, decode) == OnePass(Flatten(chunks), entries, decode)
    decreases chunks
  {
    WellAnsweredLength(p, past, chunks, entries);
    if chunks != [] {
      var now, n := past + [chunks[0]], |chunks[0]|;
      ChunksInvisible(p, now, chunks[1..], entries[n..], decode);
      OnePassSplits(chunks[0], Flatten(chunks[1..]), entries[..n], entries[n..], decode);
      assert entries[..n] + entries[n..] == entries;
    }
  }

  /** Conversely, results are returned only when every chunk was answered entry for entry. */
  lemma {:induction false} DoneMeansAnswered<R(!new), T>(p: Platform<R>, past: seq<seq<string>>, chunks: seq<seq<string>>,
                                                         decode: R -> Option<T>) returns (entries: seq<Entry<R>>)
    requires AllChunks(p, past, chunks, decode).Done?
    ensures WellAnswered(p, past, chunks, entries)
    decreases chunks
  {
    if chunks == [] {
      entries := [];
    } else {
      var now := past + [chunks[0]];
      var rest := DoneMeansAnswered(p, now, chunks[1..], decode);
      entries := p(now).entries + rest;
      assert entries[|chunks[0]|..] == rest && entries[..|chunks[0]|] == p(now).entries;
    }
  }

  /** The entry carries a result: status 200 and one that is there. */
  predicate Present<R>(e: Entry<R>) {
    e.status == 200 && e.result.Some?
  }

  predicate Increasing(xs: seq<nat>) {
    forall i, j | 0 <= i < j < |xs| :: xs[i] < xs[j]
  }

  /** `hits` are the positions of the results, in order. */
  ghost predicate HitsAt<R, T>(entries: seq<Entry<R>>, decode: R -> Option<T>, results: seq<T>, hits: seq<nat>) {
    && |hits| == |results| && Increasing(hits)
    && forall k | 0 <= k < |hits| ::
         hits[k] < |entries| && Present(entries[hits[k]]) && decode(entries[hits[k]].result.value) == Some(results[k])
  }

  /** `lost` are the positions of the misses, in order. */
  ghost predicate LossesAt<R>(ids: seq<string>, entries: seq<Entry<R>>, misses: seq<Miss>, lost: seq<nat>)
    requires |ids| == |entries|
  {
    && |lost| == |misses| && Increasing(lost)
    && forall k | 0 <= k < |lost| ::
         lost[k] < |entries| && !Present(entries[lost[k]]) && misses[k] == Miss(ids[lost[k]], entries[lost[k]].status)
  }

  /** Results and misses are an order-preserving partition of the id positions. */
  ghost predicate Partition<R, T>(ids: seq<string>, entries: seq<Entry<R>>, decode: R -> Option<T>,
                                  results: seq<T>, misses: seq<Miss>, hits: seq<nat>, lost: seq<nat>)
    requires |ids| == |entries|
  {
    && HitsAt(entries, decode, results, hits)
    && LossesAt(ids, entries, misses, lost)
    && |hits| + |lost| == |ids|
  }

  function Shift(xs: seq<nat>): seq<nat> {
    seq(|xs|, i requires 0 <= i < |xs| => xs[i] + 1)
  }

  lemma ShiftHits<R, T>(e: Entry<R>, entries: seq<Entry<R>>, decode: R -> Option<T>, results: seq<T>, hits: seq<nat>)
    requires HitsAt(entries, decode, results, hits)
    ensures HitsAt([e] + entries, decode, results, Shift(hits))
    ensures !IsMiss(e) && decode(e.result.value).Some? ==>
              HitsAt([e] + entries, decode, [decode(e.result.value).value] + results, [0] + Shift(hits))
  {
    assert forall k | 0 <= k < |hits| :: ([e] + entries)[hits[k] + 1] == entries[hits[k]];
  }

  lemma ShiftLosses<R>(id: string, e: Entry<R>, ids: seq<string>, entries: seq<Entry<R>>, misses: seq<Miss>, lost: seq<nat>)
    requires |ids| == |entries| && LossesAt(ids, entries, misses, lost)
    ensures LossesAt([id] + ids, [e] + entries, misses, Shift(lost))
    ensures IsMiss(e) ==> LossesAt([id] + ids, [e] + entries, [Miss(id, e.status)] + misses, [0] + Shift(lost))
  {
    assert forall k | 0 <= k < |lost| :: ([e] + entries)[lost[k] + 1] == entries[lost[k]];
    assert forall k | 0 <= k < |lost| :: ([id] + ids)[lost[k] + 1] == ids[lost[k]];
  }

  lemma HitsCons<R, T>(id: string, e: Entry<R>, entries: seq<Entry<R>>, decode: R -> Option<T>, results: seq<T>, h: seq<nat>)
    returns (hits: seq<nat>)
    requires HitsAt(entries, decode, results, h) && OneEntry(id, e, decode).Done?
    ensures HitsAt([e] + entries, decode, OneEntry(id, e, decode).results + results, hits)
    ensures |hits| == |h| + if IsMiss(e) then 0 else 1
  {
    var all := OneEntry(id, e, decode).results + results;
    ShiftHits(e, entries, decode, results, h);
    if IsMiss(e) {
      hits := Shift(h);
      assert all == results;
    } else {
      hits := [0] + Shift(h);
      assert all == [decode(e.result.value).value] + results;
    }
  }

  lemma LossesCons<R, T>(id: string, e: Entry<R>, ids: seq<string>, entries: seq<Entry<R>>, decode: R -> Option<T>,
                         misses: seq<Miss>, l: seq<nat>)
    returns (lost: seq<nat>)
    requires |ids| == |entries| && LossesAt(ids, entries, misses, l) && OneEntry(id, e, decode).Done?
    ensures LossesAt([id] + ids, [e] + entries, OneEntry(id, e, decode).misses + misses, lost)
    ensures |lost| == |l| + if IsMiss(e) then 1 else 0
  {
    var all := OneEntry(id, e, decode).misses + misses;
    ShiftLosses(id, e, ids, entries, misses, l);
    if IsMiss(e) {
      lost := [0] + Shift(l);
      assert all == [Miss(id, e.status)] + misses;
    } else {
      lost := Shift(l);
      assert all == misses;
    }
  }

  /** One pass yields the order-preserving partition of the id positions into
      decoded results and misses; together they number the ids. */
  lemma {:induction false} OnePassPartitions<R, T>(ids: seq<string>, entries: seq<Entry<R>>, decode: R -> Option<T>)
    returns (hits: seq<nat>, lost: seq<nat>)
    requires |ids| == |entries| && OnePass(ids, entries, decode).Done?
    ensures var o := OnePass(ids, entries, decode);
            Partition(ids, entries, decode, o.results, o.misses, hits, lost)
  {
    if ids == [] {
      hits, lost := [], [];
    } else {
      var o := OnePass(ids[1..], entries[1..], decode);
      var h, l := OnePassPartitions(ids[1..], entries[1..], decode);
      hits := HitsCons(ids[0], entries[0], entries[1..], decode, o.results, h);
      lost := LossesCons(ids[0], entries[0], ids[1..], entries[1..], decode, o.misses, l);
      assert [ids[0]] + ids[1..] == ids && [entries[0]] + entries[1..] == entries;
    }
  }

  /** The whole call: on success it has sent ceil(n / 100) requests, and its results
      and misses are the order-preserving partition of the ids by their own answers. */
  lemma BulkGetCorrect<R(!new), T>(p: Platform<R>, ids: seq<string>, decode: R -> Option<T>)
    returns (entries: seq<Entry<R>>, hits: seq<nat>, lost: seq<nat>)
    requires AllChunks(p, [], Chunks(ids, BULK_CHUNK), decode).Done?
    ensures WellAnswered(p, [], Chunks(ids, BULK_CHUNK), entries) && |entries| == |ids|
    ensures var o := AllChunks(p, [], Chunks(ids, BULK_CHUNK), decode);
            && o == OnePass(ids, entries, decode)
            && Partition(ids, entries, decode, o.results, o.misses, hits, lost)
            && |o.results| + |o.misses| == |ids|
    ensures |ids| <= |Chunks(ids, BULK_CHUNK)| * 100 < |ids| + 100
    ensures forall c | c in Chunks(ids, BULK_CHUNK) :: 0 < |c| <= 100
  {
    var chunks := Chunks(ids, BULK_CHUNK);
    ChunksPartition(ids, BULK_CHUNK);
    entries := DoneMeansAnswered(p, [], chunks, decode);
    ChunksInvisible(p, [], chunks, entries, decode);
    hits, lost := OnePassPartitions(ids, entries, decode);
  }

  /** The first entry that is present but cannot be decoded, if any, is what a
      full-length reply fails on. */
  lemma {:induction false} FirstUndecodable<R, T>(ids: seq<string>, entries: seq<Entry<R>>, decode: R -> Option<T>) returns (i: nat)
    requires |ids| == |entries|
    ensures i <= |ids|
    ensures forall k | 0 <= k < i :: Present(entries[k]) ==> decode(entries[k].result.value).Some?
    ensures i < |ids| ==> Present(entries[i]) && decode(entries[i].result.value).None?
    ensures if i < |ids| then OnePass(ids, entries, decode) == Undecodable(ids[i]) else OnePass(ids, entries, decode).Done?
  {
    if ids == [] || OneEntry(ids[0], entries[0], decode).Undecodable? {
      i := 0;
    } else {
      var j := FirstUndecodable(ids[1..], entries[1..], decode);
      i := j + 1;
    }
  }

  /** How one chunk fails, exactly: refused, answered with another number of entries
      than ids, or with a first entry that cannot be decoded. */
  lemma ChunkFails<R, T>(ids: seq<string>, reply: Reply<R>, decode: R -> Option<T>) returns (i: nat)
    ensures var o := OneChunk(ids, reply, decode);
            match reply
            case Refusal => o == Refused
            case Entries(entries) =>
              if |entries| != |ids| then o == Truncated(|entries|, |ids|)
              else
                && i <= |ids|
                && (forall k | 0 <= k < i :: Present(entries[k]) ==> decode(entries[k].result.value).Some?)
                && (if i < |ids| then Present(entries[i]) && decode(entries[i].result.value).None? && o == Undecodable(ids[i])
                    else o.Done?)
  {
    i := 0;
    if reply.Entries? && |reply.entries| == |ids| {
      i := FirstUndecodable(ids, reply.entries, decode);
    }
  }

  lemma {:induction false} MisansweredFails<R, T>(p: Platform<R>, past: seq<seq<string>>, chunks: seq<seq<string>>, k: nat, decode: R -> Option<T>)
    requires k < |chunks|
    requires var reply := p(past + chunks[..k + 1]);
             reply.Refusal? || |reply.entries| != |chunks[k]|
    ensures !AllChunks(p, past, chunks, decode).Done?
    decreases chunks
  {
    if k == 0 {
      assert past + chunks[..1] == past + [chunks[0]];
    } else {
      assert past + chunks[..k + 1] == past + [chunks[0]] + chunks[1..][..k];
      MisansweredFails(p, past + [chunks[0]], chunks[1..], k - 1, decode);
    }
  }

  /** A short, long or missing reply to any chunk leaves no results at all. */
  lemma ShortReplyYieldsNothing<R, T>(p: Platform<R>, ids: seq<string>, k: nat, decode: R -> Option<T>)
    requires k < |Chunks(ids, BULK_CHUNK)|
    requires var chunks := Chunks(ids, BULK_CHUNK);
             var reply := p(chunks[..k + 1]);
             reply.Refusal? || |reply.entries| != |chunks[k]|
    ensures !AllChunks(p, [], Chunks(ids, BULK_CHUNK), decode).Done?
  {
    var chunks := Chunks(ids, BULK_CHUNK);
    assert [] + chunks[..k + 1] == chunks[..k + 1];
    MisansweredFails(p, [], chunks, k, decode);
  }
}
