/** Component metadata by folder: batched queries against the single query they stand for. */
module Folders {
  import opened Prelude
  import opened Filter
  import Pages

  const FOLDER_BATCH := 200

  /** The columns the query looks at, and the identity of the row. */
  datatype Component = Component(id: string, folderId: string, currentVersion: bool, deleted: bool)

  /** How the platform answers a comparison on a component. */
  function RowOf(c: Component): Row {
    (cmp: Comparison, property: string, argument: Option<seq<string>>) =>
      && cmp == EQUALS && argument.Some? && |argument.value| == 1
      && if property == "currentVersion" then argument.value[0] == (if c.currentVersion then "true" else "false")
         else if property == "deleted" then argument.value[0] == (if c.deleted then "true" else "false")
         else if property == "folderId" then argument.value[0] == c.folderId
         else false
  }

  function CurrentNotDeleted(): seq<Expr> {
    [EqBool("currentVersion", true), EqBool("deleted", false)]
  }

  function ByFolders(ids: seq<string>): Expr {
    AllOf(CurrentNotDeleted() + [In("folderId", ids)])
  }

  /** The rows of the table, in order, on which a compiled filter holds. */
  function Select(table: seq<Component>, w: Wire): seq<Component> {
    if table == [] then []
    else (if WireTruth(w, RowOf(table[0])) then [table[0]] else []) + Select(table[1..], w)
  }

  /** A batch of folder ids always compiles: the panic behind a failed compile is never reached. */
  lemma ByFoldersCompiles(ids: seq<string>)
    requires ids != []
    ensures Encode(ByFolders(ids)).Ok?
  {
    var inner := In("folderId", ids);
    assert WellFormed(inner);
    assert ByFolders(ids).nested == [EqBool("currentVersion", true), EqBool("deleted", false), inner];
    EncodeAcceptsWellFormed(ByFolders(ids));
  }

  lemma InTruth(ids: seq<string>, c: Component)
    ensures Truth(In("folderId", ids), RowOf(c)) <==> c.folderId in ids
  {
    var e := In("folderId", ids);
    forall i | 0 <= i < |ids| ensures Truth(e.nested[i], RowOf(c)) <==> ids[i] == c.folderId {
      assert e.nested[i] == Eq("folderId", ids[i]);
    }
    if c.folderId in ids {
      var i :| 0 <= i < |ids| && ids[i] == c.folderId;
      assert Truth(e.nested[i], RowOf(c));
    }
  }

  /** Is the row live, current and in one of the folders? */
  predicate Wanted(c: Component, ids: seq<string>) {
    c.currentVersion && !c.deleted && c.folderId in ids
  }

  /** What the compiled filter of a batch selects. */
  lemma FilterMeaning(ids: seq<string>, c: Component)
    requires Encode(ByFolders(ids)).Ok?
    ensures WireTruth(Encode(ByFolders(ids)).value, RowOf(c)) <==> c.currentVersion && !c.deleted && c.folderId in ids
  {
    var e := ByFolders(ids);
    EncodePreservesTruth(e, RowOf(c));
    InTruth(ids, c);
    assert e.nested == [EqBool("currentVersion", true), EqBool("deleted", false), In("folderId", ids)];
    var row := RowOf(c);
    assert Truth(e.nested[0], row) <==> c.currentVersion;
    assert Truth(e.nested[1], row) <==> !c.deleted;
    assert Truth(e, row) <==> Truth(e.nested[0], row) && Truth(e.nested[1], row) && Truth(e.nested[2], row);
  }

  /** The wanted rows of the table, in order. */
  function Keep(table: seq<Component>, ids: seq<string>): seq<Component> {
    if table == [] then [] else (if Wanted(table[0], ids) then [table[0]] else []) + Keep(table[1..], ids)
  }

  lemma {:induction false} SelectKeeps(table: seq<Component>, ids: seq<string>)
    requires Encode(ByFolders(ids)).Ok?
    ensures Select(table, Encode(ByFolders(ids)).value) == Keep(table, ids)
  {
    if table != [] {
      FilterMeaning(ids, table[0]);
      SelectKeeps(table[1..], ids);
    }
  }

  // ------------------------------------------------------------- the method

  /** The filter of one batch, compiled. */
  function BatchFilter(ids: seq<string>): (w: Wire)
    requires ids != []
    ensures Encode(ByFolders(ids)) == Ok(w)
  {
    ByFoldersCompiles(ids);
    Encode(ByFolders(ids)).value
  }

  /** The answers to a list of queries, concatenated. */
  function Answers(table: seq<Component>, sent: seq<Wire>): seq<Component> {
    if sent == [] then [] else Answers(table, sent[..|sent| - 1]) + Select(table, sent[|sent| - 1])
  }

  /** Query k is the compiled filter of batch k. */
  predicate Compiled(batches: seq<seq<string>>, sent: seq<Wire>) {
    && |sent| <= |batches|
    && forall k | 0 <= k < |sent| :: Encode(ByFolders(batches[k])) == Ok(sent[k])
  }

  /** An adversarial platform: what answers the pages of query k, given its filter. */
  type Server = (nat, Wire) -> Pages.Platform<Component>

  /** The rows of a list of queries, each fetched page by page; none if any of them failed. */
  function Fetched(server: Server, sent: seq<Wire>, horizon: nat): Option<seq<Component>> {
    if sent == [] then Some([])
    else
      var n := |sent| - 1;
      var front, last := Fetched(server, sent[..n], horizon), Pages.Fetched(server(n, sent[n]), horizon);
      if front.Some? && last.Rows? then Some(front.value + last.rows) else None
  }

  /** Batches of at most 200 ids in input order, one compiled filter each, all
      pages of each query, the rows concatenated; the first query that fails is
      the last one sent and leaves nothing. */
  method CurrentByFolders(server: Server, ids: seq<string>, horizon: nat)
    returns (all: Option<seq<Component>>, sent: seq<Wire>)
    ensures Compiled(Chunks(ids, FOLDER_BATCH), sent)
    ensures all == Fetched(server, sent, horizon)
    ensures all.Some? ==> |sent| == |Chunks(ids, FOLDER_BATCH)|
    ensures all.None? ==> sent != [] && Fetched(server, sent[..|sent| - 1], horizon).Some?
  {
    ghost var chunks := Chunks(ids, FOLDER_BATCH);
    var rows: seq<Component> := [];
    sent := [];
    var start := 0;
    assert ids[0..] == ids && chunks[0..] == chunks;
    while start < |ids|
      invariant start >= 0 && Batched(ids, chunks, start, sent)
      invariant Fetched(server, sent, horizon) == Some(rows)
    {
      var chunk := ids[start..Min(start + FOLDER_BATCH, |ids|)];
      NextBatch(ids, chunks, start, sent);
      var filter := BatchFilter(chunk);
      var connection := new Pages.Connection(server(|sent|, filter));
      var got := connection.QueryAll(horizon);
      OneMoreFetched(server, sent, filter, horizon);
      sent := sent + [filter];
      if !got.Rows? {
        return None, sent;
      }
      rows := rows + got.rows;
      start := start + FOLDER_BATCH;
    }
    return Some(rows), sent;
  }

  lemma OneMoreFetched(server: Server, sent: seq<Wire>, filter: Wire, horizon: nat)
    ensures var front, last := Fetched(server, sent, horizon), Pages.Fetched(server(|sent|, filter), horizon);
            Fetched(server, sent + [filter], horizon)
            == if front.Some? && last.Rows? then Some(front.value + last.rows) else None
    ensures (sent + [filter])[..|sent| + 1 - 1] == sent
  {
    assert (sent + [filter])[..|sent|] == sent;
  }

  /** The loop's state: the batches before `start` are sent, the rest are still chunks of the ids. */
  ghost predicate Batched(ids: seq<string>, chunks: seq<seq<string>>, start: nat, sent: seq<Wire>) {
    && Compiled(chunks, sent)
    && chunks[|sent|..] == ChunksFrom(ids, start, FOLDER_BATCH)
  }

  lemma NextBatch(ids: seq<string>, chunks: seq<seq<string>>, start: nat, sent: seq<Wire>)
    requires start < |ids| && Batched(ids, chunks, start, sent)
    ensures var filter := BatchFilter(ids[start..Min(start + FOLDER_BATCH, |ids|)]);
            |sent| < |chunks| && Batched(ids, chunks, start + FOLDER_BATCH, sent + [filter])
  {
    var chunk := ids[start..Min(start + FOLDER_BATCH, |ids|)];
    NextChunk(ids, start, FOLDER_BATCH);
    Peel(chunks, |sent|, chunk, ChunksFrom(ids, start + FOLDER_BATCH, FOLDER_BATCH));
  }

  lemma Peel<T>(xs: seq<T>, k: nat, x: T, rest: seq<T>)
    requires k <= |xs| && xs[k..] == [x] + rest
    ensures k < |xs| && xs[k] == x && xs[k + 1..] == rest
  {
    assert xs[k] == xs[k..][0];
    assert xs[k + 1..] == xs[k..][1..];
  }

  // -------------------------------------- batched against the single query

  /** How a server pages the rows of each query. */
  datatype Paging = Paging(cuts: seq<seq<Component>>, tokens: seq<string>)

  /** Does the server hold this table, and serve each query's rows in some cuts and tokens? */
  ghost predicate Honest(server: Server, table: seq<Component>, sent: seq<Wire>, pagings: seq<Paging>, horizon: nat) {
    && |pagings| == |sent|
    && forall k: nat | k < |sent| ::
         && Pages.Serves(server(k, sent[k]), pagings[k].cuts, pagings[k].tokens)
         && Flatten(pagings[k].cuts) == Select(table, sent[k])
         && |pagings[k].cuts| <= horizon
  }

  /** However an honest server cuts its pages, the queries return their rows of the table. */
  lemma {:induction false} HonestAnswers(server: Server, table: seq<Component>, sent: seq<Wire>, pagings: seq<Paging>, horizon: nat)
    requires Honest(server, table, sent, pagings, horizon)
    ensures Fetched(server, sent, horizon) == Some(Answers(table, sent))
  {
    if sent != [] {
      var n := |sent| - 1;
      assert Pages.Serves(server(n, sent[n]), pagings[n].cuts, pagings[n].tokens);
      Pages.QueryAllIsFetch(server(n, sent[n]), pagings[n].cuts, pagings[n].tokens, horizon);
      HonestAnswers(server, table, sent[..n], pagings[..n], horizon);
    }
  }

  /** The wanted rows of each batch, concatenated. */
  function KeepBatches(table: seq<Component>, batches: seq<seq<string>>): seq<Component> {
    if batches == [] then []
    else KeepBatches(table, batches[..|batches| - 1]) + Keep(table, batches[|batches| - 1])
  }

  /** What the batched queries return is the wanted rows, batch by batch. */
  lemma {:induction false} AnswersKeep(table: seq<Component>, batches: seq<seq<string>>, sent: seq<Wire>)
    requires |sent| == |batches| && Compiled(batches, sent)
    ensures Answers(table, sent) == KeepBatches(table, batches)
  {
    if sent != [] {
      var n := |sent| - 1;
      AnswersKeep(table, batches[..n], sent[..n]);
      SelectKeeps(table, batches[n]);
    }
  }

  /** In how many batches does the folder occur? */
  function Occurrences(batches: seq<seq<string>>, folder: string): nat {
    if batches == [] then 0
    else Occurrences(batches[..|batches| - 1], folder) + if folder in batches[|batches| - 1] then 1 else 0
  }

  lemma {:induction false} OccursWhenPresent(batches: seq<seq<string>>, folder: string)
    ensures Occurrences(batches, folder) > 0 <==> folder in Flatten(batches)
  {
    if batches != [] {
      var front, last := batches[..|batches| - 1], batches[|batches| - 1];
      OccursWhenPresent(front, folder);
      FlattenSnoc(front, last);
      assert batches == front + [last];
    }
  }

  lemma FlattenSnoc<T>(front: seq<seq<T>>, last: seq<T>)
    ensures Flatten(front + [last]) == Flatten(front) + last
  {
    FlattenAppend(front, [last]);
    assert Flatten([last]) == last + Flatten([last][1..]) == last;
  }

  lemma {:induction false} KeepUnion(table: seq<Component>, a: seq<string>, b: seq<string>)
    requires forall x | x in a :: x !in b
    ensures multiset(Keep(table, a + b)) == multiset(Keep(table, a)) + multiset(Keep(table, b))
  {
    if table != [] {
      KeepUnion(table[1..], a, b);
    }
  }

  /** No folder id is in two different batches. */
  ghost predicate NoSharedFolder(batches: seq<seq<string>>) {
    forall folder: string :: Occurrences(batches, folder) <= 1
  }

  /** The batches return the rows of the single query, each as often. */
  predicate SameRows(table: seq<Component>, batches: seq<seq<string>>) {
    multiset(KeepBatches(table, batches)) == multiset(Keep(table, Flatten(batches)))
  }

  lemma {:induction false} UnsharedSameRows(table: seq<Component>, batches: seq<seq<string>>)
    requires NoSharedFolder(batches)
    ensures SameRows(table, batches)
  {
    if batches == [] {
      KeepNone(table);
    } else {
      var front, last := batches[..|batches| - 1], batches[|batches| - 1];
      forall folder: string ensures Occurrences(front, folder) <= 1 && (folder in last ==> folder !in Flatten(front)) {
        assert Occurrences(batches, folder) <= 1;
        OccursWhenPresent(front, folder);
      }
      UnsharedSameRows(table, front);
      KeepUnion(table, Flatten(front), last);
      FlattenSnoc(front, last);
      assert batches == front + [last];
    }
  }

  lemma {:induction false} KeepNone(table: seq<Component>)
    ensures Keep(table, []) == []
  {
    if table != [] {
      KeepNone(table[1..]);
    }
  }

  lemma {:induction false} SingleRow(c: Component, batches: seq<seq<string>>)
    requires c.currentVersion && !c.deleted
    ensures |KeepBatches([c], batches)| == Occurrences(batches, c.folderId)
  {
    if batches != [] {
      SingleRow(c, batches[..|batches| - 1]);
      OneRow(c, batches[|batches| - 1]);
    }
  }

  lemma OneRow(c: Component, ids: seq<string>)
    ensures Keep([c], ids) == if Wanted(c, ids) then [c] else []
  {
    assert [c][1..] == [];
    assert Keep([], ids) == [];
  }

  /** A folder in two batches shows on a table with one row. */
  lemma SharedFolderShows(batches: seq<seq<string>>, ids: seq<string>, folder: string) returns (table: seq<Component>)
    requires Occurrences(batches, folder) > 1
    ensures multiset(KeepBatches(table, batches)) != multiset(Keep(table, ids))
  {
    var c := Component("", folder, true, false);
    table := [c];
    SingleRow(c, batches);
    OneRow(c, ids);
    assert |multiset(KeepBatches(table, batches))| > |multiset(Keep(table, ids))|;
  }

  /** The folder query is right on every table exactly when no id falls into two
      batches: an id repeated across batches has its rows returned twice. */
  lemma BatchingPreservesMeaning(ids: seq<string>)
    ensures (forall table :: multiset(KeepBatches(table, Chunks(ids, FOLDER_BATCH))) == multiset(Keep(table, ids)))
            <==> NoSharedFolder(Chunks(ids, FOLDER_BATCH))
  {
    var batches := Chunks(ids, FOLDER_BATCH);
    ChunksPartition(ids, FOLDER_BATCH);
    if NoSharedFolder(batches) {
      forall table ensures multiset(KeepBatches(table, batches)) == multiset(Keep(table, ids)) {
        UnsharedSameRows(table, batches);
      }
    } else {
      var folder: string :| Occurrences(batches, folder) > 1;
      var table := SharedFolderShows(batches, ids, folder);
    }
  }

  lemma {:induction false} DistinctUnshared(batches: seq<seq<string>>, folder: string)
    ensures Occurrences(batches, folder) <= multiset(Flatten(batches))[folder]
  {
    if batches != [] {
      var front, last := batches[..|batches| - 1], batches[|batches| - 1];
      DistinctUnshared(front, folder);
      FlattenSnoc(front, last);
      assert batches == front + [last];
    }
  }

  lemma {:induction false} AtMostOnce(ids: seq<string>, x: string)
    requires forall i, j | 0 <= i < j < |ids| :: ids[i] != ids[j]
    ensures multiset(ids)[x] <= 1
  {
    if ids != [] {
      AtMostOnce(ids[1..], x);
      assert ids == [ids[0]] + ids[1..];
      if ids[0] in ids[1..] {
        assert false;
      }
    }
  }

  lemma DistinctNotShared(ids: seq<string>)
    requires forall i, j | 0 <= i < j < |ids| :: ids[i] != ids[j]
    ensures NoSharedFolder(Chunks(ids, FOLDER_BATCH))
  {
    var batches := Chunks(ids, FOLDER_BATCH);
    ChunksPartition(ids, FOLDER_BATCH);
    forall folder: string ensures Occurrences(batches, folder) <= 1 {
      AtMostOnce(ids, folder);
      DistinctUnshared(batches, folder);
    }
  }

  /** In particular for pairwise distinct ids: what the folder query returns from an
      honest server is a permutation of the rows of the single unbatched filter,
      in ceil(n / 200) queries of at most 200 ids. */
  lemma DistinctIdsPermutation(server: Server, table: seq<Component>, ids: seq<string>, sent: seq<Wire>,
                               pagings: seq<Paging>, horizon: nat)
    requires ids != [] && forall i, j | 0 <= i < j < |ids| :: ids[i] != ids[j]
    requires |sent| == |Chunks(ids, FOLDER_BATCH)| && Compiled(Chunks(ids, FOLDER_BATCH), sent)
    requires Honest(server, table, sent, pagings, horizon)
    ensures var all := Fetched(server, sent, horizon);
            all.Some? && multiset(all.value) == multiset(Select(table, BatchFilter(ids)))
    ensures |ids| <= |sent| * 200 < |ids| + 200
    ensures forall b | b in Chunks(ids, FOLDER_BATCH) :: |b| <= 200
  {
    var batches := Chunks(ids, FOLDER_BATCH);
    ChunksPartition(ids, FOLDER_BATCH);
    DistinctNotShared(ids);
    UnsharedSameRows(table, batches);
    HonestAnswers(server, table, sent, pagings, horizon);
    AnswersKeep(table, batches, sent);
    ByFoldersCompiles(ids);
    SelectKeeps(table, ids);
  }
}
