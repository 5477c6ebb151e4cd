/** Scheduled deal sync (app/services/deal_sync.py): a batched upsert loop over the
    configured views and the non-default pipelines. */
module DealSync {
  import opened Common
  import opened DealsRepo
  import WebhookIngest

  /** A deals/view record; `rest` holds its other non-null columns. */
  datatype Record = Record(
    id: int, pipeline: Option<int>, dealStage: Option<int>, stage: Option<int>, owner: Option<int>,
    rest: map<string, int>)

  /** The ids the reference tables know, and the active pipelines. */
  datatype References = References(activePipelines: set<int>, stages: set<int>, owners: set<int>)

  /** The records one view or pipeline yields, and whether the stream then breaks off. */
  datatype Feed = Feed(records: seq<Record>, fails: bool)

  datatype Source = View(feed: Feed) | Pipeline(isDefault: bool, feed: Feed)

  type Upserts = seq<(int, Row)>

  const COMMIT_BATCH_SIZE: nat := 25

  /** `deal_stage_id or stage_id`: zero counts as missing. */
  function StageOf(r: Record): Option<int> {
    if r.dealStage.Some? && r.dealStage.value != 0 then r.dealStage else r.stage
  }

  function ParseViewDeal(r: Record): Row {
    OtherColumns(r.rest) + NonNull(Column.Pipeline, r.pipeline) + NonNull(Stage, StageOf(r)) + NonNull(Owner, r.owner)
  }

  predicate IsActive(r: Record, refs: References) {
    r.pipeline.Some? && r.pipeline.value in refs.activePipelines
  }

  function Keep(ids: set<int>, value: Option<int>): Option<int> {
    if value.Some? && value.value in ids then value else None
  }

  /** The columns written for a record: a stage or owner without a reference row is dropped. */
  function DataOf(r: Record, refs: References): Row {
    var data := ParseViewDeal(r);
    var data := if Keep(refs.stages, Get(data, Stage)).None? then data - {Stage} else data;
    if Keep(refs.owners, Get(data, Owner)).None? then data - {Owner} else data
  }

  function UpsertsOf(records: seq<Record>, refs: References): Upserts {
    if records == [] then []
    else
      var r := records[|records| - 1];
      UpsertsOf(records[..|records| - 1], refs) + if IsActive(r, refs) then [(r.id, DataOf(r, refs))] else []
  }

  function ApplyAll(deals: Deals, ups: Upserts): Deals {
    if ups == [] then deals
    else UpsertDeal(ApplyAll(deals, ups[..|ups| - 1]), ups[|ups| - 1].0, ups[|ups| - 1].1)
  }

  lemma UpsertsSnoc(deals: Deals, records: seq<Record>, r: Record, refs: References)
    ensures var ups := UpsertsOf(records, refs);
            UpsertsOf(records + [r], refs) == if IsActive(r, refs) then ups + [(r.id, DataOf(r, refs))] else ups
    ensures IsActive(r, refs) ==>
              ApplyAll(deals, UpsertsOf(records + [r], refs))
              == UpsertDeal(ApplyAll(deals, UpsertsOf(records, refs)), r.id, DataOf(r, refs))
  {
    hide DataOf, UpsertDeal;
    assert (records + [r])[..|records|] == records;
    var ups := UpsertsOf(records, refs);
    assert (ups + [(r.id, DataOf(r, refs))])[..|ups|] == ups && ups + [] == ups;
  }

  predicate Skipped(source: Source) {
    source.Pipeline? && source.isDefault
  }

  /** What a run of the first `n` sources fetches before it stops or breaks off. */
  function Fetched(sources: seq<Source>, n: nat): seq<Record>
    requires n <= |sources|
  {
    if n == 0 then []
    else if Broken(sources, n - 1) || Skipped(sources[n - 1]) then Fetched(sources, n - 1)
    else Fetched(sources, n - 1) + sources[n - 1].feed.records
  }

  predicate Broken(sources: seq<Source>, n: nat)
    requires n <= |sources|
  {
    exists i :: 0 <= i < n && !Skipped(sources[i]) && sources[i].feed.fails
  }

  /** Dropping the columns one after another, as `_upsert` does. */
  lemma DataIs(r: Record, refs: References, data: Row)
    requires var parsed := ParseViewDeal(r);
             var staged := if Stage !in parsed || parsed[Stage] !in refs.stages then parsed - {Stage} else parsed;
             data == if Owner !in staged || staged[Owner] !in refs.owners then staged - {Owner} else staged
    ensures data == DataOf(r, refs)
  {
    hide ParseViewDeal;
  }

  /** All of `ups` but a few at the end, fewer than a batch, are committed. */
  ghost predicate MostlyCommitted(before: Deals, ups: Upserts, committed: Deals) {
    exists c ::
      && 0 <= c <= |ups| && |ups| - c <= |ups| % 25
      && committed == ApplyAll(before, ups[..c])
  }

  lemma CommitLags(before: Deals, ups: Upserts, up: (int, Row), committed: Deals)
    requires MostlyCommitted(before, ups, committed)
    ensures (|ups| + 1) % 25 != 0 ==> MostlyCommitted(before, ups + [up], committed)
  {
    var c :| && 0 <= c <= |ups| && |ups| - c <= |ups| % 25
             && committed == ApplyAll(before, ups[..c]);
    assert (ups + [up])[..c] == ups[..c];
    hide ApplyAll;
  }

  lemma AllCommitted(before: Deals, ups: Upserts)
    ensures MostlyCommitted(before, ups, ApplyAll(before, ups))
  {
    assert ups[..|ups|] == ups;
    hide ApplyAll;
  }

  class Session {
    var committed: Deals
    var working: Deals
    var synced: nat
    var skipped: nat

    constructor (deals: Deals)
      ensures committed == working == deals && synced == skipped == 0
    {
      committed, working, synced, skipped := deals, deals, 0, 0;
    }

    method Commit()
      modifies this`committed
      ensures committed == working
    {
      committed := working;
    }

    /** The session has performed `ups`, and committed all of them but a few. */
    ghost predicate Performed(before: Deals, ups: Upserts)
      reads this
    {
      && working == ApplyAll(before, ups) && synced == |ups|
      && MostlyCommitted(before, ups, committed)
    }

    /** The inner `_upsert`. */
    method Upsert(r: Record, refs: References, ghost before: Deals, ghost records: seq<Record>)
      requires Performed(before, UpsertsOf(records, refs)) && synced + skipped == |records|
      modifies this
      ensures Performed(before, UpsertsOf(records + [r], refs)) && synced + skipped == |records| + 1
    {
      ghost var ups := UpsertsOf(records, refs);
      UpsertsSnoc(before, records, r, refs);
      hide UpsertsOf, ApplyAll, UpsertDeal, OtherColumns;
      if !IsActive(r, refs) {
        skipped := skipped + 1;
        return;
      }
      var data := ParseViewDeal(r);
      if Stage !in data || data[Stage] !in refs.stages {
        data := data - {Stage};
      }
      if Owner !in data || data[Owner] !in refs.owners {
        data := data - {Owner};
      }
      DataIs(r, refs, data);
      hide DataOf, ParseViewDeal, Keep, Get;
      hide MostlyCommitted;
      CommitLags(before, ups, (r.id, data), committed);
      AllCommitted(before, ups + [(r.id, data)]);
      working := UpsertDeal(working, r.id, data);
      synced := synced + 1;
      if synced % COMMIT_BATCH_SIZE == 0 {
        Commit();
      }
    }
  }

  /** The body of one `async for`: upserts the records as they come. */
  method SyncFeed(
    session: Session, records: seq<Record>, refs: References, ghost before: Deals, ghost earlier: seq<Record>)
    requires session.Performed(before, UpsertsOf(earlier, refs))
    requires session.synced + session.skipped == |earlier|
    modifies session
    ensures session.Performed(before, UpsertsOf(earlier + records, refs))
    ensures session.synced + session.skipped == |earlier| + |records|
  {
    hide UpsertsOf, ApplyAll;
    assert earlier + records[..0] == earlier;
    for j := 0 to |records|
      invariant session.Performed(before, UpsertsOf(earlier + records[..j], refs))
      invariant session.synced + session.skipped == |earlier| + j
    {
      session.Upsert(records[j], refs, before, earlier + records[..j]);
      assert earlier + records[..j] + [records[j]] == earlier + records[..j + 1];
    }
    assert records[..|records|] == records;
  }

  /** Runs every source in turn.  Where a stream breaks off the run stops and the session
      is dropped: what was committed is all but the last few, at most 24, of the upserts
      performed, in order.  A run that is not broken off commits everything. */
  method RunDealSync(session: Session, sources: seq<Source>, refs: References) returns (complete: bool)
    requires session.committed == session.working && session.synced == session.skipped == 0
    modifies session
    ensures complete <==> !Broken(sources, |sources|)
    ensures session.synced + session.skipped == |Fetched(sources, |sources|)|
    ensures session.Performed(old(session.committed), UpsertsOf(Fetched(sources, |sources|), refs))
    ensures complete ==> session.committed == session.working
  {
    ghost var before := session.committed;
    AllCommitted(before, []);
    assert session.Performed(before, UpsertsOf(Fetched(sources, 0), refs));
    hide UpsertsOf, ApplyAll, MostlyCommitted;
    for i := 0 to |sources|
      invariant !Broken(sources, i)
      invariant session.Performed(before, UpsertsOf(Fetched(sources, i), refs))
      invariant session.synced + session.skipped == |Fetched(sources, i)|
      invariant session.committed == session.working
    {
      if Skipped(sources[i]) {
        continue;
      }
      SyncFeed(session, sources[i].feed.records, refs, before, Fetched(sources, i));
      if sources[i].feed.fails {
        BrokenStaysBroken(sources, i + 1, |sources|);
        return false;
      }
      session.Commit();
      AllCommitted(before, UpsertsOf(Fetched(sources, i + 1), refs));
    }
    return true;
  }

  lemma {:induction false} BrokenStaysBroken(sources: seq<Source>, m: nat, n: nat)
    requires m <= n <= |sources| && Broken(sources, m)
    ensures Broken(sources, n) && Fetched(sources, n) == Fetched(sources, m)
    decreases n
  {
    if m < n {
      BrokenStaysBroken(sources, m, n - 1);
    }
  }

  /** The run gets to source `i` and does not pass over it. */
  ghost predicate Runs(sources: seq<Source>, i: nat) {
    && i < |sources| && (sources[i].View? || !sources[i].isDefault)
    && forall j :: 0 <= j < i && (sources[j].View? || !sources[j].isDefault) ==> !sources[j].feed.fails
  }

  /** What a run fetches: every record of every view and of every pipeline but the default
      one, up to and including the first stream that breaks off. */
  lemma {:induction false} FetchedIff(sources: seq<Source>, n: nat, r: Record)
    requires n <= |sources|
    ensures r in Fetched(sources, n) <==> exists i :: 0 <= i < n && Runs(sources, i) && r in sources[i].feed.records
  {
    if n > 0 {
      FetchedIff(sources, n - 1, r);
      assert Runs(sources, n - 1) <==> !Broken(sources, n - 1) && !Skipped(sources[n - 1]);
      hide Runs, Broken, Skipped;
    }
  }

  // What a sync leaves in each column

  /** The value record `r` has for column `c`, if it may be stored. */
  function FetchedValue(r: Record, refs: References, c: Column): Option<int> {
    match c
    case Pipeline => r.pipeline
    case Stage =>
      var stage := if r.dealStage.Some? && r.dealStage.value != 0 then r.dealStage else r.stage;
      if stage.Some? && stage.value in refs.stages then stage else None
    case Owner => if r.owner.Some? && r.owner.value in refs.owners then r.owner else None
    case Other(name) => if name in r.rest then Some(r.rest[name]) else None
  }

  /** The record is of a pipeline that is being synced. */
  predicate Counts(r: Record, refs: References) {
    r.pipeline.Some? && r.pipeline.value in refs.activePipelines
  }

  /** The last such value fetched for deal `id` in an active pipeline. */
  function LastFetched(records: seq<Record>, refs: References, id: int, c: Column): Option<int> {
    if records == [] then None
    else
      var r := records[|records| - 1];
      if r.id == id && Counts(r, refs) && FetchedValue(r, refs, c).Some? then FetchedValue(r, refs, c)
      else LastFetched(records[..|records| - 1], refs, id, c)
  }

  lemma ParsedColumn(r: Record, c: Column)
    ensures Get(ParseViewDeal(r), c) == match c
                                        case Pipeline => r.pipeline
                                        case Stage =>
                                          if r.dealStage.Some? && r.dealStage.value != 0 then r.dealStage else r.stage
                                        case Owner => r.owner
                                        case Other(name) => if name in r.rest then Some(r.rest[name]) else None
  {
    hide OtherColumns;
  }

  lemma DataHoldsFetchedValues(r: Record, refs: References, c: Column)
    ensures Get(DataOf(r, refs), c) == FetchedValue(r, refs, c)
  {
    ParsedColumn(r, c);
    ParsedColumn(r, Stage);
    ParsedColumn(r, Owner);
    hide ParseViewDeal;
  }

  /** Each column of each deal ends as the last value fetched for it, or as it was. */
  lemma {:induction false} SyncRefinesFold(deals: Deals, records: seq<Record>, refs: References, id: int, c: Column)
    ensures var after := ApplyAll(deals, UpsertsOf(records, refs));
            var last := LastFetched(records, refs, id, c);
            && Value(after, id, c) == (if last.Some? then last else Value(deals, id, c))
            && (id in after <==> id in deals || exists r :: r in records && r.id == id && Counts(r, refs))
  {
    if records != [] {
      var shorter, r := records[..|records| - 1], records[|records| - 1];
      assert records == shorter + [r];
      SyncRefinesFold(deals, shorter, refs, id, c);
      UpsertsSnoc(deals, shorter, r, refs);
      hide ApplyAll, UpsertsOf, DataOf, UpsertDeal, Value, FetchedValue;
      if Counts(r, refs) {
        DataHoldsFetchedValues(r, refs, c);
        UpsertColumn(ApplyAll(deals, UpsertsOf(shorter, refs)), r.id, DataOf(r, refs), id, c);
      }
    }
  }

  /** Tables that agree on every column and on which deals they hold are equal. */
  lemma SameColumns(a: Deals, b: Deals)
    requires forall id :: id in a <==> id in b
    requires forall id, c :: Value(a, id, c) == Value(b, id, c)
    ensures a == b
  {
    assert a.Keys == b.Keys by {
      forall id ensures id in a.Keys <==> id in b.Keys {
        assert id in a <==> id in b;
      }
    }
    forall id | id in a ensures a[id] == b[id] {
      forall c ensures Get(a[id], c) == Get(b[id], c) {
        assert Value(a, id, c) == Value(b, id, c);
      }
      assert forall c :: c in a[id] <==> c in b[id] by {
        forall c ensures c in a[id] <==> c in b[id] {
          assert Get(a[id], c) == Get(b[id], c);
        }
      }
      forall c | c in a[id] ensures a[id][c] == b[id][c] {
        assert Get(a[id], c) == Get(b[id], c);
      }
    }
  }

  /** Syncing an unchanged CRM again changes nothing. */
  lemma RerunChangesNothing(deals: Deals, records: seq<Record>, refs: References)
    ensures var once := ApplyAll(deals, UpsertsOf(records, refs));
            ApplyAll(once, UpsertsOf(records, refs)) == once
  {
    var once := ApplyAll(deals, UpsertsOf(records, refs));
    var twice := ApplyAll(once, UpsertsOf(records, refs));
    forall id, c ensures Value(twice, id, c) == Value(once, id, c) {
      SyncRefinesFold(deals, records, refs, id, c);
      SyncRefinesFold(once, records, refs, id, c);
    }
    forall id ensures id in twice <==> id in once {
      SyncRefinesFold(deals, records, refs, id, Stage);
      SyncRefinesFold(once, records, refs, id, Stage);
    }
    SameColumns(twice, once);
  }

  /** The records of one deal are identical wherever they turn up. */
  ghost predicate Consistent(records: seq<Record>) {
    forall a, b :: a in records && b in records && a.id == b.id ==> a == b
  }

  lemma {:induction false} LastOfConsistent(records: seq<Record>, refs: References, r: Record, c: Column)
    requires Consistent(records)
    ensures r in records ==>
              LastFetched(records, refs, r.id, c) == if Counts(r, refs) then FetchedValue(r, refs, c) else None
    ensures (forall x :: x in records ==> x.id != r.id) ==> LastFetched(records, refs, r.id, c) == None
  {
    if records != [] {
      var shorter, last := records[..|records| - 1], records[|records| - 1];
      assert records == shorter + [last];
      LastOfConsistent(shorter, refs, r, c);
      if r in records && last != r {
        assert last.id != r.id && r in shorter;
      } else if last == r && r !in shorter {
        assert forall x :: x in shorter ==> x.id != r.id;
      }
    }
  }

  /** Views that overlap do no harm: with identical records, only which records are
      fetched matters, not how often or in what order. */
  lemma OverlapIsHarmless(deals: Deals, xs: seq<Record>, ys: seq<Record>, refs: References)
    requires Consistent(xs) && Consistent(ys) && (forall r :: r in xs <==> r in ys)
    ensures ApplyAll(deals, UpsertsOf(xs, refs)) == ApplyAll(deals, UpsertsOf(ys, refs))
  {
    var a, b := ApplyAll(deals, UpsertsOf(xs, refs)), ApplyAll(deals, UpsertsOf(ys, refs));
    forall id ensures id in a <==> id in b {
      SyncRefinesFold(deals, xs, refs, id, Stage);
      SyncRefinesFold(deals, ys, refs, id, Stage);
    }
    forall id, c ensures Value(a, id, c) == Value(b, id, c) {
      SyncRefinesFold(deals, xs, refs, id, c);
      SyncRefinesFold(deals, ys, refs, id, c);
      if r :| r in xs && r.id == id {
        LastOfConsistent(xs, refs, r, c);
        LastOfConsistent(ys, refs, r, c);
      } else {
        var r := Record(id, None, None, None, None, map[]);
        LastOfConsistent(xs, refs, r, c);
        LastOfConsistent(ys, refs, r, c);
      }
    }
    SameColumns(a, b);
  }

  /** Every stored stage and owner id has a reference row. */
  ghost predicate ReferencesHold(deals: Deals, refs: References) {
    forall id ::
      && (var stage := Value(deals, id, Stage); stage.Some? ==> stage.value in refs.stages)
      && (var owner := Value(deals, id, Owner); owner.Some? ==> owner.value in refs.owners)
  }

  lemma {:induction false} LastFetchedIsReferenced(records: seq<Record>, refs: References, id: int)
    ensures var stage := LastFetched(records, refs, id, Stage); stage.Some? ==> stage.value in refs.stages
    ensures var owner := LastFetched(records, refs, id, Owner); owner.Some? ==> owner.value in refs.owners
  {
    if records != [] {
      LastFetchedIsReferenced(records[..|records| - 1], refs, id);
    }
  }

  lemma SyncKeepsReferences(deals: Deals, records: seq<Record>, refs: References)
    requires ReferencesHold(deals, refs)
    ensures ReferencesHold(ApplyAll(deals, UpsertsOf(records, refs)), refs)
  {
    var after := ApplyAll(deals, UpsertsOf(records, refs));
    forall id
      ensures var stage := Value(after, id, Stage); stage.Some? ==> stage.value in refs.stages
      ensures var owner := Value(after, id, Owner); owner.Some? ==> owner.value in refs.owners
    {
      SyncRefinesFold(deals, records, refs, id, Stage);
      SyncRefinesFold(deals, records, refs, id, Owner);
      LastFetchedIsReferenced(records, refs, id);
    }
  }

  /** The sync finds the deal as it is stored. */
  ghost predicate FindsAsStored(deals: Deals, records: seq<Record>, refs: References, id: int) {
    id in deals && forall c :: c in [Column.Pipeline, Stage, Owner] ==>
                                 LastFetched(records, refs, id, c) in {None, Value(deals, id, c)}
  }

  /** A sync writes no events: after it the webhook log still replays to the snapshot
      exactly when every active deal it fetched was found as stored. */
  lemma SyncKeepsReplayIff(m: WebhookIngest.Mirror, records: seq<Record>, refs: References)
    requires WebhookIngest.Replays(m)
    ensures WebhookIngest.Replays(m.(deals := ApplyAll(m.deals, UpsertsOf(records, refs))))
       <==> forall r :: r in records && Counts(r, refs) ==> FindsAsStored(m.deals, records, refs, r.id)
  {
    var after := ApplyAll(m.deals, UpsertsOf(records, refs));
    forall id
      ensures WebhookIngest.Stored(after, id) == WebhookIngest.Stored(m.deals, id)
         <==> ((exists r :: r in records && r.id == id && Counts(r, refs)) ==>
                 FindsAsStored(m.deals, records, refs, id))
    {
      SyncRefinesFold(m.deals, records, refs, id, Column.Pipeline);
      SyncRefinesFold(m.deals, records, refs, id, Stage);
      SyncRefinesFold(m.deals, records, refs, id, Owner);
      NotFetched(records, refs, id);
    }
    hide ApplyAll, UpsertsOf, WebhookIngest.Fold, FindsAsStored;
    assert forall id :: WebhookIngest.Fold(m.events, id) == WebhookIngest.Stored(m.deals, id);
  }

  lemma {:induction false} NotFetched(records: seq<Record>, refs: References, id: int)
    ensures (forall r :: r in records && Counts(r, refs) ==> r.id != id) ==>
              forall c :: LastFetched(records, refs, id, c) == None
  {
    if records != [] && forall r :: r in records && Counts(r, refs) ==> r.id != id {
      assert records[|records| - 1] in records;
      NotFetched(records[..|records| - 1], refs, id);
    }
  }
}
