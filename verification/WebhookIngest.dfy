/** Deal webhooks (app/services/webhook_ingest.py, app/services/change_detection.py):
    the event log they append to and the snapshot they merge into. */
module WebhookIngest {
  import opened Common
  import opened DealsRepo

  const STAGE_UPDATED_AT := "stage_updated_at"

  datatype EventKind = Created | StageChange | OwnerChange

  datatype DealEvent = DealEvent(
    deal: int, kind: EventKind,
    oldPipeline: Option<int>, oldStage: Option<int>, newPipeline: Option<int>, newStage: Option<int>,
    oldOwner: Option<int>, newOwner: Option<int>, occurredAt: Instant)

  /** `rest` holds the other columns the payload carries a value for. */
  datatype Webhook = Webhook(
    deal: int, pipelineName: string, stageName: string, owner: Option<int>,
    stageUpdated: Option<Instant>, rest: map<string, int>)

  type Resolver = map<(string, string), (int, int)>

  datatype Mirror = Mirror(deals: Deals, events: seq<DealEvent>)

  /** What one delivery meets: the reference tables and the clock. */
  datatype Surroundings = Surroundings(resolver: Resolver, owners: set<int>, now: Instant)

  function DetectChanges(
    deal: int, existing: Option<Row>, pipeline: Option<int>, stage: Option<int>, owner: Option<int>,
    occurredAt: Instant) : seq<DealEvent>
  {
    match existing
    case None =>
      [DealEvent(deal, Created, None, None, pipeline, stage, None, owner, occurredAt)]
    case Some(row) =>
      var oldPipeline, oldStage, oldOwner := Get(row, Pipeline), Get(row, Stage), Get(row, Owner);
      (if (oldPipeline, oldStage) != (pipeline, stage)
       then [DealEvent(deal, StageChange, oldPipeline, oldStage, pipeline, stage, None, None, occurredAt)]
       else [])
      + (if oldOwner != owner
         then [DealEvent(deal, OwnerChange, None, None, None, None, oldOwner, owner, occurredAt)]
         else [])
  }

  function Existing(m: Mirror, deal: int): Option<Row> {
    if deal in m.deals then Some(m.deals[deal]) else None
  }

  /** Pipeline and stage: as the names resolve, else as they were. */
  function NewPlace(m: Mirror, w: Webhook, resolver: Resolver): (Option<int>, Option<int>) {
    var names := (w.pipelineName, w.stageName);
    if w.pipelineName != "" && w.stageName != "" && names in resolver then
      (Some(resolver[names].0), Some(resolver[names].1))
    else
      (Value(m.deals, w.deal, Pipeline), Value(m.deals, w.deal, Stage))
  }

  /** The owner carried, else the one stored, before it is looked up. */
  function RawOwner(m: Mirror, w: Webhook): Option<int> {
    if w.owner.Some? then w.owner else Value(m.deals, w.deal, Owner)
  }

  function NewOwner(m: Mirror, w: Webhook, owners: set<int>): Option<int> {
    var raw := RawOwner(m, w);
    if raw.Some? && raw.value in owners then raw else None
  }

  function WithTime(rest: map<string, int>, occurredAt: Instant): (row: Row)
    ensures forall c :: Get(row, c).Some? ==> c.Other?
  {
    OtherColumns(rest[STAGE_UPDATED_AT := occurredAt])
  }

  function DealData(
    w: Webhook, pipeline: Option<int>, stage: Option<int>, owner: Option<int>, occurredAt: Instant): Row
  {
    WithTime(w.rest, occurredAt) + NonNull(Pipeline, pipeline) + NonNull(Stage, stage) + NonNull(Owner, owner)
  }

  /** The mirror after one delivery. */
  function Ingest(m: Mirror, w: Webhook, env: Surroundings): Mirror {
    var (pipeline, stage) := NewPlace(m, w, env.resolver);
    var owner := NewOwner(m, w, env.owners);
    var occurredAt := if w.stageUpdated.Some? then w.stageUpdated.value else env.now;
    Mirror(
      UpsertDeal(m.deals, w.deal, DealData(w, pipeline, stage, owner, occurredAt)),
      m.events + DetectChanges(w.deal, Existing(m, w.deal), pipeline, stage, owner, occurredAt))
  }

  class DealMirror {
    var deals: Deals
    var events: seq<DealEvent>

    function State(): Mirror
      reads this
    {
      Mirror(deals, events)
    }

    method IngestWebhook(w: Webhook, env: Surroundings)
      modifies this
      ensures State() == Ingest(old(State()), w, env)
    {
      var existing := Existing(State(), w.deal);
      var (pipeline, stage) := NewPlace(State(), w, env.resolver);
      var owner := NewOwner(State(), w, env.owners);
      var occurredAt := if w.stageUpdated.Some? then w.stageUpdated.value else env.now;
      var changes := DetectChanges(w.deal, existing, pipeline, stage, owner, occurredAt);
      for i := 0 to |changes|
        invariant events == old(events) + changes[..i] && deals == old(deals)
      {
        events := events + [changes[i]];
      }
      assert changes[..|changes|] == changes;
      deals := UpsertDeal(deals, w.deal, DealData(w, pipeline, stage, owner, occurredAt));
    }
  }

  // Replay

  datatype Refs = Refs(pipeline: Option<int>, stage: Option<int>, owner: Option<int>)

  function Replay(e: DealEvent, refs: Option<Refs>): Option<Refs> {
    match e.kind
    case Created => Some(Refs(e.newPipeline, e.newStage, e.newOwner))
    case StageChange =>
      if refs.Some? then Some(refs.value.(pipeline := e.newPipeline, stage := e.newStage)) else None
    case OwnerChange =>
      if refs.Some? then Some(refs.value.(owner := e.newOwner)) else None
  }

  /** Folds a deal's events in order. */
  function Fold(events: seq<DealEvent>, deal: int): Option<Refs> {
    if events == [] then None
    else
      var e, refs := events[|events| - 1], Fold(events[..|events| - 1], deal);
      if e.deal == deal then Replay(e, refs) else refs
  }

  function Stored(deals: Deals, deal: int): Option<Refs> {
    if deal in deals
    then Some(Refs(Value(deals, deal, Pipeline), Value(deals, deal, Stage), Value(deals, deal, Owner)))
    else None
  }

  /** The log rebuilds the snapshot's pipeline, stage and owner. */
  ghost predicate Replays(m: Mirror) {
    forall deal :: Fold(m.events, deal) == Stored(m.deals, deal)
  }

  /** Each event starts from where the ones before it left the deal, and moves it. */
  ghost predicate Chained(events: seq<DealEvent>) {
    forall k :: 0 <= k < |events| ==> Follows(events[k], Fold(events[..k], events[k].deal))
  }

  predicate Follows(e: DealEvent, before: Option<Refs>) {
    match e.kind
    case Created => before.None?
    case StageChange =>
      && before.Some?
      && (e.oldPipeline, e.oldStage) == (before.value.pipeline, before.value.stage) != (e.newPipeline, e.newStage)
    case OwnerChange =>
      before.Some? && e.oldOwner == before.value.owner != e.newOwner
  }

  /** The deal has an owner, and the owner to store has no reference row: the event says
      the owner is gone, and the upsert drops the null. */
  predicate LosesOwner(m: Mirror, w: Webhook, owners: set<int>) {
    Value(m.deals, w.deal, Owner).Some? && RawOwner(m, w).value !in owners
  }

  lemma FoldAppend(events: seq<DealEvent>, e: DealEvent, deal: int)
    ensures Fold(events + [e], deal) == if e.deal == deal then Replay(e, Fold(events, deal)) else Fold(events, deal)
  {
    assert (events + [e])[..|events|] == events;
  }

  lemma ChainedAppend(events: seq<DealEvent>, e: DealEvent)
    requires Chained(events) && Follows(e, Fold(events, e.deal))
    ensures Chained(events + [e])
  {
    forall k | 0 <= k < |events| + 1
      ensures Follows((events + [e])[k], Fold((events + [e])[..k], (events + [e])[k].deal))
    {
      assert (events + [e])[..k] == events[..k];
    }
    assert events[..|events|] == events;
  }

  /** The changes detected lead from the stored ids to the new ones. */
  lemma ChangesLead(
    existing: Option<Row>, deal: int, pipeline: Option<int>, stage: Option<int>, owner: Option<int>, at: Instant)
    ensures var changes := DetectChanges(deal, existing, pipeline, stage, owner, at);
            var refs := match existing
                        case Some(row) => Some(Refs(Get(row, Pipeline), Get(row, Stage), Get(row, Owner)))
                        case None => None;
            var first := if |changes| > 0 then Replay(changes[0], refs) else refs;
            && |changes| <= 2
            && (forall k :: 0 <= k < |changes| ==> changes[k].deal == deal)
            && (|changes| > 0 ==> Follows(changes[0], refs))
            && (|changes| > 1 ==> Follows(changes[1], first))
            && (if |changes| > 1 then Replay(changes[1], first) else first) == Some(Refs(pipeline, stage, owner))
  {
  }

  /** Appending what `DetectChanges` returns takes the fold to the new ids, whatever they
      are, and keeps the chain. */
  lemma ChangesReplay(
    m: Mirror, deal: int, pipeline: Option<int>, stage: Option<int>, owner: Option<int>, at: Instant, other: int)
    requires Replays(m) && Chained(m.events)
    ensures var events := m.events + DetectChanges(deal, Existing(m, deal), pipeline, stage, owner, at);
            && Chained(events)
            && Fold(events, other)
               == if other == deal then Some(Refs(pipeline, stage, owner)) else Stored(m.deals, other)
  {
    var changes := DetectChanges(deal, Existing(m, deal), pipeline, stage, owner, at);
    assert Fold(m.events, deal) == Stored(m.deals, deal) && Fold(m.events, other) == Stored(m.deals, other);
    ChangesLead(Existing(m, deal), deal, pipeline, stage, owner, at);
    assert Stored(m.deals, deal) == (match Existing(m, deal)
                                     case Some(row) => Some(Refs(Get(row, Pipeline), Get(row, Stage), Get(row, Owner)))
                                     case None => None);
    hide Fold, Chained, Replays, DetectChanges, Follows, Replay, Stored, Existing, Get;
    if |changes| > 0 {
      var one := m.events + [changes[0]];
      FoldAppend(m.events, changes[0], deal);
      FoldAppend(m.events, changes[0], other);
      ChainedAppend(m.events, changes[0]);
      if |changes| > 1 {
        FoldAppend(one, changes[1], deal);
        FoldAppend(one, changes[1], other);
        ChainedAppend(one, changes[1]);
        assert m.events + changes == one + [changes[1]];
      } else {
        assert m.events + changes == one;
      }
    } else {
      assert m.events + changes == m.events;
    }
  }

  lemma DealDataRefs(
    w: Webhook, pipeline: Option<int>, stage: Option<int>, owner: Option<int>, at: Instant, c: Column)
    requires c in [Pipeline, Stage, Owner]
    ensures Get(DealData(w, pipeline, stage, owner, at), c)
         == match c case Pipeline => pipeline case Stage => stage case _ => owner
  {
    var plain := WithTime(w.rest, at);
    assert DealData(w, pipeline, stage, owner, at)
        == plain + NonNull(Pipeline, pipeline) + NonNull(Stage, stage) + NonNull(Owner, owner);
    hide WithTime, DealData, NonNull, Get;
    var placed := plain + NonNull(Pipeline, pipeline);
    GetPlus(plain, Pipeline, pipeline, c);
    GetPlus(placed, Stage, stage, c);
    GetPlus(placed + NonNull(Stage, stage), Owner, owner, c);
  }

  /** What a delivery leaves in the snapshot: a null never overwrites. */
  lemma IngestStores(m: Mirror, w: Webhook, env: Surroundings, other: int)
    ensures var (pipeline, stage) := NewPlace(m, w, env.resolver);
            var owner := NewOwner(m, w, env.owners);
            Stored(Ingest(m, w, env).deals, other)
            == if other == w.deal
               then Some(Refs(pipeline, stage, if owner.Some? then owner else Value(m.deals, w.deal, Owner)))
               else Stored(m.deals, other)
  {
    var (pipeline, stage) := NewPlace(m, w, env.resolver);
    var owner := NewOwner(m, w, env.owners);
    var at := if w.stageUpdated.Some? then w.stageUpdated.value else env.now;
    var data := DealData(w, pipeline, stage, owner, at);
    assert Ingest(m, w, env).deals == UpsertDeal(m.deals, w.deal, data);
    DealDataRefs(w, pipeline, stage, owner, at, Pipeline);
    DealDataRefs(w, pipeline, stage, owner, at, Stage);
    DealDataRefs(w, pipeline, stage, owner, at, Owner);
    hide DealData;
    UpsertColumn(m.deals, w.deal, data, other, Pipeline);
    UpsertColumn(m.deals, w.deal, data, other, Stage);
    UpsertColumn(m.deals, w.deal, data, other, Owner);
    assert other in UpsertDeal(m.deals, w.deal, data) <==> other == w.deal || other in m.deals;
    hide UpsertDeal, Value;
  }

  /** What a delivery has for a column: the place its names resolve to, an owner that has
      a reference row, its own time or else the clock, and the other columns carried. */
  function Carried(w: Webhook, env: Surroundings, c: Column): Option<int> {
    match c
    case Pipeline =>
      if w.pipelineName != "" && w.stageName != "" && (w.pipelineName, w.stageName) in env.resolver
      then Some(env.resolver[(w.pipelineName, w.stageName)].0) else None
    case Stage =>
      if w.pipelineName != "" && w.stageName != "" && (w.pipelineName, w.stageName) in env.resolver
      then Some(env.resolver[(w.pipelineName, w.stageName)].1) else None
    case Owner =>
      if w.owner.Some? && w.owner.value in env.owners then w.owner else None
    case Other(name) =>
      if name == "stage_updated_at" then Some(if w.stageUpdated.Some? then w.stageUpdated.value else env.now)
      else if name in w.rest then Some(w.rest[name])
      else None
  }

  /** Column by column: a deal has what the delivery carries for it, and otherwise what it
      had; no other deal is touched. */
  lemma IngestWrites(m: Mirror, w: Webhook, env: Surroundings, id: int, c: Column)
    ensures var after := Ingest(m, w, env).deals;
            && (id in after <==> id in m.deals || id == w.deal)
            && Value(after, id, c)
               == if id == w.deal && Carried(w, env, c).Some? then Carried(w, env, c) else Value(m.deals, id, c)
  {
    var (pipeline, stage) := NewPlace(m, w, env.resolver);
    var owner := NewOwner(m, w, env.owners);
    var at := if w.stageUpdated.Some? then w.stageUpdated.value else env.now;
    var data := DealData(w, pipeline, stage, owner, at);
    assert Ingest(m, w, env).deals == UpsertDeal(m.deals, w.deal, data);
    UpsertColumn(m.deals, w.deal, data, id, c);
    if c.Other? {
      OtherData(w, pipeline, stage, owner, at, c);
    } else {
      DealDataRefs(w, pipeline, stage, owner, at, c);
    }
    hide DealData, UpsertDeal, Ingest;
  }

  lemma OtherData(
    w: Webhook, pipeline: Option<int>, stage: Option<int>, owner: Option<int>, at: Instant, c: Column)
    requires c.Other?
    ensures Get(DealData(w, pipeline, stage, owner, at), c)
         == if c.name == "stage_updated_at" then Some(at)
            else if c.name in w.rest then Some(w.rest[c.name]) else None
  {
    var plain := WithTime(w.rest, at);
    var placed := plain + NonNull(Pipeline, pipeline);
    assert DealData(w, pipeline, stage, owner, at) == placed + NonNull(Stage, stage) + NonNull(Owner, owner);
    assert plain == OtherColumns(w.rest["stage_updated_at" := at]);
    hide DealData, NonNull, WithTime;
    GetPlus(plain, Pipeline, pipeline, c);
    GetPlus(placed, Stage, stage, c);
    GetPlus(placed + NonNull(Stage, stage), Owner, owner, c);
  }

  /** The events a delivery appends are about its deal, and happened when the snapshot then
      says the deal last changed stage: the payload's time, or else the clock. */
  lemma EventsCarryTime(m: Mirror, w: Webhook, env: Surroundings, k: nat)
    ensures var after := Ingest(m, w, env);
            && m.events <= after.events
            && (|m.events| <= k < |after.events| ==>
                  && after.events[k].deal == w.deal
                  && after.events[k].occurredAt == (if w.stageUpdated.Some? then w.stageUpdated.value else env.now)
                  && Value(after.deals, w.deal, Other("stage_updated_at")) == Some(after.events[k].occurredAt))
  {
    IngestWrites(m, w, env, w.deal, Other("stage_updated_at"));
    hide DealData, UpsertDeal, NewPlace, NewOwner, Value;
  }

  /** One delivery keeps the replay exactly when it loses no owner; it keeps the chain
      either way. */
  lemma IngestReplaysIff(m: Mirror, w: Webhook, env: Surroundings)
    requires Replays(m) && Chained(m.events)
    ensures Chained(Ingest(m, w, env).events)
    ensures Replays(Ingest(m, w, env)) <==> !LosesOwner(m, w, env.owners)
  {
    hide DealData, UpsertDeal, Fold;
    var (pipeline, stage) := NewPlace(m, w, env.resolver);
    var owner := NewOwner(m, w, env.owners);
    var at := if w.stageUpdated.Some? then w.stageUpdated.value else env.now;
    var after := Ingest(m, w, env);
    assert after.events == m.events + DetectChanges(w.deal, Existing(m, w.deal), pipeline, stage, owner, at);
    IngestStores(m, w, env, w.deal);
    hide Ingest, DetectChanges, Chained, NewPlace;
    forall deal ensures Fold(after.events, deal)
                     == if deal == w.deal then Some(Refs(pipeline, stage, owner)) else Stored(m.deals, deal)
                ensures deal != w.deal ==> Stored(after.deals, deal) == Stored(m.deals, deal)
    {
      IngestStores(m, w, env, deal);
      ChangesReplay(m, w.deal, pipeline, stage, owner, at, deal);
    }
    ChangesReplay(m, w.deal, pipeline, stage, owner, at, w.deal);
    assert Fold(after.events, w.deal) == Some(Refs(pipeline, stage, owner));
  }

  /** A second delivery of the same webhook adds no event exactly when the first lost no
      owner; if the payload carries its time, it then changes nothing at all. */
  lemma RedeliveryIff(m: Mirror, w: Webhook, env: Surroundings, later: Instant)
    ensures var once := Ingest(m, w, env);
            var twice := Ingest(once, w, env.(now := later));
            && (twice.events == once.events <==> !LosesOwner(m, w, env.owners))
            && (!LosesOwner(m, w, env.owners) && w.stageUpdated.Some? ==> twice == once)
  {
    var once := Ingest(m, w, env);
    var twice := Ingest(once, w, env.(now := later));
    IngestStores(m, w, env, w.deal);
    hide DealData;
    assert w.deal in once.deals;
    assert NewPlace(once, w, env.resolver) == NewPlace(m, w, env.resolver);
    if !LosesOwner(m, w, env.owners) {
      assert NewOwner(once, w, env.owners) == NewOwner(m, w, env.owners) == Value(once.deals, w.deal, Owner);
      assert twice.events == once.events + [];
      if w.stageUpdated.Some? {
        var (pipeline, stage) := NewPlace(m, w, env.resolver);
        var data := DealData(w, pipeline, stage, NewOwner(m, w, env.owners), w.stageUpdated.value);
        assert once.deals == UpsertDeal(m.deals, w.deal, data) && twice.deals == UpsertDeal(once.deals, w.deal, data);
        assert twice.deals[w.deal] == once.deals[w.deal] + data == once.deals[w.deal];
      }
    } else {
      assert NewOwner(once, w, env.owners).None?;
      assert |twice.events| > |once.events|;
    }
  }

  // Runs of webhooks only

  function After(deliveries: seq<(Webhook, Surroundings)>): Mirror {
    if deliveries == [] then Mirror(map[], [])
    else
      var (w, env) := deliveries[|deliveries| - 1];
      Ingest(After(deliveries[..|deliveries| - 1]), w, env)
  }

  /** Delivery `k` carries a value of this column for this deal, and none after it does. */
  ghost predicate LastToCarry(deliveries: seq<(Webhook, Surroundings)>, k: nat, id: int, c: Column) {
    && k < |deliveries| && deliveries[k].0.deal == id
    && Carried(deliveries[k].0, deliveries[k].1, c).Some?
    && NoneCarries(deliveries, k + 1, id, c)
  }

  ghost predicate NoneCarries(deliveries: seq<(Webhook, Surroundings)>, from: nat, id: int, c: Column) {
    forall j :: from <= j < |deliveries| && deliveries[j].0.deal == id ==>
      Carried(deliveries[j].0, deliveries[j].1, c).None?
  }

  lemma NoneCarriesSnoc(deliveries: seq<(Webhook, Surroundings)>, from: nat, id: int, c: Column)
    requires from < |deliveries|
    ensures var n := |deliveries| - 1;
            var (w, env) := deliveries[n];
            NoneCarries(deliveries, from, id, c)
            <==> NoneCarries(deliveries[..n], from, id, c) && (w.deal == id ==> Carried(w, env, c).None?)
  {
    var n := |deliveries| - 1;
    hide Carried;
    assert forall j :: 0 <= j < n ==> deliveries[..n][j] == deliveries[j];
  }

  lemma LastToCarrySnoc(deliveries: seq<(Webhook, Surroundings)>, k: nat, id: int, c: Column)
    requires LastToCarry(deliveries, k, id, c)
    ensures var n := |deliveries| - 1;
            var (w, env) := deliveries[n];
            k == n || (deliveries[..n][k] == deliveries[k] && LastToCarry(deliveries[..n], k, id, c)
                       && (w.deal == id ==> Carried(w, env, c).None?))
  {
    if k < |deliveries| - 1 {
      NoneCarriesSnoc(deliveries, k + 1, id, c);
    }
    hide Carried, NoneCarries;
  }

  /** Over a run every column of every deal is the last value carried for it, and null
      exactly when none was. */
  lemma {:induction false} ColumnIsLastCarried(deliveries: seq<(Webhook, Surroundings)>, id: int, c: Column, k: nat)
    ensures LastToCarry(deliveries, k, id, c) ==>
              Value(After(deliveries).deals, id, c) == Carried(deliveries[k].0, deliveries[k].1, c)
    ensures Value(After(deliveries).deals, id, c).None? <==> NoneCarries(deliveries, 0, id, c)
  {
    if deliveries != [] {
      var n := |deliveries| - 1;
      var (w, env) := deliveries[n];
      ColumnIsLastCarried(deliveries[..n], id, c, k);
      IngestWrites(After(deliveries[..n]), w, env, id, c);
      NoneCarriesSnoc(deliveries, 0, id, c);
      assert After(deliveries) == Ingest(After(deliveries[..n]), w, env);
      if LastToCarry(deliveries, k, id, c) {
        LastToCarrySnoc(deliveries, k, id, c);
        assert k == n ==> w.deal == id && Carried(w, env, c).Some?;
      }
      hide After, Ingest, Carried, Value, NoneCarries, LastToCarry;
    } else {
      hide Carried;
    }
  }

  predicate LosesOwnerAt(deliveries: seq<(Webhook, Surroundings)>, k: nat)
    requires k < |deliveries|
  {
    LosesOwner(After(deliveries[..k]), deliveries[k].0, deliveries[k].1.owners)
  }

  ghost predicate ReplaysAt(deliveries: seq<(Webhook, Surroundings)>, k: nat)
    requires k <= |deliveries|
  {
    Replays(After(deliveries[..k])) && Chained(After(deliveries[..k]).events)
  }

  lemma AfterStep(deliveries: seq<(Webhook, Surroundings)>, k: nat)
    requires k < |deliveries|
    ensures After(deliveries[..k + 1]) == Ingest(After(deliveries[..k]), deliveries[k].0, deliveries[k].1)
  {
    assert deliveries[..k + 1][..k] == deliveries[..k];
  }

  /** The deal has an owner in the snapshot that its events do not know of. */
  predicate OwnerAdrift(m: Mirror, deal: int) {
    var stored, refs := Value(m.deals, deal, Owner), Fold(m.events, deal);
    stored.Some? && (refs.None? || refs.value.owner != stored)
  }

  /** What no later delivery repairs. */
  ghost predicate Broken(m: Mirror) {
    !Chained(m.events) || exists deal :: OwnerAdrift(m, deal)
  }

  lemma BrokenIsNotReplayed(m: Mirror)
    ensures Broken(m) ==> !(Replays(m) && Chained(m.events))
  {
    if Broken(m) && Chained(m.events) {
      var deal :| OwnerAdrift(m, deal);
      assert Fold(m.events, deal) != Stored(m.deals, deal);
    }
  }

  lemma ChainedPrefix(events: seq<DealEvent>, more: seq<DealEvent>)
    requires Chained(events + more)
    ensures Chained(events)
  {
    forall k | 0 <= k < |events| ensures Follows(events[k], Fold(events[..k], events[k].deal)) {
      assert (events + more)[k] == events[k] && (events + more)[..k] == events[..k];
    }
  }

  lemma ChainedAt(events: seq<DealEvent>, e: DealEvent)
    requires Chained(events + [e])
    ensures Follows(e, Fold(events, e.deal))
  {
    assert (events + [e])[|events|] == e && (events + [e])[..|events|] == events;
  }

  /** A delivery leaves an owner that is adrift adrift, or breaks the chain over it. */
  lemma AdriftStays(m: Mirror, w: Webhook, env: Surroundings, deal: int)
    requires OwnerAdrift(m, deal)
    ensures Chained(Ingest(m, w, env).events) ==> OwnerAdrift(Ingest(m, w, env), deal)
  {
    var after := Ingest(m, w, env);
    var (pipeline, stage) := NewPlace(m, w, env.resolver);
    var owner := NewOwner(m, w, env.owners);
    var at := if w.stageUpdated.Some? then w.stageUpdated.value else env.now;
    var changes := DetectChanges(w.deal, Existing(m, w.deal), pipeline, stage, owner, at);
    assert after.events == m.events + changes;
    IngestStores(m, w, env, deal);
    StoredOwner(m.deals, deal);
    StoredOwner(after.deals, deal);
    ChangesKnowOwner(Existing(m, w.deal), w.deal, pipeline, stage, owner, at, Fold(m.events, w.deal));
    assert deal == w.deal ==>
        Existing(m, deal).Some? && Get(Existing(m, deal).value, Owner) == Value(m.deals, deal, Owner);
    hide DealData, UpsertDeal, NewPlace, Chained, Ingest, Fold;
    hide DetectChanges, Follows, Replay, Stored, Existing, Value, Get;
    if Chained(after.events) {
      FoldChanges(m.events, changes, w.deal, deal);
    }
  }

  /** Two events or fewer of one deal: how they fold, and that each follows. */
  lemma FoldChanges(events: seq<DealEvent>, changes: seq<DealEvent>, of: int, deal: int)
    requires |changes| <= 2 && (forall k :: 0 <= k < |changes| ==> changes[k].deal == of)
    requires Chained(events + changes)
    ensures Fold(events + changes, deal)
         == if deal == of then ReplayAll(changes, Fold(events, deal)) else Fold(events, deal)
    ensures FollowAll(changes, Fold(events, of))
  {
    if |changes| == 0 {
      assert events + changes == events;
    } else {
      var one := events + [changes[0]];
      assert |changes| == 1 ==> events + changes == one;
      assert |changes| == 2 ==> events + changes == one + [changes[1]];
      assert one + changes[1..] == events + changes;
      ChainedPrefix(one, changes[1..]);
      FoldAppend(events, changes[0], deal);
      FoldAppend(events, changes[0], of);
      ChainedAt(events, changes[0]);
      hide Chained, Follows, Fold, Replay;
      if |changes| == 2 {
        FoldAppend(one, changes[1], deal);
        ChainedAt(one, changes[1]);
      }
    }
  }

  function ReplayAll(changes: seq<DealEvent>, refs: Option<Refs>): Option<Refs>
    requires |changes| <= 2
  {
    if |changes| == 0 then refs
    else if |changes| == 1 then Replay(changes[0], refs)
    else Replay(changes[1], Replay(changes[0], refs))
  }

  predicate FollowAll(changes: seq<DealEvent>, refs: Option<Refs>)
    requires |changes| <= 2
  {
    && (|changes| > 0 ==> Follows(changes[0], refs))
    && (|changes| > 1 ==> Follows(changes[1], Replay(changes[0], refs)))
  }

  /** Changes detected against a row, if they follow, leave an owner that disagrees with
      the row's as it is: they can only move it by agreeing first. */
  lemma ChangesKnowOwner(
    existing: Option<Row>, deal: int, pipeline: Option<int>, stage: Option<int>, owner: Option<int>, at: Instant,
    refs: Option<Refs>)
    ensures var changes := DetectChanges(deal, existing, pipeline, stage, owner, at);
            && |changes| <= 2 && (forall k :: 0 <= k < |changes| ==> changes[k].deal == deal)
            && (existing.Some? && FollowAll(changes, refs)
                && (refs.None? || refs.value.owner != Get(existing.value, Owner)) ==>
                  && owner == Get(existing.value, Owner)
                  && var after := ReplayAll(changes, refs);
                     after.None? || after.value.owner != owner)
  {
  }

  lemma BrokenStays(m: Mirror, w: Webhook, env: Surroundings)
    requires Broken(m)
    ensures Broken(Ingest(m, w, env))
  {
    var after := Ingest(m, w, env);
    if Chained(after.events) {
      ChainedPrefix(m.events, after.events[|m.events|..]);
      assert after.events == m.events + after.events[|m.events|..];
      var deal :| OwnerAdrift(m, deal);
      AdriftStays(m, w, env, deal);
    }
  }

  lemma LossBreaks(m: Mirror, w: Webhook, env: Surroundings)
    requires Replays(m) && Chained(m.events) && LosesOwner(m, w, env.owners)
    ensures Broken(Ingest(m, w, env))
  {
    var (pipeline, stage) := NewPlace(m, w, env.resolver);
    var at := if w.stageUpdated.Some? then w.stageUpdated.value else env.now;
    hide DealData, UpsertDeal, Fold, Chained, Replays, NewPlace;
    IngestStores(m, w, env, w.deal);
    ChangesReplay(m, w.deal, pipeline, stage, None, at, w.deal);
    assert OwnerAdrift(Ingest(m, w, env), w.deal);
  }

  /** One delivery: a log that replays goes on replaying or breaks, a broken one stays so. */
  lemma StepReplaysOrBreaks(m: Mirror, w: Webhook, env: Surroundings)
    requires (Replays(m) && Chained(m.events)) || Broken(m)
    ensures var after := Ingest(m, w, env);
            if Broken(m) || LosesOwner(m, w, env.owners)
            then Broken(after) && !(Replays(after) && Chained(after.events))
            else Replays(after) && Chained(after.events)
  {
    if Broken(m) {
      BrokenStays(m, w, env);
      BrokenIsNotReplayed(Ingest(m, w, env));
    } else if LosesOwner(m, w, env.owners) {
      LossBreaks(m, w, env);
      BrokenIsNotReplayed(Ingest(m, w, env));
    } else {
      IngestReplaysIff(m, w, env);
    }
    hide Ingest, Chained, Replays, Broken, LosesOwner;
  }

  /** The log replays to the snapshot in an unbroken chain exactly as long as no delivery
      has lost an owner: what one loses no later one brings back. */
  lemma {:induction false} RunReplaysIff(deliveries: seq<(Webhook, Surroundings)>, n: nat)
    requires n <= |deliveries|
    ensures ReplaysAt(deliveries, n) <==> forall k :: 0 <= k < n ==> !LosesOwnerAt(deliveries, k)
    ensures ReplaysAt(deliveries, n) <==> !Broken(After(deliveries[..n]))
  {
    hide After, ReplaysAt, LosesOwnerAt, Broken;
    if n == 0 {
      EmptyReplays(deliveries);
    } else {
      RunReplaysIff(deliveries, n - 1);
      NextReplaysIff(deliveries, n - 1);
    }
  }

  lemma NextReplaysIff(deliveries: seq<(Webhook, Surroundings)>, k: nat)
    requires k < |deliveries| && (ReplaysAt(deliveries, k) || Broken(After(deliveries[..k])))
    ensures ReplaysAt(deliveries, k + 1)
       <==> !Broken(After(deliveries[..k])) && !LosesOwnerAt(deliveries, k)
    ensures ReplaysAt(deliveries, k + 1) <==> !Broken(After(deliveries[..k + 1]))
  {
    var m, w, env := After(deliveries[..k]), deliveries[k].0, deliveries[k].1;
    AfterStep(deliveries, k);
    hide After, Ingest, Replays, Chained, Broken, LosesOwner;
    StepReplaysOrBreaks(m, w, env);
    BrokenIsNotReplayed(Ingest(m, w, env));
  }

  lemma EmptyReplays(deliveries: seq<(Webhook, Surroundings)>)
    ensures ReplaysAt(deliveries, 0) && !Broken(After(deliveries[..0]))
  {
  }

  /** Owner rows are only ever added, and every owner carried has one by the time its
      webhook arrives. */
  ghost predicate OwnersKnown(deliveries: seq<(Webhook, Surroundings)>) {
    && (forall k :: 0 <= k < |deliveries| && deliveries[k].0.owner.Some? ==>
          deliveries[k].0.owner.value in deliveries[k].1.owners)
    && (forall j, k :: 0 <= j <= k < |deliveries| ==> deliveries[j].1.owners <= deliveries[k].1.owners)
  }

  /** One delivery with a known owner keeps a deal's stored owner among the known ones. */
  lemma OwnerStaysKnown(m: Mirror, w: Webhook, env: Surroundings, before: set<int>, deal: int)
    requires before <= env.owners && (w.owner.Some? ==> w.owner.value in env.owners)
    requires var owner := Value(m.deals, deal, Owner); owner.Some? ==> owner.value in before
    ensures var owner := Value(Ingest(m, w, env).deals, deal, Owner); owner.Some? ==> owner.value in env.owners
  {
    IngestStores(m, w, env, deal);
    StoredOwner(m.deals, deal);
    StoredOwner(Ingest(m, w, env).deals, deal);
    hide Ingest, NewPlace, Value, Stored;
  }

  lemma StoredOwner(deals: Deals, deal: int)
    ensures Value(deals, deal, Owner) == match Stored(deals, deal)
                                         case Some(refs) => refs.owner
                                         case None => None
  {
  }

  lemma {:induction false} StoredOwnersAreKnown(deliveries: seq<(Webhook, Surroundings)>, n: nat, deal: int)
    requires OwnersKnown(deliveries) && n <= |deliveries|
    ensures var owner := Value(After(deliveries[..n]).deals, deal, Owner);
            owner.Some? ==> n > 0 && owner.value in deliveries[n - 1].1.owners
  {
    if n > 0 {
      StoredOwnersAreKnown(deliveries, n - 1, deal);
      AfterStep(deliveries, n - 1);
      var (w, env) := deliveries[n - 1];
      var before := if n > 1 then deliveries[n - 2].1.owners else {};
      assert before <= env.owners && (w.owner.Some? ==> w.owner.value in env.owners);
      hide After, Ingest, OwnersKnown, Value;
      OwnerStaysKnown(After(deliveries[..n - 1]), w, env, before, deal);
    }
  }

  /** With every carried owner known, the log of any webhook-only run replays to the
      snapshot and each event's old ids are what the events before it add up to. */
  lemma WebhookRunReplays(deliveries: seq<(Webhook, Surroundings)>)
    requires OwnersKnown(deliveries)
    ensures Replays(After(deliveries)) && Chained(After(deliveries).events)
  {
    forall k | 0 <= k < |deliveries| ensures !LosesOwnerAt(deliveries, k) {
      StoredOwnersAreKnown(deliveries, k, deliveries[k].0.deal);
    }
    RunReplaysIff(deliveries, |deliveries|);
    assert deliveries[..|deliveries|] == deliveries;
    assert ReplaysAt(deliveries, |deliveries|);
  }
}
