/** Pushing leads to the CRM (app/services/lead_crm_sync.py). */
module LeadCrmSync {
  import opened Common
  import opened Leads

  const NOG_SLUG := "nog-2026"
  const WEBSITE_SLUG := "wtcabuja-website"

  datatype Answer = Accepts | RejectsStatus | Refuses

  /** The CRM's answers for each lead: to the contact, to the retry without its status, and
      whether it takes the second participant's contact, which has no status. */
  datatype Crm = Crm(first: nat -> Answer, retry: nat -> Answer, second: nat -> bool)

  function BuildContactPayload(lead: Lead, c: Campaign): Contact {
    var sent := lead.pack == PackSent;
    Contact(
      lead.email, lead.requested, lead.tags,
      if c.slug == NOG_SLUG then Some(if sent then "Yes" else "No") else None,
      if c.slug == NOG_SLUG then Some(if sent then "Nurturing" else "New") else None,
      c.slug == WEBSITE_SLUG)
  }

  /** The contact the CRM takes, if it takes one. */
  function Takes(contact: Contact, first: Answer, retry: Answer): Option<Contact> {
    if first == Accepts then Some(contact)
    else if first == RejectsStatus && contact.hasStatusField && retry == Accepts
    then Some(contact.(hasStatusField := false))
    else None
  }

  method UpsertWithStatusFallback(contact: Contact, first: Answer, retry: Answer)
    returns (taken: Option<Contact>, calls: nat)
    ensures taken == Takes(contact, first, retry)
    ensures 1 <= calls <= 2 && (calls == 2 <==> first == RejectsStatus && contact.hasStatusField)
  {
    if first == Accepts {
      return Some(contact), 1;
    }
    if !contact.hasStatusField || first != RejectsStatus {
      return None, 1;
    }
    var retryContact := contact.(hasStatusField := false);
    return if retry == Accepts then Some(retryContact) else None, 2;
  }

  /** The fallback gives up the status field and nothing else, and only where the contact
      has one; a contact without it is taken as built or not at all. */
  lemma FallbackKeepsTheRest(lead: Lead, c: Campaign, first: Answer, retry: Answer)
    ensures var built := BuildContactPayload(lead, c);
            var taken := Takes(built, first, retry);
            && (taken.Some? ==> taken.value.(hasStatusField := built.hasStatusField) == built)
            && (c.slug == NOG_SLUG && taken.Some? ==> taken.value == built)
            && (taken.Some? <==>
                  first == Accepts || (c.slug == WEBSITE_SLUG && first == RejectsStatus && retry == Accepts))
  {
    assert NOG_SLUG != WEBSITE_SLUG by {
      assert |NOG_SLUG| != |WEBSITE_SLUG|;
    }
  }

  /** Is a push attempted at all? `force` is the staff override. */
  predicate Attempted(c: Campaign, enabled: bool, force: bool) {
    enabled && (force || c.crmSyncEnabled)
  }

  function Taken(id: nat, lead: Lead, c: Campaign, crm: Crm): Option<Contact> {
    Takes(BuildContactPayload(lead, c), crm.first(id), crm.retry(id))
  }

  function SyncedLead(id: nat, lead: Lead, c: Campaign, enabled: bool, force: bool, crm: Crm): Lead {
    lead.(crm := if !Attempted(c, enabled, force) then CrmSkipped
                 else if Taken(id, lead, c, crm).Some? then CrmSynced
                 else CrmFailed)
  }

  /** The contacts the CRM took: the lead's, then the second participant's. */
  function FirstPush(id: nat, lead: Lead, c: Campaign, enabled: bool, force: bool, crm: Crm): seq<Event> {
    var taken := Taken(id, lead, c, crm);
    if Attempted(c, enabled, force) && taken.Some? then [Pushed(id, taken.value)] else []
  }

  function SecondPush(id: nat, lead: Lead, c: Campaign, enabled: bool, force: bool, crm: Crm): seq<Event> {
    if Attempted(c, enabled, force) && lead.second != "" && crm.second(id)
    then [PushedSecond(id, lead.second)] else []
  }

  /** `sync_lead` on lead `id`. */
  function Sync(s: State, id: nat, c: Campaign, enabled: bool, force: bool, crm: Crm): State
    requires id < |s.leads|
  {
    var lead := s.leads[id];
    s.(leads := s.leads[id := SyncedLead(id, lead, c, enabled, force, crm)],
       log := s.log + FirstPush(id, lead, c, enabled, force, crm) + SecondPush(id, lead, c, enabled, force, crm))
  }

  /** What a contact says: the lead's own email, request and tags; whether its material was
      sent, for nog-2026 alone; and a status to set, for the website alone. */
  lemma ContactSays(lead: Lead, c: Campaign)
    ensures var contact := BuildContactPayload(lead, c);
            && contact.email == lead.email && contact.requested == lead.requested && contact.tags == lead.tags
            && (c.slug != "nog-2026" ==> contact.collateralSent == contact.lifecycleStage == None)
            && (c.slug == "nog-2026" && lead.pack == PackSent ==>
                  contact.collateralSent == Some("Yes") && contact.lifecycleStage == Some("Nurturing"))
            && (c.slug == "nog-2026" && lead.pack != PackSent ==>
                  contact.collateralSent == Some("No") && contact.lifecycleStage == Some("New"))
            && (contact.hasStatusField <==> c.slug == "wtcabuja-website")
  {
  }

  /** The three outcomes of a push, by the switches - the campaign's, which staff may override,
      and the service's, which nobody may - and the answers of the CRM; and what is told. */
  lemma SyncOutcome(s: State, id: nat, c: Campaign, enabled: bool, force: bool, crm: Crm)
    requires id < |s.leads|
    ensures var after, lead := Sync(s, id, c, enabled, force, crm), s.leads[id];
            var off := !enabled || (!force && !c.crmSyncEnabled);
            var taken := crm.first(id) == Accepts
                         || (c.slug == "wtcabuja-website"
                             && crm.first(id) == RejectsStatus && crm.retry(id) == Accepts);
            var status := if off then CrmSkipped else if taken then CrmSynced else CrmFailed;
            && after.campaigns == s.campaigns
            && after.leads == s.leads[id := lead.(crm := status)]
            && |after.log| == |s.log| + (if !off && taken then 1 else 0)
                              + (if !off && lead.second != "" && crm.second(id) then 1 else 0)
            && (!off && taken ==>
                  && after.log[|s.log|].Pushed? && after.log[|s.log|].lead == id
                  && after.log[|s.log|].contact.email == lead.email)
            && (!off && lead.second != "" && crm.second(id) ==>
                  after.log[|after.log| - 1] == PushedSecond(id, lead.second))
  {
    FallbackKeepsTheRest(s.leads[id], c, crm.first(id), crm.retry(id));
    ContactSays(s.leads[id], c);
    hide Takes, BuildContactPayload;
  }

  /** What becomes of the second participant's contact leaves no trace in any row, and the
      push happens whatever became of the first contact's. */
  lemma SecondLeavesNoTrace(s: State, id: nat, c: Campaign, enabled: bool, force: bool, crm: Crm, other: Crm)
    requires id < |s.leads| && crm.first == other.first && crm.retry == other.retry
    ensures Sync(s, id, c, enabled, force, crm).leads == Sync(s, id, c, enabled, force, other).leads
    ensures PushedSecond(id, s.leads[id].second) in Sync(s, id, c, enabled, force, crm).log[|s.log|..]
       <==> Attempted(c, enabled, force) && s.leads[id].second != "" && crm.second(id)
  {
    var log := Sync(s, id, c, enabled, force, crm).log;
    var lead := s.leads[id];
    assert log[|s.log|..] == FirstPush(id, lead, c, enabled, force, crm) + SecondPush(id, lead, c, enabled, force, crm);
    hide Takes, BuildContactPayload;
  }

  predicate AwaitsSync(lead: Lead) {
    lead.crm == CrmPending || lead.crm == CrmFailed
  }

  predicate IsSynced(lead: Lead) {
    lead.crm == CrmSynced
  }

  function SyncIds(s: State, ids: seq<nat>, crm: Crm): (r: State)
    requires forall k :: 0 <= k < |ids| ==> ids[k] < |s.leads|
    ensures |r.leads| == |s.leads| && r.campaigns == s.campaigns
  {
    if ids == [] then s
    else
      var before, id := SyncIds(s, ids[..|ids| - 1], crm), ids[|ids| - 1];
      var campaign := before.leads[id].campaign;
      if campaign in s.campaigns then Sync(before, id, s.campaigns[campaign], true, false, crm) else before
  }

  function Sweep(s: State, enabled: bool, limit: nat, crm: Crm): State {
    if enabled then SyncIds(s, ListWhere(s.leads, AwaitsSync, 0, limit), crm) else s
  }

  method SyncLead(db: LeadStore, id: nat, c: Campaign, enabled: bool, force: bool, crm: Crm)
    requires id < |db.leads|
    modifies db
    ensures db.Now() == Sync(old(db.Now()), id, c, enabled, force, crm)
  {
    var lead := db.leads[id];
    var campaignEnabled := force || c.crmSyncEnabled;
    if !enabled || !campaignEnabled {
      db.leads := db.leads[id := lead.(crm := CrmSkipped)];
      return;
    }
    hide Takes, BuildContactPayload;
    var taken, _ := UpsertWithStatusFallback(BuildContactPayload(lead, c), crm.first(id), crm.retry(id));
    if taken.Some? {
      db.log := db.log + [Pushed(id, taken.value)];
      lead := lead.(crm := CrmSynced);
    } else {
      lead := lead.(crm := CrmFailed);
    }
    if lead.second != "" {
      var secondTaken := crm.second(id);
      if secondTaken {
        db.log := db.log + [PushedSecond(id, lead.second)];
      }
    }
    db.leads := db.leads[id := lead];
  }

  lemma SyncTouchesOne(s: State, id: nat, c: Campaign, enabled: bool, force: bool, crm: Crm)
    requires id < |s.leads|
    ensures var after := Sync(s, id, c, enabled, force, crm);
            && after.campaigns == s.campaigns && after.leads == s.leads[id := after.leads[id]]
            && CountWhere(after.leads, IsSynced)
               == CountWhere(s.leads, IsSynced)
                  + (if IsSynced(after.leads[id]) then 1 else 0) - (if IsSynced(s.leads[id]) then 1 else 0)
  {
    hide SyncedLead, FirstPush, SecondPush, CountWhere;
    CountReplaced(s.leads, IsSynced, id, Sync(s, id, c, enabled, force, crm).leads[id]);
  }

  lemma SyncIdsSnoc(s: State, ids: seq<nat>, i: nat, crm: Crm)
    requires i < |ids| && forall k :: 0 <= k < |ids| ==> ids[k] < |s.leads|
    ensures var before := SyncIds(s, ids[..i], crm);
            var campaign := before.leads[ids[i]].campaign;
            SyncIds(s, ids[..i + 1], crm)
            == if campaign in s.campaigns then Sync(before, ids[i], s.campaigns[campaign], true, false, crm) else before
  {
    assert ids[..i + 1][..i] == ids[..i];
  }

  lemma {:induction false} SyncIdsLeaveOthers(s: State, ids: seq<nat>, crm: Crm, other: nat)
    requires (forall k :: 0 <= k < |ids| ==> ids[k] < |s.leads|) && other < |s.leads| && other !in ids
    ensures SyncIds(s, ids, crm).leads[other] == s.leads[other]
  {
    if ids != [] {
      SyncIdsLeaveOthers(s, ids[..|ids| - 1], crm, other);
      assert ids[|ids| - 1] in ids;
      hide SyncedLead, FirstPush, SecondPush;
    }
  }

  /** A sweep handles each listed lead exactly once, as it was when listed. */
  lemma {:induction false} SyncIdsHandleListed(s: State, ids: seq<nat>, crm: Crm, i: nat)
    requires Listed(s.leads, AwaitsSync, ids)
    requires i in ids && s.leads[i].campaign in s.campaigns
    ensures SyncIds(s, ids, crm).leads[i]
         == SyncedLead(i, s.leads[i], s.campaigns[s.leads[i].campaign], true, false, crm)
  {
    var n := |ids| - 1;
    hide SyncedLead, FirstPush, SecondPush;
    if i == ids[n] {
      assert i !in ids[..n];
      SyncIdsLeaveOthers(s, ids[..n], crm, i);
    } else {
      assert i in ids[..n] by {
        assert ids == ids[..n] + [ids[n]];
      }
      SyncIdsHandleListed(s, ids[..n], crm, i);
    }
  }

  /** One turn of the sweep, as a step of `SyncIds`. */
  lemma SyncTurn(s: State, ids: seq<nat>, i: nat, crm: Crm)
    requires i < |ids| && Listed(s.leads, AwaitsSync, ids)
    ensures var before, after := SyncIds(s, ids[..i], crm), SyncIds(s, ids[..i + 1], crm);
            var lead := s.leads[ids[i]];
            && before.leads[ids[i]] == lead
            && after == (if lead.campaign in s.campaigns
                         then Sync(before, ids[i], s.campaigns[lead.campaign], true, false, crm)
                         else before)
            && CountWhere(after.leads, IsSynced)
               == CountWhere(before.leads, IsSynced) + if IsSynced(after.leads[ids[i]]) then 1 else 0
  {
    SyncIdsLeaveOthers(s, ids[..i], crm, ids[i]);
    SyncIdsSnoc(s, ids, i, crm);
    var before, campaign := SyncIds(s, ids[..i], crm), s.leads[ids[i]].campaign;
    hide SyncIds, Sync, CountWhere;
    if campaign in s.campaigns {
      SyncTouchesOne(before, ids[i], s.campaigns[campaign], true, false, crm);
    }
  }

  /** Returns how many more leads are synced than before. */
  method SyncPending(db: LeadStore, enabled: bool, limit: nat, crm: Crm) returns (synced: nat)
    modifies db
    ensures db.Now() == Sweep(old(db.Now()), enabled, limit, crm)
    ensures CountWhere(db.leads, IsSynced) == CountWhere(old(db.leads), IsSynced) + synced
  {
    if !enabled {
      return 0;
    }
    ghost var s := db.Now();
    assert SyncIds(s, [], crm) == s;
    hide CountWhere, ListWhere, Sync, SyncIds;
    var ids := ListWhere(db.leads, AwaitsSync, 0, limit);
    ListIsListed(db.leads, AwaitsSync, 0, limit);
    hide Listed;
    assert ids[..0] == [] && ids[..|ids|] == ids;
    var cache: map<nat, Campaign> := map[];
    synced := 0;
    for i := 0 to |ids|
      invariant db.Now() == SyncIds(s, ids[..i], crm)
      invariant forall c :: c in cache ==> c in s.campaigns && cache[c] == s.campaigns[c]
      invariant CountWhere(db.leads, IsSynced) == CountWhere(s.leads, IsSynced) + synced
    {
      SyncTurn(s, ids, i, crm);
      var id := ids[i];
      var campaign := db.leads[id].campaign;
      if campaign !in cache {
        if campaign !in db.campaigns {
          continue;
        }
        cache := cache[campaign := db.campaigns[campaign]];
      }
      SyncLead(db, id, cache[campaign], true, false, crm);
      if db.leads[id].crm == CrmSynced {
        synced := synced + 1;
      }
    }
  }

  /** With the backlog within the limit, a sweep leaves a lead synced exactly when it was, or
      when it was pending or had failed, its campaign syncs, and the CRM takes the contact. */
  lemma SweptIsSyncedIff(s: State, enabled: bool, limit: nat, crm: Crm, id: nat)
    requires id < |s.leads| && CountWhere(s.leads, AwaitsSync) <= limit
    ensures var lead := s.leads[id];
            Sweep(s, enabled, limit, crm).leads[id].crm == CrmSynced
            <==> || lead.crm == CrmSynced
                 || (&& enabled && (lead.crm == CrmPending || lead.crm == CrmFailed)
                     && lead.campaign in s.campaigns && s.campaigns[lead.campaign].crmSyncEnabled
                     && (crm.first(id) == Accepts
                         || (s.campaigns[lead.campaign].slug == "wtcabuja-website"
                             && crm.first(id) == RejectsStatus && crm.retry(id) == Accepts)))
  {
    var ids := ListWhere(s.leads, AwaitsSync, 0, limit);
    ListIsListed(s.leads, AwaitsSync, 0, limit);
    assert s.leads[0..] == s.leads;
    var lead := s.leads[id];
    if AwaitsSync(lead) {
      BacklogIsListed(s.leads, AwaitsSync, 0, limit, id);
      if lead.campaign in s.campaigns {
        SyncIdsHandleListed(s, ids, crm, id);
        SyncOutcome(s, id, s.campaigns[lead.campaign], true, false, crm);
        assert Sync(s, id, s.campaigns[lead.campaign], true, false, crm).leads[id]
            == SyncedLead(id, lead, s.campaigns[lead.campaign], true, false, crm);
      } else {
        SyncIdsPassOver(s, ids, crm, id);
      }
    } else {
      assert id !in ids;
      SyncIdsLeaveOthers(s, ids, crm, id);
    }
    hide SyncIds, ListWhere, CountWhere, Listed, SyncedLead, Sync;
  }

  /** A lead of no campaign is passed over. */
  lemma {:induction false} SyncIdsPassOver(s: State, ids: seq<nat>, crm: Crm, i: nat)
    requires (forall k :: 0 <= k < |ids| ==> ids[k] < |s.leads|) && i < |s.leads|
    requires s.leads[i].campaign !in s.campaigns
    ensures SyncIds(s, ids, crm).leads[i] == s.leads[i]
  {
    if ids != [] {
      SyncIdsPassOver(s, ids[..|ids| - 1], crm, i);
      hide SyncedLead, FirstPush, SecondPush;
    }
  }
}
