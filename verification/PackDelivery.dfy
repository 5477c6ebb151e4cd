/** Pack and viewing emails (app/services/pack_delivery.py). */
module PackDelivery {
  import opened Common
  import opened Leads

  /** The mail transport: whether it is configured, and whether it takes the pack and the
      viewing email to each lead. */
  datatype Mail = Mail(configured: bool, takesPack: nat -> bool, takesViewing: nat -> bool)

  function FlagCrmRefresh(lead: Lead): Lead {
    if lead.crm == CrmSynced then lead.(crm := CrmPending) else lead
  }

  function NonBlank(urls: seq<string>): seq<string> {
    if urls == [] then [] else (if urls[0] != "" then [urls[0]] else []) + NonBlank(urls[1..])
  }

  function AssetUrls(c: Campaign, material: string): seq<string> {
    if material !in c.assets then []
    else match c.assets[material]
         case Link(url) => NonBlank([url])
         case Links(urls) => NonBlank(urls)
  }

  predicate Deliverable(c: Campaign, material: string) {
    material in c.materials && AssetUrls(c, material) != []
  }

  function DeliverableMaterials(lead: Lead, c: Campaign): seq<string> {
    Distinct(lead.requested, material => Deliverable(c, material))
  }

  method CollectMaterials(lead: Lead, c: Campaign) returns (pairs: seq<(string, seq<string>)>)
    ensures |pairs| == |DeliverableMaterials(lead, c)|
    ensures forall k :: 0 <= k < |pairs| ==>
              pairs[k] == (DeliverableMaterials(lead, c)[k], AssetUrls(c, DeliverableMaterials(lead, c)[k]))
  {
    pairs := [];
    var seen: set<string> := {};
    var keep := material => Deliverable(c, material);
    for i := 0 to |lead.requested|
      invariant var d := Distinct(lead.requested[..i], keep);
                && |pairs| == |d| && (forall x :: x in seen <==> x in d)
                && forall k :: 0 <= k < |d| ==> pairs[k] == (d[k], AssetUrls(c, d[k]))
    {
      assert lead.requested[..i + 1][..i] == lead.requested[..i];
      var material := lead.requested[i];
      if material in seen || material !in c.materials {
        continue;
      }
      var urls := AssetUrls(c, material);
      if urls != [] {
        seen := seen + {material};
        pairs := pairs + [(material, urls)];
      }
    }
    assert lead.requested[..|lead.requested|] == lead.requested;
  }

  predicate RealMaterialsRequested(lead: Lead, c: Campaign) {
    exists i :: 0 <= i < |lead.requested| && lead.requested[i] in c.materials
  }

  /** The links configured for a material, the blank ones included. */
  function Configured(c: Campaign, material: string): seq<string> {
    if material !in c.assets then []
    else match c.assets[material]
         case Link(url) => [url]
         case Links(urls) => urls
  }

  /** The campaign has a link for this material. */
  predicate HasLink(c: Campaign, material: string) {
    exists url :: url in Configured(c, material) && url != ""
  }

  lemma {:induction false} NonBlankKeeps(urls: seq<string>, url: string)
    ensures url in NonBlank(urls) <==> url in urls && url != ""
  {
    if urls != [] {
      NonBlankKeeps(urls[1..], url);
      assert urls == [urls[0]] + urls[1..];
    }
  }

  /** The links sent for a material are those configured, but for the blank ones. */
  lemma AssetUrlsAreLinks(c: Campaign, material: string)
    ensures AssetUrls(c, material) != [] <==> HasLink(c, material)
    ensures forall url :: url in AssetUrls(c, material) <==> url in Configured(c, material) && url != ""
  {
    var urls, entry := AssetUrls(c, material), Configured(c, material);
    assert urls == NonBlank(entry);
    forall url ensures url in urls <==> url in entry && url != "" {
      NonBlankKeeps(entry, url);
    }
    if urls != [] {
      assert urls[0] in urls;
    }
    hide NonBlank, Configured, AssetUrls;
  }

  /** Every configured material with an asset, in the campaign's order. */
  function AllMaterials(c: Campaign, materials: seq<string>): seq<string> {
    if materials == [] then []
    else (if AssetUrls(c, materials[0]) != [] then [materials[0]] else []) + AllMaterials(c, materials[1..])
  }

  /** Does the pack email to this lead go out? */
  predicate PackGoesOut(id: nat, lead: Lead, c: Campaign, mail: Mail) {
    DeliverableMaterials(lead, c) != [] && mail.configured && mail.takesPack(id)
  }

  function Delivered(lead: Lead, docs: seq<string>, now: Instant): Lead {
    FlagCrmRefresh(lead.(pack := PackSent, deliveredAt := Some(now), delivered := docs))
  }

  function PackLead(id: nat, lead: Lead, c: Campaign, mail: Mail, now: Instant): Lead {
    var materials := DeliverableMaterials(lead, c);
    if materials == [] then
      lead.(pack := if RealMaterialsRequested(lead, c) then PackFailed else PackNotRequested)
    else if !mail.configured then lead.(pack := PackSkipped)
    else if mail.takesPack(id) then Delivered(lead, materials, now)
    else lead.(pack := PackFailed)
  }

  /** `deliver_pack` on lead `id`. */
  function Pack(s: State, id: nat, c: Campaign, mail: Mail, now: Instant): State
    requires id < |s.leads|
  {
    s.(leads := s.leads[id := PackLead(id, s.leads[id], c, mail, now)],
       log := s.log + if PackGoesOut(id, s.leads[id], c, mail) then [PackEmail(id)] else [])
  }

  /** `deliver_viewing` on lead `id`. */
  function Viewing(s: State, id: nat, c: Campaign, mail: Mail, now: Instant): State
    requires id < |s.leads|
  {
    var lead, docs := s.leads[id], AllMaterials(c, c.materials);
    if mail.configured && mail.takesViewing(id) && lead.pack != PackSent && docs != []
    then s.(leads := s.leads[id := Delivered(lead, docs, now)])
    else s
  }

  predicate AwaitsPack(lead: Lead) {
    lead.pack == PackPending || lead.pack == PackFailed
  }

  predicate IsSent(lead: Lead) {
    lead.pack == PackSent
  }

  function PackIds(s: State, ids: seq<nat>, mail: Mail, now: Instant): (r: State)
    requires forall k :: 0 <= k < |ids| ==> ids[k] < |s.leads|
    ensures |r.leads| == |s.leads| && r.campaigns == s.campaigns
  {
    if ids == [] then s
    else
      var before, id := PackIds(s, ids[..|ids| - 1], mail, now), ids[|ids| - 1];
      var campaign := before.leads[id].campaign;
      if campaign in s.campaigns then Pack(before, id, s.campaigns[campaign], mail, now) else before
  }

  function Sweep(s: State, limit: nat, mail: Mail, now: Instant): State {
    PackIds(s, ListWhere(s.leads, AwaitsPack, 0, limit), mail, now)
  }

  method DeliverPack(db: LeadStore, id: nat, c: Campaign, mail: Mail, now: Instant)
    requires id < |db.leads|
    modifies db
    ensures db.Now() == Pack(old(db.Now()), id, c, mail, now)
  {
    var lead := db.leads[id];
    var materials := CollectMaterials(lead, c);
    if materials == [] {
      if RealMaterialsRequested(lead, c) {
        lead := lead.(pack := PackFailed);
      } else {
        lead := lead.(pack := PackNotRequested);
      }
      db.leads := db.leads[id := lead];
      return;
    }
    if !mail.configured {
      db.leads := db.leads[id := lead.(pack := PackSkipped)];
      return;
    }
    var sent := mail.takesPack(id);
    if sent {
      var labels := seq(|materials|, k requires 0 <= k < |materials| => materials[k].0);
      assert labels == DeliverableMaterials(lead, c);
      lead := lead.(pack := PackSent, deliveredAt := Some(now), delivered := labels);
      lead := FlagCrmRefresh(lead);
      db.log := db.log + [PackEmail(id)];
    } else {
      lead := lead.(pack := PackFailed);
    }
    db.leads := db.leads[id := lead];
  }

  method DeliverViewing(db: LeadStore, id: nat, c: Campaign, mail: Mail, now: Instant)
    requires id < |db.leads|
    modifies db`leads
    ensures db.Now() == Viewing(old(db.Now()), id, c, mail, now)
  {
    var lead := db.leads[id];
    var sent := mail.configured && mail.takesViewing(id);
    if !sent || lead.pack == PackSent {
      return;
    }
    var docs := AllMaterials(c, c.materials);
    if docs == [] {
      return;
    }
    lead := lead.(pack := PackSent, deliveredAt := Some(now), delivered := docs);
    lead := FlagCrmRefresh(lead);
    db.leads := db.leads[id := lead];
  }

  lemma PackTouchesOne(s: State, id: nat, c: Campaign, mail: Mail, now: Instant)
    requires id < |s.leads|
    ensures var after := Pack(s, id, c, mail, now);
            && after.campaigns == s.campaigns && after.leads == s.leads[id := after.leads[id]]
            && CountWhere(after.leads, IsSent)
               == CountWhere(s.leads, IsSent)
                  + (if IsSent(after.leads[id]) then 1 else 0) - (if IsSent(s.leads[id]) then 1 else 0)
  {
    hide PackLead, PackGoesOut, CountWhere;
    CountReplaced(s.leads, IsSent, id, Pack(s, id, c, mail, now).leads[id]);
  }

  lemma PackIdsSnoc(s: State, ids: seq<nat>, i: nat, mail: Mail, now: Instant)
    requires i < |ids| && forall k :: 0 <= k < |ids| ==> ids[k] < |s.leads|
    ensures var before := PackIds(s, ids[..i], mail, now);
            var campaign := before.leads[ids[i]].campaign;
            PackIds(s, ids[..i + 1], mail, now)
            == if campaign in s.campaigns then Pack(before, ids[i], s.campaigns[campaign], mail, now) else before
  {
    assert ids[..i + 1][..i] == ids[..i];
  }

  lemma {:induction false} PackIdsLeaveOthers(s: State, ids: seq<nat>, mail: Mail, now: Instant, other: nat)
    requires (forall k :: 0 <= k < |ids| ==> ids[k] < |s.leads|) && other < |s.leads| && other !in ids
    ensures PackIds(s, ids, mail, now).leads[other] == s.leads[other]
  {
    if ids != [] {
      PackIdsLeaveOthers(s, ids[..|ids| - 1], mail, now, other);
      assert ids[|ids| - 1] in ids;
      hide PackLead, PackGoesOut;
    }
  }

  /** One turn of the sweep, as a step of `PackIds`. */
  lemma PackTurn(s: State, ids: seq<nat>, i: nat, mail: Mail, now: Instant)
    requires i < |ids| && Listed(s.leads, AwaitsPack, ids)
    ensures var before, after := PackIds(s, ids[..i], mail, now), PackIds(s, ids[..i + 1], mail, now);
            var lead := s.leads[ids[i]];
            && before.leads[ids[i]] == lead
            && after == (if lead.campaign in s.campaigns
                         then Pack(before, ids[i], s.campaigns[lead.campaign], mail, now)
                         else before)
            && CountWhere(after.leads, IsSent)
               == CountWhere(before.leads, IsSent) + if IsSent(after.leads[ids[i]]) then 1 else 0
  {
    PackIdsLeaveOthers(s, ids[..i], mail, now, ids[i]);
    PackIdsSnoc(s, ids, i, mail, now);
    var before, campaign := PackIds(s, ids[..i], mail, now), s.leads[ids[i]].campaign;
    hide PackIds, Pack, CountWhere;
    if campaign in s.campaigns {
      PackTouchesOne(before, ids[i], s.campaigns[campaign], mail, now);
    }
  }

  /** Returns exactly the rise in sent leads. */
  method DeliverPending(db: LeadStore, limit: nat, mail: Mail, now: Instant) returns (delivered: nat)
    modifies db
    ensures db.Now() == Sweep(old(db.Now()), limit, mail, now)
    ensures CountWhere(db.leads, IsSent) == CountWhere(old(db.leads), IsSent) + delivered
  {
    ghost var s := db.Now();
    assert PackIds(s, [], mail, now) == s;
    hide Pack, PackIds, CountWhere, ListWhere;
    var ids := ListWhere(db.leads, AwaitsPack, 0, limit);
    ListIsListed(db.leads, AwaitsPack, 0, limit);
    hide Listed;
    assert ids[..0] == [] && ids[..|ids|] == ids;
    var cache: map<nat, Campaign> := map[];
    delivered := 0;
    for i := 0 to |ids|
      invariant db.Now() == PackIds(s, ids[..i], mail, now)
      invariant forall c :: c in cache ==> c in s.campaigns && cache[c] == s.campaigns[c]
      invariant CountWhere(db.leads, IsSent) == CountWhere(s.leads, IsSent) + delivered
    {
      PackTurn(s, ids, i, mail, now);
      var id := ids[i];
      var campaign := db.leads[id].campaign;
      if campaign !in cache {
        if campaign !in db.campaigns {
          continue;
        }
        cache := cache[campaign := db.campaigns[campaign]];
      }
      DeliverPack(db, id, cache[campaign], mail, now);
      if db.leads[id].pack == PackSent {
        delivered := delivered + 1;
      }
    }
  }

  /** A sweep handles each listed lead once and no other. */
  lemma PackIdsOnlyListed(s: State, ids: seq<nat>, mail: Mail, now: Instant)
    requires Listed(s.leads, AwaitsPack, ids)
    requires forall k :: 0 <= k < |ids| ==> s.leads[ids[k]].campaign in s.campaigns
    ensures var after := PackIds(s, ids, mail, now);
            forall i :: 0 <= i < |s.leads| ==>
                          after.leads[i] == if i in ids
                                            then PackLead(i, s.leads[i], s.campaigns[s.leads[i].campaign], mail, now)
                                            else s.leads[i]
  {
    hide PackIds, PackLead;
    forall i | 0 <= i < |s.leads|
      ensures PackIds(s, ids, mail, now).leads[i]
           == if i in ids then PackLead(i, s.leads[i], s.campaigns[s.leads[i].campaign], mail, now) else s.leads[i]
    {
      if i in ids {
        PackIdsHandleListed(s, ids, mail, now, i);
      } else {
        PackIdsLeaveOthers(s, ids, mail, now, i);
      }
    }
  }

  lemma {:induction false} PackIdsHandleListed(s: State, ids: seq<nat>, mail: Mail, now: Instant, i: nat)
    requires Listed(s.leads, AwaitsPack, ids)
    requires i in ids && s.leads[i].campaign in s.campaigns
    ensures PackIds(s, ids, mail, now).leads[i]
         == PackLead(i, s.leads[i], s.campaigns[s.leads[i].campaign], mail, now)
  {
    var n := |ids| - 1;
    hide PackLead, PackGoesOut;
    if i == ids[n] {
      assert i !in ids[..n];
      PackIdsLeaveOthers(s, ids[..n], mail, now, i);
    } else {
      assert i in ids[..n] by {
        assert ids == ids[..n] + [ids[n]];
      }
      PackIdsHandleListed(s, ids[..n], mail, now, i);
    }
  }

  /** With the backlog within `limit`, a sweep leaves no lead pending. */
  lemma SweepClearsPending(s: State, limit: nat, mail: Mail, now: Instant)
    requires forall i :: 0 <= i < |s.leads| ==> s.leads[i].campaign in s.campaigns
    requires CountWhere(s.leads, AwaitsPack) <= limit
    ensures forall i :: 0 <= i < |s.leads| ==> Sweep(s, limit, mail, now).leads[i].pack != PackPending
  {
    var ids := ListWhere(s.leads, AwaitsPack, 0, limit);
    assert Sweep(s, limit, mail, now) == PackIds(s, ids, mail, now);
    ListIsListed(s.leads, AwaitsPack, 0, limit);
    hide Sweep, PackIds, PackLead, ListWhere, CountWhere;
    PackIdsOnlyListed(s, ids, mail, now);
    assert s.leads[0..] == s.leads;
    forall i | 0 <= i < |s.leads| ensures Sweep(s, limit, mail, now).leads[i].pack != PackPending {
      if AwaitsPack(s.leads[i]) {
        BacklogIsListed(s.leads, AwaitsPack, 0, limit, i);
        PackSettles(i, s.leads[i], s.campaigns[s.leads[i].campaign], mail, now);
      }
    }
  }

  lemma PackSettles(id: nat, lead: Lead, c: Campaign, mail: Mail, now: Instant)
    ensures PackLead(id, lead, c, mail, now).pack != PackPending
  {
    hide DeliverableMaterials, RealMaterialsRequested;
  }

  predicate Asked(lead: Lead, c: Campaign, material: string) {
    material in lead.requested && material in c.materials
  }

  lemma SomethingToSendIff(lead: Lead, c: Campaign)
    ensures DeliverableMaterials(lead, c) != [] <==> exists m :: Asked(lead, c, m) && HasLink(c, m)
  {
    var _ := DistinctIsExact(lead.requested, m => Deliverable(c, m));
    var docs := DeliverableMaterials(lead, c);
    forall m ensures Deliverable(c, m) <==> m in c.materials && HasLink(c, m) {
      AssetUrlsAreLinks(c, m);
    }
    hide AssetUrls, HasLink, Distinct;
    if docs != [] {
      assert docs[0] in docs;
      assert Asked(lead, c, docs[0]) && HasLink(c, docs[0]);
    }
  }

  /** The four outcomes of a pack delivery.  Nothing listed was asked for: not requested.
      Something with a link was: skipped, sent or failed, as the transport has it.  All that was
      asked for lacks a link: failed, to be tried again when there is one. */
  lemma DeliveryOutcome(id: nat, lead: Lead, c: Campaign, mail: Mail, now: Instant)
    ensures var after := PackLead(id, lead, c, mail, now);
            var asked, ready := exists m :: Asked(lead, c, m), exists m :: Asked(lead, c, m) && HasLink(c, m);
            && (after.pack == PackNotRequested <==> !asked)
            && (after.pack == PackSkipped <==> ready && !mail.configured)
            && (after.pack == PackSent <==> ready && mail.configured && mail.takesPack(id))
            && (after.pack == PackFailed <==> asked && (!ready || (mail.configured && !mail.takesPack(id))))
            && PackGoesOut(id, lead, c, mail) == (after.pack == PackSent)
            && after.crm == (if after.pack == PackSent && lead.crm == CrmSynced then CrmPending else lead.crm)
            && (after.pack == PackSent ==> after.deliveredAt == Some(now))
            && (after.pack != PackSent ==> after.deliveredAt == lead.deliveredAt && after.delivered == lead.delivered)
            && after == lead.(pack := after.pack, deliveredAt := after.deliveredAt, delivered := after.delivered,
                              crm := after.crm)
  {
    SomethingToSendIff(lead, c);
    if RealMaterialsRequested(lead, c) {
      var i :| 0 <= i < |lead.requested| && lead.requested[i] in c.materials;
      assert Asked(lead, c, lead.requested[i]);
    }
    assert (exists m :: Asked(lead, c, m)) ==> RealMaterialsRequested(lead, c);
    hide DeliverableMaterials, HasLink;
  }

  /** All of the campaign's materials that have a link, in the campaign's order. */
  lemma AllMaterialsAre(c: Campaign, materials: seq<string>) returns (places: seq<nat>)
    ensures InOrder(AllMaterials(c, materials), materials, places)
    ensures forall m :: m in AllMaterials(c, materials) <==> m in materials && HasLink(c, m)
  {
    places := AllMaterialsInOrder(c, materials);
    forall m ensures m in AllMaterials(c, materials) <==> m in materials && HasLink(c, m) {
      AllMaterialsIff(c, materials, m);
    }
    hide AllMaterials, HasLink;
  }

  lemma {:induction false} AllMaterialsIff(c: Campaign, materials: seq<string>, m: string)
    ensures m in AllMaterials(c, materials) <==> m in materials && HasLink(c, m)
  {
    if materials != [] {
      AllMaterialsIff(c, materials[1..], m);
      AssetUrlsAreLinks(c, materials[0]);
      hide AssetUrls, HasLink;
      assert materials == [materials[0]] + materials[1..];
    }
  }

  /** `places` says where in `all` each of `docs` stands, and rises. */
  ghost predicate InOrder(docs: seq<string>, all: seq<string>, places: seq<nat>) {
    && |places| == |docs|
    && (forall k :: 0 <= k < |docs| ==> places[k] < |all| && docs[k] == all[places[k]])
    && (forall j, k :: 0 <= j < k < |docs| ==> places[j] < places[k])
  }

  lemma {:induction false} AllMaterialsInOrder(c: Campaign, materials: seq<string>) returns (places: seq<nat>)
    ensures InOrder(AllMaterials(c, materials), materials, places)
  {
    if materials == [] {
      places := [];
    } else {
      var first, others, docs := materials[0], materials[1..], AllMaterials(c, materials[1..]);
      var has := AssetUrls(c, first) != [];
      assert AllMaterials(c, materials) == (if has then [first] else []) + docs;
      places := AllMaterialsInOrder(c, others);
      hide AllMaterials, AssetUrls, InOrder;
      assert materials == [first] + others && [] + docs == docs;
      places := PlacesWith(first, docs, others, places, has);
    }
  }

  /** What stands in order in the tail does so behind the head, with it or without. */
  lemma PlacesWith(first: string, docs: seq<string>, others: seq<string>, rest: seq<nat>, has: bool)
    returns (places: seq<nat>)
    requires InOrder(docs, others, rest)
    ensures InOrder(if has then [first] + docs else docs, [first] + others, places)
  {
    var shifted := seq(|rest|, k requires 0 <= k < |rest| => rest[k] + 1);
    assert InOrder(docs, [first] + others, shifted);
    places := if has then [0] + shifted else shifted;
  }

  /** A viewing email that goes out marks a lead that is not sent yet, with all the documents
      there are, and leaves every other lead and the log alone. */
  lemma ViewingOutcome(s: State, id: nat, c: Campaign, mail: Mail, now: Instant)
    requires id < |s.leads|
    ensures var after, lead := Viewing(s, id, c, mail, now), s.leads[id];
            && after.campaigns == s.campaigns && after.log == s.log && |after.leads| == |s.leads|
            && (forall i :: 0 <= i < |s.leads| && i != id ==> after.leads[i] == s.leads[i])
            && (if lead.pack != PackSent && mail.configured && mail.takesViewing(id)
                   && exists m :: m in c.materials && HasLink(c, m)
                then && after.leads[id].pack == PackSent && after.leads[id].deliveredAt == Some(now)
                     && after.leads[id].delivered == AllMaterials(c, c.materials)
                     && after.leads[id].crm == (if lead.crm == CrmSynced then CrmPending else lead.crm)
                else after.leads[id] == lead)
  {
    var places := AllMaterialsAre(c, c.materials);
    var docs := AllMaterials(c, c.materials);
    if docs != [] {
      assert docs[0] in docs;
    }
    hide AllMaterials, HasLink, InOrder;
  }

  /** A failed lead is not lost: with its link in place and a working transport, a sweep that
      covers the backlog sends what is waiting. */
  lemma SweepSendsWaiting(s: State, limit: nat, mail: Mail, now: Instant, id: nat, material: string)
    requires forall i :: 0 <= i < |s.leads| ==> s.leads[i].campaign in s.campaigns
    requires id < |s.leads| && (s.leads[id].pack == PackPending || s.leads[id].pack == PackFailed)
    requires Asked(s.leads[id], s.campaigns[s.leads[id].campaign], material)
    requires HasLink(s.campaigns[s.leads[id].campaign], material)
    requires mail.configured && mail.takesPack(id) && CountWhere(s.leads, AwaitsPack) <= limit
    ensures Sweep(s, limit, mail, now).leads[id].pack == PackSent
  {
    var ids := ListWhere(s.leads, AwaitsPack, 0, limit);
    assert s.leads[0..] == s.leads;
    ListIsListed(s.leads, AwaitsPack, 0, limit);
    BacklogIsListed(s.leads, AwaitsPack, 0, limit, id);
    hide PackIds, PackLead, ListWhere, CountWhere, HasLink;
    PackIdsOnlyListed(s, ids, mail, now);
    DeliveryOutcome(id, s.leads[id], s.campaigns[s.leads[id].campaign], mail, now);
  }

  /** The list recorded for a pack email: the known materials with an asset, as requested,
      each once, in the order of the request. */
  lemma PackSendsSubList(id: nat, lead: Lead, c: Campaign, mail: Mail, now: Instant) returns (places: seq<nat>)
    requires PackGoesOut(id, lead, c, mail)
    ensures var after := PackLead(id, lead, c, mail, now);
            && after.pack == PackSent && after.deliveredAt == Some(now) && after.delivered != []
            && |places| == |after.delivered|
            && (forall k :: 0 <= k < |places| ==>
                  places[k] < |lead.requested| && lead.requested[places[k]] == after.delivered[k])
            && (forall j, k :: 0 <= j < k < |places| ==>
                  places[j] < places[k] && after.delivered[j] != after.delivered[k])
            && (forall x :: x in after.delivered <==> x in lead.requested && Deliverable(c, x))
  {
    places := DistinctIsExact(lead.requested, material => Deliverable(c, material));
    hide AssetUrls;
  }
}
