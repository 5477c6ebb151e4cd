/** Lead capture (app/services/lead_service.py). */
module LeadService {
  import opened Common
  import opened Leads

  datatype Payload = Payload(
    email: string, answers: string, second: string, materials: seq<string>, interests: seq<string>,
    inspection: bool, optIn: bool, consent: bool, capturedAt: Option<Instant>)

  datatype Error = CampaignNotFound | CampaignInactive

  datatype Result<+T> = Ok(value: T) | Err(error: Error)

  function RawTags(c: Campaign, p: Payload): seq<string> {
    c.baseTags + Mapped(c, p.interests)
    + (if p.materials != [] then [c.packTag] else [])
    + (if p.inspection then [c.inspectionTag] else [])
    + (if p.optIn then [c.newsletterTag] else [])
  }

  function Mapped(c: Campaign, interests: seq<string>): seq<string> {
    seq(|interests|, i requires 0 <= i < |interests| =>
      if interests[i] in c.tagMap then c.tagMap[interests[i]] else interests[i])
  }

  predicate NonEmpty(s: string) {
    s != ""
  }

  function DeriveTags(c: Campaign, p: Payload): seq<string> {
    Distinct(RawTags(c, p), NonEmpty)
  }

  method ComputeTags(c: Campaign, p: Payload) returns (tags: seq<string>)
    ensures tags == DeriveTags(c, p)
  {
    hide Distinct;
    var raw := c.baseTags;
    for i := 0 to |p.interests|
      invariant raw == c.baseTags + Mapped(c, p.interests)[..i]
    {
      raw := raw + [if p.interests[i] in c.tagMap then c.tagMap[p.interests[i]] else p.interests[i]];
    }
    if p.materials != [] {
      raw := raw + [c.packTag];
    }
    if p.inspection {
      raw := raw + [c.inspectionTag];
    }
    if p.optIn {
      raw := raw + [c.newsletterTag];
    }
    assert raw == RawTags(c, p);
    tags := WithoutRepeats(raw);
  }

  /** The de-duplicating comprehension with its `seen` set. */
  method WithoutRepeats(raw: seq<string>) returns (tags: seq<string>)
    ensures tags == Distinct(raw, NonEmpty)
  {
    tags := [];
    for i := 0 to |raw|
      invariant tags == Distinct(raw[..i], NonEmpty)
    {
      assert raw[..i + 1][..i] == raw[..i];
      if raw[i] != "" && raw[i] !in tags {
        tags := tags + [raw[i]];
      }
    }
    assert raw[..|raw|] == raw;
  }

  function ApplyPayload(lead: Lead, c: Campaign, p: Payload, now: Instant): Lead {
    lead.(answers := p.answers, second := p.second, requested := p.materials,
          tags := DeriveTags(c, p), inspection := p.inspection,
          consentAt := if p.consent && lead.consentAt.None?
                       then Some(if p.capturedAt.Some? then p.capturedAt.value else now) else lead.consentAt,
          crm := CrmPending)
  }

  function SetOf(s: seq<string>): set<string> {
    set x | x in s
  }

  /** The materials asked for are all in the stored request. */
  predicate Covered(materials: seq<string>, stored: seq<string>) {
    SetOf(materials) <= SetOf(stored)
  }

  /** `previous` is the lead as stored, or nothing for a new one. */
  function NextPackStatus(previous: Option<Lead>, p: Payload): PackStatus {
    var sent := previous.Some? && previous.value.pack == PackSent;
    if p.materials == [] then (if sent then PackSent else PackNotRequested)
    else if sent && Covered(p.materials, previous.value.requested) then PackSent
    else PackPending
  }

  function NewLead(campaign: nat, email: string): Lead {
    Lead(campaign, email, "", "", [], [], false, None, PackNotRequested, None, [], CrmPending)
  }

  function Merge(lead: Lead, previous: Option<Lead>, c: Campaign, p: Payload, now: Instant): Lead {
    ApplyPayload(lead, c, p, now).(pack := NextPackStatus(previous, p))
  }

  /** One serial capture: the state after it, the lead's id, and whether it was created. */
  function CaptureCreated(s: State, campaign: Option<nat>, p: Payload, now: Instant): (State, Result<(nat, bool)>) {
    if campaign.None? || campaign.value !in s.campaigns then (s, Err(CampaignNotFound))
    else if !s.campaigns[campaign.value].active then (s, Err(CampaignInactive))
    else
      var c := s.campaigns[campaign.value];
      var id := Find(s.leads, campaign.value, p.email, 0);
      if id >= 0 then
        (s.(leads := s.leads[id := Merge(s.leads[id], Some(s.leads[id]), c, p, now)],
            log := s.log + [Captured(id, p.materials, s.leads[id].requested)]),
         Ok((id, false)))
      else
        (s.(leads := s.leads + [Merge(NewLead(campaign.value, p.email), None, c, p, now)],
            log := s.log + [Captured(|s.leads|, p.materials, [])]),
         Ok((|s.leads|, true)))
  }

  // What a capture writes

  lemma TagsAreExact(c: Campaign, p: Payload, tag: string)
    ensures tag in DeriveTags(c, p)
       <==> && tag != ""
            && (|| tag in c.baseTags
                || (exists i :: i in p.interests && tag == if i in c.tagMap then c.tagMap[i] else i)
                || (p.materials != [] && tag == c.packTag)
                || (p.inspection && tag == c.inspectionTag)
                || (p.optIn && tag == c.newsletterTag))
  {
    var _ := DistinctIsExact(RawTags(c, p), NonEmpty);
    assert tag in Mapped(c, p.interests)
      <==> exists i :: i in p.interests && tag == if i in c.tagMap then c.tagMap[i] else i by {
      if tag in Mapped(c, p.interests) {
        var k :| 0 <= k < |p.interests| && Mapped(c, p.interests)[k] == tag;
        assert p.interests[k] in p.interests;
      }
      if i :| i in p.interests && tag == if i in c.tagMap then c.tagMap[i] else i {
        var k :| 0 <= k < |p.interests| && p.interests[k] == i;
        assert Mapped(c, p.interests)[k] == tag;
      }
    }
    hide Distinct, Mapped;
  }

  /** A capture is refused for want of the campaign, or because it is closed, and then
      changes nothing. */
  lemma CaptureIsRefusedIff(s: State, campaign: Option<nat>, p: Payload, now: Instant)
    ensures var (after, r) := CaptureCreated(s, campaign, p, now);
            && (r == Err(CampaignNotFound) <==> campaign.None? || campaign.value !in s.campaigns)
            && (r == Err(CampaignInactive) <==>
                  campaign.Some? && campaign.value in s.campaigns && !s.campaigns[campaign.value].active)
            && (r.Err? ==> after == s)
  {
  }

  /** The time of a consent: the form's own, else the clock. */
  function ConsentTime(p: Payload, now: Instant): Instant {
    match p.capturedAt
    case Some(t) => t
    case None => now
  }

  /** A capture writes what the form says into the address's row, which is new exactly when
      there was none, and touches no other row. */
  lemma CaptureWrites(s: State, campaign: nat, p: Payload, now: Instant)
    requires campaign in s.campaigns && s.campaigns[campaign].active
    ensures var (after, r) := CaptureCreated(s, Some(campaign), p, now);
            && r.Ok? && r.value.0 < |after.leads| && after.campaigns == s.campaigns
            && var (id, created) := r.value;
               var row := after.leads[id];
               && (created <==> forall i :: 0 <= i < |s.leads| ==>
                                  s.leads[i].campaign != campaign || s.leads[i].email != p.email)
               && (if created then id == |s.leads| && |after.leads| == |s.leads| + 1
                   else id < |s.leads| && |after.leads| == |s.leads|
                        && s.leads[id].campaign == campaign && s.leads[id].email == p.email)
               && (forall i :: 0 <= i < |s.leads| && i != id ==> after.leads[i] == s.leads[i])
               && row.campaign == campaign && row.email == p.email && row.answers == p.answers
               && row.second == p.second && row.requested == p.materials && row.inspection == p.inspection
               && row.tags == DeriveTags(s.campaigns[campaign], p) && row.crm == CrmPending
               && row.delivered == (if created then [] else s.leads[id].delivered)
               && row.deliveredAt == (if created then None else s.leads[id].deliveredAt)
               && row.consentAt == (if !created && s.leads[id].consentAt.Some? then s.leads[id].consentAt
                                    else if p.consent then Some(ConsentTime(p, now)) else None)
  {
    hide DeriveTags, NextPackStatus;
  }

  /** Its pack status: sent stays sent while nothing new is asked for; otherwise something
      asked for is pending, and nothing asked for is nothing requested. */
  lemma CaptureSetsPack(s: State, campaign: nat, p: Payload, now: Instant)
    requires campaign in s.campaigns && s.campaigns[campaign].active
    ensures var (after, r) := CaptureCreated(s, Some(campaign), p, now);
            && r.Ok? && r.value.0 < |after.leads|
            && var (id, created) := r.value;
               var sent := !created && id < |s.leads| && s.leads[id].pack == PackSent;
               after.leads[id].pack
               == if sent && (forall m :: m in p.materials ==> m in s.leads[id].requested) then PackSent
                  else if p.materials == [] then PackNotRequested
                  else PackPending
  {
    hide DeriveTags;
    var (after, r) := CaptureCreated(s, Some(campaign), p, now);
    var (id, created) := r.value;
    if !created {
      CoveredIff(p.materials, s.leads[id].requested);
    }
    hide Covered;
  }

  lemma CoveredIff(materials: seq<string>, stored: seq<string>)
    ensures Covered(materials, stored) <==> forall m :: m in materials ==> m in stored
  {
    if Covered(materials, stored) {
      forall m | m in materials ensures m in stored {
        assert m in SetOf(materials);
      }
    }
  }

  /** `capture_lead_created` step by step.  `rival` is a submission committed between the
      lookup and the insert: when it has the same email the unique index rejects the
      insert, and the recovery leaves what capturing the two in turn would. */
  method CaptureLeadCreated(db: LeadStore, campaign: Option<nat>, p: Payload, now: Instant, rival: Option<Payload>)
    returns (r: Result<(nat, bool)>)
    modifies db
    ensures var before := if rival.Some? && campaign.Some? && campaign.value in old(db.campaigns)
                             && old(db.campaigns)[campaign.value].active
                             && Find(old(db.leads), campaign.value, p.email, 0) < 0
                          then CaptureCreated(old(db.Now()), campaign, rival.value, now).0
                          else old(db.Now());
            (db.Now(), r) == CaptureCreated(before, campaign, p, now)
  {
    hide DeriveTags, NextPackStatus, Covered;
    if campaign.None? || campaign.value !in db.campaigns {
      return Err(CampaignNotFound);
    }
    var c := db.campaigns[campaign.value];
    if !c.active {
      return Err(CampaignInactive);
    }
    var existing := Find(db.leads, campaign.value, p.email, 0);
    if existing >= 0 {
      UpdateLead(db, existing, c, p, now);
      return Ok((existing, false));
    }
    var tags := ComputeTags(c, p);
    var lead := ApplyPayload(NewLead(campaign.value, p.email), c, p, now).(tags := tags);
    lead := lead.(pack := NextPackStatus(None, p));
    assert lead == Merge(NewLead(campaign.value, p.email), None, c, p, now);
    hide Merge, ApplyPayload;
    if rival.Some? {
      var s := CaptureCreated(db.Now(), campaign, rival.value, now).0;
      db.leads, db.log := s.leads, s.log;
    }
    if !Exists(db.leads, campaign.value, p.email) {
      db.log := db.log + [Captured(|db.leads|, p.materials, [])];
      db.leads := db.leads + [lead];
      return Ok((|db.leads| - 1, true));
    }
    existing := Find(db.leads, campaign.value, p.email, 0);
    UpdateLead(db, existing, c, p, now);
    return Ok((existing, false));
  }

  /** The merge into a stored lead, after either lookup. */
  method UpdateLead(db: LeadStore, id: nat, c: Campaign, p: Payload, now: Instant)
    requires id < |db.leads|
    modifies db
    ensures db.campaigns == old(db.campaigns)
    ensures db.leads == old(db.leads)[id := Merge(old(db.leads)[id], Some(old(db.leads)[id]), c, p, now)]
    ensures db.log == old(db.log) + [Captured(id, p.materials, old(db.leads)[id].requested)]
  {
    var lead := db.leads[id];
    var tags := ComputeTags(c, p);
    db.log := db.log + [Captured(id, p.materials, lead.requested)];
    var merged := ApplyPayload(lead, c, p, now).(tags := tags);
    db.leads := db.leads[id := merged.(pack := NextPackStatus(Some(lead), p))];
  }
}
