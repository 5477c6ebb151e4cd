/** Runs of the lead services (app/api/v1/endpoints/campaigns.py and the services behind
    it): submissions, delivery sweeps, CRM sweeps, and what staff do by hand. */
module LeadLifecycle {
  import opened Common
  import opened Leads
  import Capture = LeadService
  import Packs = PackDelivery
  import Crm = LeadCrmSync

  /** After a capture: the pack if one is due, then - for a lead just created - the viewing
      email. */
  function AfterCapture(s: State, at: nat, created: bool, c: Campaign, mail: Packs.Mail, now: Instant): State
    requires at < |s.leads|
  {
    var packed := if s.leads[at].pack == PackPending then Packs.Pack(s, at, c, mail, now) else s;
    if created && packed.leads[at].inspection then Packs.Viewing(packed, at, c, mail, now) else packed
  }

  /** `POST /{slug}/leads`: capture, then the emails. */
  function CaptureLead(s: State, campaign: Option<nat>, p: Capture.Payload, mail: Packs.Mail, now: Instant): State {
    var (captured, r) := Capture.CaptureCreated(s, campaign, p, now);
    if r.Err? then captured
    else
      var (id, created) := r.value;
      var c := captured.campaigns[campaign.value];
      AfterCapture(captured, id, created, c, mail, now)
  }

  method PostLead(db: LeadStore, campaign: Option<nat>, p: Capture.Payload, mail: Packs.Mail, now: Instant)
    returns (r: Capture.Result<nat>)
    modifies db
    ensures db.Now() == CaptureLead(old(db.Now()), campaign, p, mail, now)
    ensures r.Ok? <==> Capture.CaptureCreated(old(db.Now()), campaign, p, now).1.Ok?
    ensures r.Ok? ==> r.value < |db.leads| && db.leads[r.value].email == p.email
  {
    var captured := Capture.CaptureLeadCreated(db, campaign, p, now, None);
    if captured.Err? {
      return Capture.Err(captured.error);
    }
    hide Packs.PackLead, Packs.PackGoesOut, Packs.AllMaterials, Capture.Merge;
    var (id, created) := captured.value;
    var c := db.campaigns[campaign.value];
    EmailsStay(db.Now(), id, c, mail, now);
    assert db.leads[id].email == p.email by {
      CapturedHere(old(db.Now()), campaign, p, now);
    }
    if db.leads[id].pack == PackPending {
      Packs.DeliverPack(db, id, c, mail, now);
      EmailsStay(db.Now(), id, c, mail, now);
    }
    if created && db.leads[id].inspection {
      Packs.DeliverViewing(db, id, c, mail, now);
    }
    return Capture.Ok(id);
  }

  lemma CapturedHere(s: State, campaign: Option<nat>, p: Capture.Payload, now: Instant)
    ensures var (after, r) := Capture.CaptureCreated(s, campaign, p, now);
            r.Ok? ==>
              && campaign.Some? && campaign.value in after.campaigns && r.value.0 < |after.leads|
              && after.leads[r.value.0].email == p.email && after.leads[r.value.0].campaign == campaign.value
  {
  }

  lemma EmailsStay(s: State, id: nat, c: Campaign, mail: Packs.Mail, now: Instant)
    requires id < |s.leads|
    ensures var after := Packs.Pack(s, id, c, mail, now).leads;
            id < |after| && after[id].email == s.leads[id].email && after[id].campaign == s.leads[id].campaign
    ensures var after := Packs.Viewing(s, id, c, mail, now).leads;
            id < |after| && after[id].email == s.leads[id].email && after[id].campaign == s.leads[id].campaign
    ensures Packs.Pack(s, id, c, mail, now).campaigns == s.campaigns
  {
  }

  /** `resend_lead_pack`: staff retry one lead, whatever its status. */
  function ResendPack(s: State, id: nat, mail: Packs.Mail, now: Instant): State {
    if id >= |s.leads| || s.leads[id].campaign !in s.campaigns then s
    else
      var c := s.campaigns[s.leads[id].campaign];
      if s.leads[id].inspection && s.leads[id].requested == [] then Packs.Viewing(s, id, c, mail, now)
      else Packs.Pack(s, id, c, mail, now)
  }

  method ResendLeadPack(db: LeadStore, id: nat, mail: Packs.Mail, now: Instant) returns (found: bool)
    modifies db
    ensures db.Now() == ResendPack(old(db.Now()), id, mail, now)
    ensures found <==> id < |old(db.leads)| && old(db.leads)[id].campaign in old(db.campaigns)
  {
    if id >= |db.leads| || db.leads[id].campaign !in db.campaigns {
      return false;
    }
    var c := db.campaigns[db.leads[id].campaign];
    if db.leads[id].inspection && db.leads[id].requested == [] {
      Packs.DeliverViewing(db, id, c, mail, now);
    } else {
      Packs.DeliverPack(db, id, c, mail, now);
    }
    return true;
  }

  datatype Op =
    | Submit(campaign: Option<nat>, payload: Capture.Payload, mail: Packs.Mail, now: Instant)
    | DeliverySweep(limit: nat, mail: Packs.Mail, now: Instant)
    | CrmSweep(enabled: bool, limit: nat, crm: Crm.Crm)
    /** Staff push one lead past the campaign's switch. */
    | StaffSync(id: nat, enabled: bool, crm: Crm.Crm)
    | StaffResend(id: nat, mail: Packs.Mail, now: Instant)
    /** A new campaign, or new settings for one; a slug never changes. */
    | SaveCampaign(id: nat, settings: Campaign)

  function Next(s: State, op: Op): State {
    match op
    case Submit(campaign, p, mail, now) => CaptureLead(s, campaign, p, mail, now)
    case DeliverySweep(limit, mail, now) => Packs.Sweep(s, limit, mail, now)
    case CrmSweep(enabled, limit, crm) => Crm.Sweep(s, enabled, limit, crm)
    case StaffSync(id, enabled, crm) =>
      if id < |s.leads| && s.leads[id].campaign in s.campaigns
      then Crm.Sync(s, id, s.campaigns[s.leads[id].campaign], enabled, true, crm) else s
    case StaffResend(id, mail, now) => ResendPack(s, id, mail, now)
    case SaveCampaign(id, c) =>
      s.(campaigns := s.campaigns[id := if id in s.campaigns then c.(slug := s.campaigns[id].slug) else c])
  }

  function After(ops: seq<Op>): State {
    if ops == [] then State(map[], [], []) else Next(After(ops[..|ops| - 1]), ops[|ops| - 1])
  }

  predicate NoResend(ops: seq<Op>) {
    forall k :: 0 <= k < |ops| ==> !ops[k].StaffResend?
  }

  // One row per address

  ghost predicate OnePerAddress(leads: seq<Lead>) {
    forall i, j :: 0 <= i < j < |leads| ==>
                     !(leads[i].campaign == leads[j].campaign && leads[i].email == leads[j].email)
  }

  /** Who a lead is never changes, nor does the time of a consent once given. */
  predicate SamePerson(a: Lead, b: Lead) {
    a.campaign == b.campaign && a.email == b.email && (a.consentAt.Some? ==> b.consentAt == a.consentAt)
  }

  ghost predicate AllStay(a: seq<Lead>, b: seq<Lead>) {
    |a| <= |b| && forall i :: 0 <= i < |a| ==> SamePerson(a[i], b[i])
  }

  /** All but the delivery and CRM columns is as it was. */
  predicate SameForm(a: Lead, b: Lead) {
    b == a.(pack := b.pack, deliveredAt := b.deliveredAt, delivered := b.delivered, crm := b.crm)
  }

  ghost predicate AllSame(a: seq<Lead>, b: seq<Lead>) {
    |a| == |b| && forall i :: 0 <= i < |a| ==> SameForm(a[i], b[i])
  }

  lemma StayChains(a: seq<Lead>, b: seq<Lead>, c: seq<Lead>)
    requires AllStay(a, b) && AllStay(b, c)
    ensures AllStay(a, c)
  {
    forall i | 0 <= i < |a| ensures SamePerson(a[i], c[i]) {
      assert SamePerson(a[i], b[i]) && SamePerson(b[i], c[i]);
    }
  }

  lemma SameChains(a: seq<Lead>, b: seq<Lead>, c: seq<Lead>)
    requires AllSame(a, b) && AllSame(b, c)
    ensures AllSame(a, c)
  {
    forall i | 0 <= i < |a| ensures SameForm(a[i], c[i]) {
      assert SameForm(a[i], b[i]) && SameForm(b[i], c[i]);
    }
  }

  /** Rows that keep their forms stay, each at its address. */
  lemma SameStays(a: seq<Lead>, b: seq<Lead>)
    requires AllSame(a, b)
    ensures AllStay(a, b)
    ensures OnePerAddress(a) ==> OnePerAddress(b)
  {
    forall i | 0 <= i < |a| ensures a[i].campaign == b[i].campaign && a[i].email == b[i].email {
      assert SameForm(a[i], b[i]);
    }
  }

  lemma CaptureStays(s: State, campaign: Option<nat>, p: Capture.Payload, now: Instant)
    requires OnePerAddress(s.leads)
    ensures var after := Capture.CaptureCreated(s, campaign, p, now).0;
            AllStay(s.leads, after.leads) && OnePerAddress(after.leads)
  {
    hide Capture.DeriveTags, Capture.NextPackStatus;
  }

  lemma PackStays(s: State, id: nat, c: Campaign, mail: Packs.Mail, now: Instant)
    requires id < |s.leads|
    ensures AllSame(s.leads, Packs.Pack(s, id, c, mail, now).leads)
    ensures AllSame(s.leads, Packs.Viewing(s, id, c, mail, now).leads)
  {
    hide Packs.DeliverableMaterials, Packs.RealMaterialsRequested, Packs.AllMaterials;
  }

  lemma {:induction false} PackIdsLogGrows(s: State, ids: seq<nat>, mail: Packs.Mail, now: Instant)
    requires forall k :: 0 <= k < |ids| ==> ids[k] < |s.leads|
    ensures s.log <= Packs.PackIds(s, ids, mail, now).log
  {
    if ids != [] {
      PackIdsLogGrows(s, ids[..|ids| - 1], mail, now);
      hide Packs.PackLead, Packs.PackGoesOut;
    }
  }

  lemma {:induction false} SyncIdsLogGrows(s: State, ids: seq<nat>, crm: Crm.Crm)
    requires forall k :: 0 <= k < |ids| ==> ids[k] < |s.leads|
    ensures s.log <= Crm.SyncIds(s, ids, crm).log
  {
    if ids != [] {
      SyncIdsLogGrows(s, ids[..|ids| - 1], crm);
      hide Crm.SyncedLead, Crm.FirstPush, Crm.SecondPush;
    }
  }

  lemma {:induction false} PackIdsStay(s: State, ids: seq<nat>, mail: Packs.Mail, now: Instant)
    requires forall k :: 0 <= k < |ids| ==> ids[k] < |s.leads|
    ensures AllSame(s.leads, Packs.PackIds(s, ids, mail, now).leads)
  {
    if ids != [] {
      var n := |ids| - 1;
      PackIdsStay(s, ids[..n], mail, now);
      var before := Packs.PackIds(s, ids[..n], mail, now);
      hide Packs.Pack, AllSame;
      if before.leads[ids[n]].campaign in s.campaigns {
        PackStays(before, ids[n], s.campaigns[before.leads[ids[n]].campaign], mail, now);
        SameChains(s.leads, before.leads, Packs.PackIds(s, ids, mail, now).leads);
      }
    }
  }

  lemma {:induction false} SyncIdsStay(s: State, ids: seq<nat>, crm: Crm.Crm)
    requires forall k :: 0 <= k < |ids| ==> ids[k] < |s.leads|
    ensures AllSame(s.leads, Crm.SyncIds(s, ids, crm).leads)
  {
    if ids != [] {
      SyncIdsStay(s, ids[..|ids| - 1], crm);
      hide Crm.Taken, Crm.FirstPush, Crm.SecondPush;
    }
  }

  lemma EmailsAfterCaptureStay(s: State, at: nat, created: bool, c: Campaign, mail: Packs.Mail, now: Instant)
    requires at < |s.leads|
    ensures AllSame(s.leads, AfterCapture(s, at, created, c, mail, now).leads)
  {
    var packed := if s.leads[at].pack == PackPending then Packs.Pack(s, at, c, mail, now) else s;
    assert AllSame(s.leads, s.leads);
    PackStays(s, at, c, mail, now);
    PackStays(packed, at, c, mail, now);
    SameChains(s.leads, packed.leads, Packs.Viewing(packed, at, c, mail, now).leads);
    hide Packs.Pack, Packs.Viewing, AllSame;
  }

  lemma SubmitStays(s: State, campaign: Option<nat>, p: Capture.Payload, mail: Packs.Mail, now: Instant)
    requires OnePerAddress(s.leads)
    ensures var after := CaptureLead(s, campaign, p, mail, now);
            AllStay(s.leads, after.leads) && OnePerAddress(after.leads)
  {
    CaptureStays(s, campaign, p, now);
    CapturedHere(s, campaign, p, now);
    hide Capture.CaptureCreated, AfterCapture, AllStay, OnePerAddress, AllSame;
    var (captured, r) := Capture.CaptureCreated(s, campaign, p, now);
    if r.Ok? {
      var after := CaptureLead(s, campaign, p, mail, now);
      EmailsAfterCaptureStay(captured, r.value.0, r.value.1, captured.campaigns[campaign.value], mail, now);
      SameStays(captured.leads, after.leads);
      StayChains(s.leads, captured.leads, after.leads);
    }
  }

  /** No call but a submission touches a form. */
  lemma NextKeepsForms(s: State, op: Op)
    requires !op.Submit?
    ensures AllSame(s.leads, Next(s, op).leads)
  {
    assert AllSame(s.leads, s.leads);
    match op
    case DeliverySweep(limit, mail, now) =>
      PackIdsStay(s, ListWhere(s.leads, Packs.AwaitsPack, 0, limit), mail, now);
    case CrmSweep(enabled, limit, crm) =>
      SyncIdsStay(s, ListWhere(s.leads, Crm.AwaitsSync, 0, limit), crm);
    case StaffSync(_, _, _) =>
      hide Crm.Taken, Crm.FirstPush, Crm.SecondPush;
    case StaffResend(id, mail, now) =>
      if id < |s.leads| && s.leads[id].campaign in s.campaigns {
        PackStays(s, id, s.campaigns[s.leads[id].campaign], mail, now);
      }
    case SaveCampaign(_, _) =>
  }

  lemma NextStays(s: State, op: Op)
    requires OnePerAddress(s.leads)
    ensures AllStay(s.leads, Next(s, op).leads) && OnePerAddress(Next(s, op).leads)
  {
    hide OnePerAddress, AllStay, AllSame;
    if op.Submit? {
      SubmitStays(s, op.campaign, op.payload, op.mail, op.now);
    } else {
      NextKeepsForms(s, op);
      SameStays(s.leads, Next(s, op).leads);
    }
  }

  /** Along any run a (campaign, email) has one row for good: no second one appears, the
      row keeps its address, and a consent keeps the time it was first given. */
  lemma {:induction false} RunKeepsOneLeadPerAddress(ops: seq<Op>, j: nat, k: nat)
    requires j <= k <= |ops|
    ensures OnePerAddress(After(ops[..k]).leads)
    ensures AllStay(After(ops[..j]).leads, After(ops[..k]).leads)
    decreases k
  {
    if k > 0 {
      assert ops[..k][..k - 1] == ops[..k - 1];
      assert After(ops[..k]) == Next(After(ops[..k - 1]), ops[k - 1]);
      hide Next, OnePerAddress;
      RunKeepsOneLeadPerAddress(ops, if j < k then j else k - 1, k - 1);
      NextStays(After(ops[..k - 1]), ops[k - 1]);
      if j < k {
        StayChains(After(ops[..j]).leads, After(ops[..k - 1]).leads, After(ops[..k]).leads);
      }
    }
  }

  // What the forms sent to an address leave in its row

  /** The call is a form to this address, at a campaign that is open. */
  predicate Reaches(s: State, op: Op, campaign: nat, email: string) {
    && op.Submit? && op.campaign == Some(campaign) && op.payload.email == email
    && campaign in s.campaigns && s.campaigns[campaign].active
  }

  predicate At(lead: Lead, campaign: nat, email: string) {
    lead.campaign == campaign && lead.email == email
  }

  /** The last form that reached the address. */
  function LastForm(ops: seq<Op>, campaign: nat, email: string): Option<Capture.Payload> {
    if ops == [] then None
    else
      var n := |ops| - 1;
      if Reaches(After(ops[..n]), ops[n], campaign, email) then Some(ops[n].payload)
      else LastForm(ops[..n], campaign, email)
  }

  /** The time of the first consent that reached the address. */
  function FirstConsent(ops: seq<Op>, campaign: nat, email: string): Option<Instant> {
    if ops == [] then None
    else
      var n := |ops| - 1;
      var before := FirstConsent(ops[..n], campaign, email);
      if before.None? && Reaches(After(ops[..n]), ops[n], campaign, email) && ops[n].payload.consent
      then Some(Capture.ConsentTime(ops[n].payload, ops[n].now))
      else before
  }

  predicate HoldsForm(lead: Lead, p: Capture.Payload) {
    && lead.answers == p.answers && lead.second == p.second
    && lead.requested == p.materials && lead.inspection == p.inspection
  }

  /** What the rows at an address hold, and whether there is one. */
  ghost predicate Holds(
    leads: seq<Lead>, campaign: nat, email: string, form: Option<Capture.Payload>, consent: Option<Instant>)
  {
    && (forall i :: 0 <= i < |leads| && At(leads[i], campaign, email) ==>
          form.Some? && HoldsForm(leads[i], form.value) && leads[i].consentAt == consent)
    && ((forall i :: 0 <= i < |leads| ==> !At(leads[i], campaign, email)) ==> form == None && consent == None)
  }

  lemma SameHolds(
    a: seq<Lead>, b: seq<Lead>, campaign: nat, email: string, form: Option<Capture.Payload>, consent: Option<Instant>)
    requires AllSame(a, b) && Holds(a, campaign, email, form, consent)
    ensures Holds(b, campaign, email, form, consent)
  {
    forall i | 0 <= i < |b|
      ensures At(b[i], campaign, email) <==> At(a[i], campaign, email)
      ensures b[i].consentAt == a[i].consentAt && forall p :: HoldsForm(b[i], p) <==> HoldsForm(a[i], p)
    {
      assert SameForm(a[i], b[i]);
    }
  }

  /** One row written or added for a form, at an address no other row has. */
  lemma RowHolds(
    before: seq<Lead>, after: seq<Lead>, id: nat, p: Capture.Payload, at: Instant,
    campaign: nat, email: string, form: Option<Capture.Payload>, consent: Option<Instant>)
    requires OnePerAddress(before) && Holds(before, campaign, email, form, consent)
    requires id <= |before| && |after| == (if id < |before| then |before| else id + 1)
    requires forall i :: 0 <= i < |before| && i != id ==> after[i] == before[i]
    requires id < |before| ==> At(before[id], after[id].campaign, after[id].email)
    requires id == |before| ==> forall i :: 0 <= i < id ==> !At(before[i], after[id].campaign, after[id].email)
    requires HoldsForm(after[id], p)
    requires after[id].consentAt == if id < |before| && before[id].consentAt.Some? then before[id].consentAt
                                    else if p.consent then Some(at) else None
    ensures var here := At(after[id], campaign, email);
            Holds(after, campaign, email, if here then Some(p) else form,
                  if here && consent.None? && p.consent then Some(at) else consent)
  {
    hide HoldsForm;
    var here := At(after[id], campaign, email);
    forall i | 0 <= i < |after| && i != id && At(after[i], campaign, email) ensures !here {
      assert after[i] == before[i];
    }
    if !here && forall i :: 0 <= i < |after| ==> !At(after[i], campaign, email) {
      assert forall i :: 0 <= i < |before| && i != id ==> !At(before[i], campaign, email) by {
        forall i | 0 <= i < |before| && i != id ensures !At(before[i], campaign, email) {
          assert after[i] == before[i];
        }
      }
    }
    if here && id == |before| {
      assert forall i :: 0 <= i < |before| ==> !At(before[i], campaign, email);
    }
  }

  lemma CaptureHolds(
    s: State, op: Op, campaign: nat, email: string, form: Option<Capture.Payload>, consent: Option<Instant>)
    requires op.Submit? && OnePerAddress(s.leads) && Holds(s.leads, campaign, email, form, consent)
    ensures var after := Capture.CaptureCreated(s, op.campaign, op.payload, op.now).0.leads;
            var reached := Reaches(s, op, campaign, email);
            Holds(after, campaign, email,
                  if reached then Some(op.payload) else form,
                  if reached && consent.None? && op.payload.consent
                  then Some(Capture.ConsentTime(op.payload, op.now)) else consent)
  {
    Capture.CaptureIsRefusedIff(s, op.campaign, op.payload, op.now);
    var (after, r) := Capture.CaptureCreated(s, op.campaign, op.payload, op.now);
    if r.Ok? {
      Capture.CaptureWrites(s, op.campaign.value, op.payload, op.now);
      hide Capture.CaptureCreated, Capture.DeriveTags, Holds, OnePerAddress;
      RowHolds(s.leads, after.leads, r.value.0, op.payload, Capture.ConsentTime(op.payload, op.now),
               campaign, email, form, consent);
    }
  }

  lemma {:induction false} RunHolds(ops: seq<Op>, campaign: nat, email: string)
    ensures Holds(After(ops).leads, campaign, email, LastForm(ops, campaign, email), FirstConsent(ops, campaign, email))
  {
    if ops != [] {
      var n := |ops| - 1;
      var s, op := After(ops[..n]), ops[n];
      RunHolds(ops[..n], campaign, email);
      RunKeepsOneLeadPerAddress(ops, n, n);
      var form, consent := LastForm(ops[..n], campaign, email), FirstConsent(ops[..n], campaign, email);
      assert After(ops) == Next(s, op);
      hide After, Holds, AllSame, OnePerAddress, AfterCapture, Capture.CaptureCreated;
      if op.Submit? {
        CaptureHolds(s, op, campaign, email, form, consent);
        CapturedHere(s, op.campaign, op.payload, op.now);
        var (captured, r) := Capture.CaptureCreated(s, op.campaign, op.payload, op.now);
        if r.Ok? {
          var (id, created) := r.value;
          EmailsAfterCaptureStay(captured, id, created, captured.campaigns[op.campaign.value], op.mail, op.now);
          SameHolds(captured.leads, Next(s, op).leads, campaign, email,
                    LastForm(ops, campaign, email), FirstConsent(ops, campaign, email));
        }
      } else {
        NextKeepsForms(s, op);
        SameHolds(s.leads, Next(s, op).leads, campaign, email, form, consent);
        hide Next;
      }
    }
  }

  predicate ReachesAt(ops: seq<Op>, campaign: nat, email: string, m: nat) {
    m < |ops| && Reaches(After(ops[..m]), ops[m], campaign, email)
  }

  lemma {:induction false} LastFormIs(ops: seq<Op>, campaign: nat, email: string, m: nat)
    ensures ReachesAt(ops, campaign, email, m)
            && (forall n :: m < n < |ops| ==> !ReachesAt(ops, campaign, email, n)) ==>
              LastForm(ops, campaign, email) == Some(ops[m].payload)
  {
    if ops != [] {
      var n := |ops| - 1;
      LastFormIs(ops[..n], campaign, email, m);
      forall k: nat | k < n ensures ReachesAt(ops[..n], campaign, email, k) <==> ReachesAt(ops, campaign, email, k) {
        assert ops[..n][..k] == ops[..k];
      }
      assert ReachesAt(ops, campaign, email, n) <==> Reaches(After(ops[..n]), ops[n], campaign, email);
      hide ReachesAt, After, Reaches;
    }
  }

  /** Step `m` is the first to give consent. */
  ghost predicate ConsentsFirst(ops: seq<Op>, campaign: nat, email: string, m: nat) {
    ConsentsAt(ops, campaign, email, m) && forall k :: 0 <= k < m ==> !ConsentsAt(ops, campaign, email, k)
  }

  lemma {:induction false} FirstConsentIs(ops: seq<Op>, campaign: nat, email: string) returns (m: nat)
    ensures FirstConsent(ops, campaign, email).Some? ==>
              && ConsentsFirst(ops, campaign, email, m)
              && FirstConsent(ops, campaign, email) == Some(Capture.ConsentTime(ops[m].payload, ops[m].now))
    ensures FirstConsent(ops, campaign, email).None? ==> forall k: nat :: !ConsentsAt(ops, campaign, email, k)
  {
    if ops == [] {
      m := 0;
    } else {
      var n := |ops| - 1;
      var before, first := ops[..n], FirstConsent(ops[..n], campaign, email);
      m := FirstConsentIs(before, campaign, email);
      forall k: nat ensures ConsentsAt(ops, campaign, email, k)
                       <==> ConsentsAt(before, campaign, email, k) || (k == n && ConsentsAt(ops, campaign, email, n)) {
        ConsentsAtSnoc(ops, campaign, email, k);
      }
      ConsentsAtSnoc(ops, campaign, email, m);
      assert FirstConsent(ops, campaign, email)
          == if first.None? && ConsentsAt(ops, campaign, email, n)
             then Some(Capture.ConsentTime(ops[n].payload, ops[n].now)) else first by {
        ConsentsAtSnoc(ops, campaign, email, n);
        hide After, Reaches;
      }
      hide ConsentsAt, After, Reaches, FirstConsent;
      if first.None? {
        m := n;
      }
    }
  }

  lemma ConsentsAtSnoc(ops: seq<Op>, campaign: nat, email: string, k: nat)
    requires ops != []
    ensures var n := |ops| - 1;
            && (ConsentsAt(ops, campaign, email, k)
                <==> ConsentsAt(ops[..n], campaign, email, k) || (k == n && ConsentsAt(ops, campaign, email, n)))
            && (ConsentsAt(ops, campaign, email, n)
                <==> Reaches(After(ops[..n]), ops[n], campaign, email) && ops[n].payload.consent)
            && (ConsentsAt(ops[..n], campaign, email, k) ==> k < n && ops[..n][k] == ops[k])
  {
    if k < |ops| - 1 {
      assert ops[..|ops| - 1][..k] == ops[..k];
    }
    hide After, Reaches;
  }

  predicate ConsentsAt(ops: seq<Op>, campaign: nat, email: string, m: nat) {
    ReachesAt(ops, campaign, email, m) && ops[m].payload.consent
  }

  /** Over any run: a lead has a consent time exactly when some form to its address, at an open
      campaign, gave consent, and then it is the first such form's. */
  lemma ConsentIsFirstGiven(ops: seq<Op>, id: nat, m: nat)
    requires id < |After(ops).leads|
    ensures var lead := After(ops).leads[id];
            && (lead.consentAt.Some? <==> exists n :: ConsentsAt(ops, lead.campaign, lead.email, n))
            && (ConsentsAt(ops, lead.campaign, lead.email, m)
                && (forall n :: 0 <= n < m ==> !ConsentsAt(ops, lead.campaign, lead.email, n)) ==>
                  lead.consentAt == Some(Capture.ConsentTime(ops[m].payload, ops[m].now)))
  {
    var lead := After(ops).leads[id];
    RunHolds(ops, lead.campaign, lead.email);
    var first := FirstConsentIs(ops, lead.campaign, lead.email);
    assert At(lead, lead.campaign, lead.email);
    hide After, ConsentsAt, FirstConsent;
  }

  /** Over any run: a lead's answers, second participant, request and inspection are those of
      the last form that reached its address. */
  lemma RowHoldsLastForm(ops: seq<Op>, id: nat, m: nat)
    requires id < |After(ops).leads|
    requires var lead := After(ops).leads[id];
             ReachesAt(ops, lead.campaign, lead.email, m)
             && forall n :: m < n < |ops| ==> !ReachesAt(ops, lead.campaign, lead.email, n)
    ensures HoldsForm(After(ops).leads[id], ops[m].payload)
  {
    var lead := After(ops).leads[id];
    RunHolds(ops, lead.campaign, lead.email);
    LastFormIs(ops, lead.campaign, lead.email, m);
    assert At(lead, lead.campaign, lead.email);
    hide After, ReachesAt, LastForm;
  }

  // What the CRM was last told

  /** The last contact of lead `id` that the CRM took. */
  function LastPush(log: seq<Event>, id: nat): Option<Contact> {
    if log == [] then None
    else
      var e := log[|log| - 1];
      if e.Pushed? && e.lead == id then Some(e.contact) else LastPush(log[..|log| - 1], id)
  }

  ghost predicate PushedSince(log: seq<Event>, id: nat, from: nat) {
    exists k :: from <= k < |log| && log[k].Pushed? && log[k].lead == id
  }

  predicate SaysDelivered(contact: Contact, sent: bool) {
    && contact.collateralSent == Some(if sent then "Yes" else "No")
    && contact.lifecycleStage == Some(if sent then "Nurturing" else "New")
  }

  /** A nog-2026 lead counts as synced, though the CRM was last told something else. */
  predicate Stale(s: State, id: nat)
    requires id < |s.leads|
  {
    var lead, pushed := s.leads[id], LastPush(s.log, id);
    && lead.crm == CrmSynced && lead.campaign in s.campaigns && s.campaigns[lead.campaign].slug == Crm.NOG_SLUG
    && !(pushed.Some? && SaysDelivered(pushed.value, lead.pack == PackSent))
  }

  /** Staff resend the pack of a lead that was sent and synced, and this time it does not
      go out. */
  predicate Unsends(s: State, op: Op, id: nat) {
    && op.StaffResend? && op.id == id && id < |s.leads| && s.leads[id].campaign in s.campaigns
    && s.leads[id].crm == CrmSynced && s.leads[id].pack == PackSent
    && !(s.leads[id].inspection && s.leads[id].requested == [])
    && !Packs.PackGoesOut(id, s.leads[id], s.campaigns[s.leads[id].campaign], op.mail)
  }

  /** What holds of a lead: `over` is whether an unsending resend came after the last push. */
  predicate FreshOk(s: State, id: nat, over: bool)
    requires id < |s.leads|
  {
    var lead, pushed := s.leads[id], LastPush(s.log, id);
    && lead.campaign in s.campaigns
    && (lead.crm == CrmSynced && s.campaigns[lead.campaign].slug == Crm.NOG_SLUG ==>
          && pushed.Some? && SaysDelivered(pushed.value, over || lead.pack == PackSent)
          && (over ==> lead.pack != PackSent))
  }

  /** The log grew, by no contact of this lead. */
  ghost predicate Quiet(a: seq<Event>, b: seq<Event>, id: nat) {
    a <= b && !PushedSince(b, id, |a|)
  }

  lemma {:induction false} QuietKeepsLastPush(a: seq<Event>, b: seq<Event>, id: nat)
    requires Quiet(a, b, id)
    ensures LastPush(b, id) == LastPush(a, id)
    decreases |b|
  {
    if |a| < |b| {
      var shorter := b[..|b| - 1];
      assert forall k :: 0 <= k < |shorter| ==> shorter[k] == b[k];
      QuietKeepsLastPush(a, shorter, id);
    } else {
      assert a == b;
    }
  }

  lemma QuietChains(a: seq<Event>, b: seq<Event>, c: seq<Event>, id: nat)
    requires a <= b <= c
    ensures PushedSince(c, id, |a|) <==> PushedSince(b, id, |a|) || PushedSince(c, id, |b|)
  {
    if PushedSince(b, id, |a|) {
      var k :| |a| <= k < |b| && b[k].Pushed? && b[k].lead == id;
      assert c[k] == b[k];
    }
  }

  lemma CaptureIsFresh(s: State, campaign: Option<nat>, p: Capture.Payload, now: Instant, id: nat, over: bool)
    requires id < |s.leads| && FreshOk(s, id, over)
    ensures var after := Capture.CaptureCreated(s, campaign, p, now).0;
            id < |after.leads| && Quiet(s.log, after.log, id) && FreshOk(after, id, over)
  {
    var after := Capture.CaptureCreated(s, campaign, p, now).0;
    assert Quiet(s.log, after.log, id);
    QuietKeepsLastPush(s.log, after.log, id);
    hide LastPush, Quiet, SaysDelivered, Capture.DeriveTags, Capture.NextPackStatus;
  }

  /** A pack delivery that ends a sent and synced lead's `sent` is all that overtakes. */
  lemma PackIsFresh(s: State, at: nat, mail: Packs.Mail, now: Instant, id: nat, over: bool)
    requires id < |s.leads| && at < |s.leads| && FreshOk(s, id, over) && s.leads[at].campaign in s.campaigns
    ensures var c := s.campaigns[s.leads[at].campaign];
            var after := Packs.Pack(s, at, c, mail, now);
            var ends := at == id && s.leads[id].crm == CrmSynced && s.leads[id].pack == PackSent
                        && !Packs.PackGoesOut(id, s.leads[id], c, mail);
            Quiet(s.log, after.log, id) && FreshOk(after, id, over || ends)
  {
    var c := s.campaigns[s.leads[at].campaign];
    var after := Packs.Pack(s, at, c, mail, now);
    hide Packs.DeliverableMaterials, Packs.RealMaterialsRequested;
    assert Quiet(s.log, after.log, id);
    QuietKeepsLastPush(s.log, after.log, id);
    hide LastPush, Quiet, SaysDelivered;
  }

  lemma ViewingIsFresh(s: State, at: nat, mail: Packs.Mail, now: Instant, id: nat, over: bool)
    requires id < |s.leads| && at < |s.leads| && FreshOk(s, id, over) && s.leads[at].campaign in s.campaigns
    ensures var after := Packs.Viewing(s, at, s.campaigns[s.leads[at].campaign], mail, now);
            Quiet(s.log, after.log, id) && FreshOk(after, id, over)
  {
    hide LastPush, SaysDelivered, Packs.AllMaterials;
  }

  lemma SyncLogs(s: State, at: nat, c: Campaign, enabled: bool, force: bool, crm: Crm.Crm, id: nat)
    requires at < |s.leads|
    ensures var first := Crm.FirstPush(at, s.leads[at], c, enabled, force, crm);
            var after := Crm.Sync(s, at, c, enabled, force, crm);
            && s.log <= after.log
            && (PushedSince(after.log, id, |s.log|) <==> at == id && first != [])
            && LastPush(after.log, id)
               == if at == id && first != [] then Some(first[0].contact) else LastPush(s.log, id)
  {
    var lead := s.leads[at];
    var after := Crm.Sync(s, at, c, enabled, force, crm);
    var first := Crm.FirstPush(at, lead, c, enabled, force, crm);
    var second := Crm.SecondPush(at, lead, c, enabled, force, crm);
    assert after.log == s.log + first + second;
    assert |first| <= 1 && |second| <= 1;
    if first != [] {
      assert first == [first[0]] && first[0].Pushed? && first[0].lead == at;
      assert (s.log + first)[..|s.log|] == s.log;
      assert after.log[|s.log|] == first[0];
    } else {
      assert s.log + first == s.log;
    }
    if second != [] {
      assert second == [second[0]] && second[0].PushedSecond?;
      assert after.log[..|s.log + first|] == s.log + first;
    } else {
      assert after.log == s.log + first;
    }
    hide Crm.FirstPush, Crm.SecondPush;
  }

  lemma SyncIsFresh(s: State, at: nat, enabled: bool, force: bool, crm: Crm.Crm, id: nat, over: bool)
    requires id < |s.leads| && at < |s.leads| && FreshOk(s, id, over) && s.leads[at].campaign in s.campaigns
    ensures var after := Crm.Sync(s, at, s.campaigns[s.leads[at].campaign], enabled, force, crm);
            s.log <= after.log && FreshOk(after, id, over && !PushedSince(after.log, id, |s.log|))
  {
    var lead := s.leads[at];
    var c := s.campaigns[lead.campaign];
    SyncLogs(s, at, c, enabled, force, crm, id);
    Crm.FallbackKeepsTheRest(lead, c, crm.first(at), crm.retry(at));
    hide LastPush, PushedSince, Crm.Takes, Crm.SecondPush;
  }

  lemma {:induction false} PackIdsAreFresh(s: State, ids: seq<nat>, mail: Packs.Mail, now: Instant, id: nat, over: bool)
    requires Listed(s.leads, Packs.AwaitsPack, ids) && id < |s.leads| && FreshOk(s, id, over)
    ensures var after := Packs.PackIds(s, ids, mail, now);
            Quiet(s.log, after.log, id) && FreshOk(after, id, over)
  {
    if ids != [] {
      var n := |ids| - 1;
      PackIdsAreFresh(s, ids[..n], mail, now, id, over);
      var before := Packs.PackIds(s, ids[..n], mail, now);
      assert ids[n] !in ids[..n];
      Packs.PackIdsLeaveOthers(s, ids[..n], mail, now, ids[n]);
      hide FreshOk, Packs.Pack, Quiet;
      if before.leads[ids[n]].campaign in s.campaigns {
        PackIsFresh(before, ids[n], mail, now, id, over);
        QuietTwice(s.log, before.log, Packs.PackIds(s, ids, mail, now).log, id);
      }
    } else {
      assert Quiet(s.log, s.log, id);
    }
  }

  lemma QuietTwice(a: seq<Event>, b: seq<Event>, c: seq<Event>, id: nat)
    requires Quiet(a, b, id) && Quiet(b, c, id)
    ensures Quiet(a, c, id)
  {
    QuietChains(a, b, c, id);
  }

  lemma {:induction false} SyncIdsAreFresh(s: State, ids: seq<nat>, crm: Crm.Crm, id: nat, over: bool)
    requires (forall k :: 0 <= k < |ids| ==> ids[k] < |s.leads|) && id < |s.leads| && FreshOk(s, id, over)
    ensures var after := Crm.SyncIds(s, ids, crm);
            s.log <= after.log && FreshOk(after, id, over && !PushedSince(after.log, id, |s.log|))
  {
    if ids != [] {
      var n := |ids| - 1;
      SyncIdsAreFresh(s, ids[..n], crm, id, over);
      var before := Crm.SyncIds(s, ids[..n], crm);
      hide FreshOk, Crm.Sync, PushedSince;
      if before.leads[ids[n]].campaign in s.campaigns {
        SyncIsFresh(before, ids[n], true, false, crm, id, over && !PushedSince(before.log, id, |s.log|));
        QuietChains(s.log, before.log, Crm.SyncIds(s, ids, crm).log, id);
      }
    } else {
      hide FreshOk;
    }
  }

  lemma EmailsAreFresh(s: State, at: nat, created: bool, mail: Packs.Mail, now: Instant, id: nat, over: bool)
    requires id < |s.leads| && FreshOk(s, id, over) && at < |s.leads| && s.leads[at].campaign in s.campaigns
    ensures var after := AfterCapture(s, at, created, s.campaigns[s.leads[at].campaign], mail, now);
            id < |after.leads| && Quiet(s.log, after.log, id) && FreshOk(after, id, over)
  {
    var c := s.campaigns[s.leads[at].campaign];
    var packed := if s.leads[at].pack == PackPending then Packs.Pack(s, at, c, mail, now) else s;
    assert Quiet(s.log, s.log, id);
    EmailsStay(s, at, c, mail, now);
    PackIsFresh(s, at, mail, now, id, over);
    hide Packs.Pack, Packs.Viewing, Packs.PackGoesOut, FreshOk, Quiet;
    if created && packed.leads[at].inspection {
      ViewingIsFresh(packed, at, mail, now, id, over);
      QuietTwice(s.log, packed.log, Packs.Viewing(packed, at, c, mail, now).log, id);
    }
  }

  lemma SubmitIsFresh(
    s: State, campaign: Option<nat>, p: Capture.Payload, mail: Packs.Mail, now: Instant, id: nat, over: bool)
    requires id < |s.leads| && FreshOk(s, id, over)
    ensures var after := CaptureLead(s, campaign, p, mail, now);
            id < |after.leads| && Quiet(s.log, after.log, id) && FreshOk(after, id, over)
  {
    CaptureIsFresh(s, campaign, p, now, id, over);
    CapturedHere(s, campaign, p, now);
    var (captured, r) := Capture.CaptureCreated(s, campaign, p, now);
    hide Capture.CaptureCreated, FreshOk, Quiet, AfterCapture;
    if r.Ok? {
      EmailsAreFresh(captured, r.value.0, r.value.1, mail, now, id, over);
      QuietTwice(s.log, captured.log, CaptureLead(s, campaign, p, mail, now).log, id);
    }
  }

  /** A new lead has not been pushed yet. */
  lemma BornIsFresh(s: State, op: Op, id: nat, over: bool)
    requires |s.leads| <= id < |Next(s, op).leads|
    ensures FreshOk(Next(s, op), id, over)
  {
    if op.Submit? {
      var (captured, r) := Capture.CaptureCreated(s, op.campaign, op.payload, op.now);
      CapturedHere(s, op.campaign, op.payload, op.now);
      CaptureLeadLength(s, op.campaign, op.payload, op.mail, op.now);
      assert captured.leads[id].crm == CrmPending && r.Ok? && r.value.0 == id;
      assert FreshOk(captured, id, over);
      hide Capture.CaptureCreated, FreshOk, AfterCapture;
      EmailsAreFresh(captured, id, r.value.1, op.mail, op.now, id, over);
    }
  }

  lemma CaptureLeadLength(s: State, campaign: Option<nat>, p: Capture.Payload, mail: Packs.Mail, now: Instant)
    ensures |CaptureLead(s, campaign, p, mail, now).leads| == |Capture.CaptureCreated(s, campaign, p, now).0.leads|
  {
    hide Packs.PackLead, Packs.PackGoesOut, Packs.AllMaterials, Capture.Merge;
  }

  /** One call: what it does to whether the CRM has been told. */
  lemma NextIsFresh(s: State, op: Op, id: nat, over: bool)
    requires id < |s.leads| && FreshOk(s, id, over)
    ensures var after := Next(s, op);
            && id < |after.leads| && s.log <= after.log
            && FreshOk(after, id, (over || Unsends(s, op, id)) && !PushedSince(after.log, id, |s.log|))
  {
    var after := Next(s, op);
    match op
    case Submit(campaign, p, mail, now) =>
      SubmitIsFresh(s, campaign, p, mail, now, id, over);
    case DeliverySweep(limit, mail, now) =>
      ListIsListed(s.leads, Packs.AwaitsPack, 0, limit);
      PackIdsAreFresh(s, ListWhere(s.leads, Packs.AwaitsPack, 0, limit), mail, now, id, over);
    case CrmSweep(enabled, limit, crm) =>
      SyncIdsAreFresh(s, ListWhere(s.leads, Crm.AwaitsSync, 0, limit), crm, id, over);
      assert s.log <= s.log && !PushedSince(s.log, id, |s.log|);
    case StaffSync(at, enabled, crm) =>
      if at < |s.leads| && s.leads[at].campaign in s.campaigns {
        SyncIsFresh(s, at, enabled, true, crm, id, over);
      }
    case StaffResend(at, mail, now) =>
      if at < |s.leads| && s.leads[at].campaign in s.campaigns {
        PackIsFresh(s, at, mail, now, id, over);
        ViewingIsFresh(s, at, mail, now, id, over);
      }
    case SaveCampaign(_, _) =>
      hide LastPush, SaysDelivered;
  }

  // What the log says about one lead

  /** `due`: no pack email since the last submission that asked for something new. */
  datatype Facts = Facts(due: bool, captured: bool, requested: seq<string>)

  predicate AsksForMore(e: Event) {
    e.Captured? && !Capture.Covered(e.materials, e.stored)
  }

  function Learn(f: Facts, e: Event): Facts {
    match e
    case Captured(_, materials, _) => f.(due := f.due || AsksForMore(e), captured := true, requested := materials)
    case PackEmail(_) => f.(due := false)
    case _ => f
  }

  function History(log: seq<Event>, id: nat): Facts {
    if log == [] then Facts(true, false, [])
    else
      var e, f := log[|log| - 1], History(log[..|log| - 1], id);
      if e.lead == id then Learn(f, e) else f
  }

  // Invariants; the strict ones need that staff resend nothing

  predicate EventOk(strict: bool, e: Event, f: Facts) {
    match e
    case Captured(_, _, stored) => stored == f.requested
    case PackEmail(_) => f.captured && (strict ==> f.due)
    case _ => true
  }

  predicate LeadOk(strict: bool, lead: Lead, f: Facts) {
    && f.captured && lead.requested == f.requested
    && (lead.pack == PackSent ==> lead.deliveredAt.Some? && lead.delivered != [])
    && (strict && !f.due ==> lead.pack == PackSent)
  }

  ghost predicate Inv(strict: bool, s: State) {
    && (forall k :: 0 <= k < |s.log| ==> EventOk(strict, s.log[k], History(s.log[..k], s.log[k].lead)))
    && (forall i :: 0 <= i < |s.leads| ==> s.leads[i].campaign in s.campaigns)
    && (forall i: nat :: i < |s.leads| ==>
          LeadOk(strict, s.leads[i], History(s.log, i)))
    && (forall i: nat :: i >= |s.leads| ==> History(s.log, i) == Facts(true, false, []))
  }

  lemma HistorySnoc(log: seq<Event>, e: Event, id: nat)
    ensures History(log + [e], id) == if e.lead == id then Learn(History(log, id), e) else History(log, id)
  {
    assert (log + [e])[..|log|] == log;
  }

  lemma LogSnoc(strict: bool, log: seq<Event>, e: Event)
    requires forall k :: 0 <= k < |log| ==> EventOk(strict, log[k], History(log[..k], log[k].lead))
    requires EventOk(strict, e, History(log, e.lead))
    ensures forall k :: 0 <= k < |log| + 1 ==>
                          EventOk(strict, (log + [e])[k], History((log + [e])[..k], (log + [e])[k].lead))
  {
    forall k | 0 <= k < |log| + 1
      ensures EventOk(strict, (log + [e])[k], History((log + [e])[..k], (log + [e])[k].lead))
    {
      assert (log + [e])[..k] == log[..k];
      assert log[..|log|] == log;
    }
  }

  /** One lead rewritten, perhaps with one event of its own. */
  lemma RewriteKeepsInv(strict: bool, s: State, id: nat, lead: Lead, e: Option<Event>)
    requires Inv(strict, s) && id < |s.leads| && lead.campaign == s.leads[id].campaign
    requires e.Some? ==> e.value.lead == id && EventOk(strict, e.value, History(s.log, id))
    requires var f := History(s.log, id);
             LeadOk(strict, lead, if e.Some? then Learn(f, e.value) else f)
    ensures Inv(strict, s.(leads := s.leads[id := lead], log := s.log + if e.Some? then [e.value] else []))
  {
    var after := s.(leads := s.leads[id := lead], log := s.log + if e.Some? then [e.value] else []);
    if e.Some? {
      LogSnoc(strict, s.log, e.value);
      forall i: nat
        ensures History(after.log, i) == if i == id then Learn(History(s.log, i), e.value) else History(s.log, i)
      {
        HistorySnoc(s.log, e.value, i);
      }
    } else {
      assert after.log == s.log;
    }
    hide History, EventOk, LeadOk, Learn;
  }

  lemma AppendKeepsInv(strict: bool, s: State, lead: Lead, e: Event)
    requires Inv(strict, s) && lead.campaign in s.campaigns && e.lead == |s.leads|
    requires EventOk(strict, e, History(s.log, e.lead))
    requires LeadOk(strict, lead, Learn(History(s.log, e.lead), e))
    ensures Inv(strict, s.(leads := s.leads + [lead], log := s.log + [e]))
  {
    LogSnoc(strict, s.log, e);
    var after := s.(leads := s.leads + [lead], log := s.log + [e]);
    forall i: nat
      ensures History(after.log, i) == if i == e.lead then Learn(History(s.log, i), e) else History(s.log, i)
    {
      HistorySnoc(s.log, e, i);
    }
    hide History, EventOk, LeadOk, Learn;
  }

  lemma CaptureKeepsInv(strict: bool, s: State, campaign: Option<nat>, p: Capture.Payload, now: Instant)
    requires Inv(strict, s)
    ensures Inv(strict, Capture.CaptureCreated(s, campaign, p, now).0)
  {
    if campaign.Some? && campaign.value in s.campaigns && s.campaigns[campaign.value].active {
      var c := s.campaigns[campaign.value];
      var id := Find(s.leads, campaign.value, p.email, 0);
      hide Find, Capture.DeriveTags;
      if id >= 0 {
        var lead := s.leads[id];
        var e := Captured(id, p.materials, lead.requested);
        assert LeadOk(strict, lead, History(s.log, id));
        hide Inv, History;
        RewriteKeepsInv(strict, s, id, Capture.Merge(lead, Some(lead), c, p, now), Some(e));
      } else {
        var e := Captured(|s.leads|, p.materials, []);
        hide History;
        AppendKeepsInv(strict, s, Capture.Merge(Capture.NewLead(campaign.value, p.email), None, c, p, now), e);
      }
    }
  }

  /** Delivering keeps the invariants; with a strict history, to a lead not yet sent. */
  lemma PackKeepsInv(strict: bool, s: State, id: nat, mail: Packs.Mail, now: Instant)
    requires Inv(strict, s) && id < |s.leads| && (strict ==> s.leads[id].pack != PackSent)
    ensures Inv(strict, Packs.Pack(s, id, s.campaigns[s.leads[id].campaign], mail, now))
  {
    var lead := s.leads[id];
    var c := s.campaigns[lead.campaign];
    assert LeadOk(strict, lead, History(s.log, id));
    var e := if Packs.PackGoesOut(id, lead, c, mail) then Some(PackEmail(id)) else None;
    hide Inv, History, Packs.DeliverableMaterials;
    RewriteKeepsInv(strict, s, id, Packs.PackLead(id, lead, c, mail, now), e);
  }

  lemma ViewingKeepsInv(strict: bool, s: State, id: nat, mail: Packs.Mail, now: Instant)
    requires Inv(strict, s) && id < |s.leads|
    ensures Inv(strict, Packs.Viewing(s, id, s.campaigns[s.leads[id].campaign], mail, now))
  {
    var lead := s.leads[id];
    var c := s.campaigns[lead.campaign];
    assert LeadOk(strict, lead, History(s.log, id));
    hide Inv, History, Packs.AllMaterials;
    var after := Packs.Viewing(s, id, c, mail, now);
    if after != s {
      RewriteKeepsInv(strict, s, id, after.leads[id], None);
      assert s.log + [] == s.log;
    }
  }

  lemma SyncKeepsInv(strict: bool, s: State, id: nat, enabled: bool, force: bool, crm: Crm.Crm)
    requires Inv(strict, s) && id < |s.leads|
    ensures Inv(strict, Crm.Sync(s, id, s.campaigns[s.leads[id].campaign], enabled, force, crm))
  {
    var lead := s.leads[id];
    var c := s.campaigns[lead.campaign];
    assert LeadOk(strict, lead, History(s.log, id));
    var row := Crm.SyncedLead(id, lead, c, enabled, force, crm);
    var first := Crm.FirstPush(id, lead, c, enabled, force, crm);
    var second := Crm.SecondPush(id, lead, c, enabled, force, crm);
    var half := s.(leads := s.leads[id := row], log := s.log + first);
    RewriteKeepsInv(strict, s, id, row, OneEvent(first));
    assert LeadOk(strict, row, History(half.log, id));
    RewriteKeepsInv(strict, half, id, row, OneEvent(second));
    assert half.leads[id := row] == half.leads;
    hide Inv, History, Crm.SyncedLead, Crm.FirstPush, Crm.SecondPush;
  }

  function OneEvent(events: seq<Event>): Option<Event> {
    if |events| == 1 then Some(events[0]) else None
  }

  lemma {:induction false} PackIdsKeepInv(strict: bool, s: State, ids: seq<nat>, mail: Packs.Mail, now: Instant)
    requires Inv(strict, s)
    requires Listed(s.leads, Packs.AwaitsPack, ids)
    ensures Inv(strict, Packs.PackIds(s, ids, mail, now))
  {
    if ids != [] {
      var n := |ids| - 1;
      PackIdsKeepInv(strict, s, ids[..n], mail, now);
      Packs.PackIdsOnlyListed(s, ids[..n], mail, now);
      assert ids[n] !in ids[..n];
      var before := Packs.PackIds(s, ids[..n], mail, now);
      hide Packs.Pack, Packs.PackLead, Inv;
      PackKeepsInv(strict, before, ids[n], mail, now);
    }
  }

  lemma {:induction false} SyncIdsKeepInv(strict: bool, s: State, ids: seq<nat>, crm: Crm.Crm)
    requires Inv(strict, s)
    requires forall k :: 0 <= k < |ids| ==> ids[k] < |s.leads|
    ensures Inv(strict, Crm.SyncIds(s, ids, crm))
  {
    if ids != [] {
      var n := |ids| - 1;
      SyncIdsKeepInv(strict, s, ids[..n], crm);
      var before := Crm.SyncIds(s, ids[..n], crm);
      hide Crm.Sync, Inv;
      if before.leads[ids[n]].campaign in s.campaigns {
        SyncKeepsInv(strict, before, ids[n], true, false, crm);
      }
    }
  }

  lemma SubmitKeepsInv(
    strict: bool, s: State, campaign: Option<nat>, p: Capture.Payload, mail: Packs.Mail, now: Instant)
    requires Inv(strict, s)
    ensures Inv(strict, CaptureLead(s, campaign, p, mail, now))
  {
    CaptureKeepsInv(strict, s, campaign, p, now);
    CapturedHere(s, campaign, p, now);
    hide Capture.CaptureCreated, Inv, Packs.Pack, Packs.Viewing, Packs.PackLead, Packs.PackGoesOut;
    var (captured, r) := Capture.CaptureCreated(s, campaign, p, now);
    if r.Ok? {
      var (id, created) := r.value;
      var c := captured.campaigns[campaign.value];
      EmailsStay(captured, id, c, mail, now);
      if captured.leads[id].pack == PackPending {
        PackKeepsInv(strict, captured, id, mail, now);
      }
      var packed := if captured.leads[id].pack == PackPending then Packs.Pack(captured, id, c, mail, now) else captured;
      if created && packed.leads[id].inspection {
        ViewingKeepsInv(strict, packed, id, mail, now);
      }
    }
  }

  lemma NextKeepsInv(strict: bool, s: State, op: Op)
    requires Inv(strict, s) && (strict ==> !op.StaffResend?)
    ensures Inv(strict, Next(s, op))
  {
    match op
    case Submit(campaign, p, mail, now) => SubmitKeepsInv(strict, s, campaign, p, mail, now);
    case DeliverySweep(limit, mail, now) =>
      ListIsListed(s.leads, Packs.AwaitsPack, 0, limit);
      PackIdsKeepInv(strict, s, ListWhere(s.leads, Packs.AwaitsPack, 0, limit), mail, now);
    case CrmSweep(enabled, limit, crm) =>
      SyncIdsKeepInv(strict, s, ListWhere(s.leads, Crm.AwaitsSync, 0, limit), crm);
    case StaffSync(id, enabled, crm) =>
      if id < |s.leads| {
        SyncKeepsInv(strict, s, id, enabled, true, crm);
      }
    case StaffResend(id, mail, now) =>
      if id < |s.leads| {
        PackKeepsInv(strict, s, id, mail, now);
        ViewingKeepsInv(strict, s, id, mail, now);
      }
    case SaveCampaign(id, c) =>
      hide History, EventOk;
  }

  lemma {:induction false} RunKeepsInv(strict: bool, ops: seq<Op>)
    requires strict ==> NoResend(ops)
    ensures Inv(strict, After(ops))
  {
    if ops != [] {
      RunKeepsInv(strict, ops[..|ops| - 1]);
      hide Next, Inv;
      NextKeepsInv(strict, After(ops[..|ops| - 1]), ops[|ops| - 1]);
    }
  }

  // Results over whole runs: the CRM

  /** An unsending resend came after the last contact the CRM took. */
  ghost predicate Overtaken(ops: seq<Op>, id: nat) {
    ops != []
    && (Overtaken(ops[..|ops| - 1], id) || Unsends(After(ops[..|ops| - 1]), ops[|ops| - 1], id))
    && !PushedSince(After(ops).log, id, |After(ops[..|ops| - 1]).log|)
  }

  /** The same, step by step: a resend at step `k`, and no contact since. */
  ghost predicate UnsentAt(ops: seq<Op>, id: nat, k: nat) {
    && k < |ops| && Unsends(After(ops[..k]), ops[k], id)
    && !PushedSince(After(ops).log, id, |After(ops[..k]).log|)
  }

  lemma {:induction false} RunIsFresh(ops: seq<Op>, id: nat)
    requires id < |After(ops).leads|
    ensures FreshOk(After(ops), id, Overtaken(ops, id))
  {
    if ops != [] {
      var s, op := After(ops[..|ops| - 1]), ops[|ops| - 1];
      if id < |s.leads| {
        RunIsFresh(ops[..|ops| - 1], id);
        hide Next, FreshOk;
        NextIsFresh(s, op, id, Overtaken(ops[..|ops| - 1], id));
      } else {
        hide Next, FreshOk;
        BornIsFresh(s, op, id, Overtaken(ops, id));
      }
    }
  }

  lemma {:induction false} LogOnlyGrows(ops: seq<Op>, k: nat)
    requires k <= |ops|
    ensures After(ops[..k]).log <= After(ops).log
  {
    var n := |ops| - 1;
    if k == |ops| {
      assert ops[..k] == ops;
    } else {
      assert ops[..n][..k] == ops[..k];
      LogOnlyGrows(ops[..n], k);
      hide Next;
      NextLogGrows(After(ops[..n]), ops[n]);
    }
  }

  lemma NextLogGrows(s: State, op: Op)
    ensures s.log <= Next(s, op).log
  {
    hide Packs.PackLead, Packs.PackGoesOut, Packs.AllMaterials, Crm.FirstPush, Crm.SecondPush, Crm.SyncedLead;
    match op
    case DeliverySweep(limit, mail, now) =>
      PackIdsLogGrows(s, ListWhere(s.leads, Packs.AwaitsPack, 0, limit), mail, now);
    case CrmSweep(_, limit, crm) =>
      SyncIdsLogGrows(s, ListWhere(s.leads, Crm.AwaitsSync, 0, limit), crm);
    case _ =>
  }

  lemma UnsentAtPrefix(ops: seq<Op>, id: nat, k: nat)
    requires k < |ops| - 1
    ensures var n := |ops| - 1;
            UnsentAt(ops, id, k)
            <==> UnsentAt(ops[..n], id, k) && !PushedSince(After(ops).log, id, |After(ops[..n]).log|)
  {
    var n := |ops| - 1;
    assert ops[..n][..k] == ops[..k];
    LogOnlyGrows(ops, n);
    LogOnlyGrows(ops[..n], k);
    hide After, PushedSince, Unsends;
    QuietChains(After(ops[..k]).log, After(ops[..n]).log, After(ops).log, id);
  }

  lemma {:induction false} OvertakenIff(ops: seq<Op>, id: nat)
    ensures Overtaken(ops, id) <==> exists k :: UnsentAt(ops, id, k)
  {
    if ops != [] {
      var n := |ops| - 1;
      OvertakenIff(ops[..n], id);
      assert UnsentAt(ops, id, n) <==> Unsends(After(ops[..n]), ops[n], id)
                                       && !PushedSince(After(ops).log, id, |After(ops[..n]).log|);
      assert forall k: nat :: k > n ==> !UnsentAt(ops, id, k);
      assert forall k: nat :: k >= n ==> !UnsentAt(ops[..n], id, k);
      hide UnsentAt, Unsends, PushedSince, After;
      forall k: nat | k < n
        ensures UnsentAt(ops, id, k)
           <==> UnsentAt(ops[..n], id, k) && !PushedSince(After(ops).log, id, |After(ops[..n]).log|)
      {
        UnsentAtPrefix(ops, id, k);
      }
    }
  }

  /** Over any run, resends included: a synced nog-2026 lead is out of date exactly when
      staff resent its pack after the last push, while it was sent and synced, and the
      email did not go out. */
  lemma StaleIff(ops: seq<Op>, id: nat)
    requires id < |After(ops).leads|
    requires var s := After(ops);
             var lead := s.leads[id];
             lead.crm == CrmSynced && lead.campaign in s.campaigns && s.campaigns[lead.campaign].slug == Crm.NOG_SLUG
    ensures Stale(After(ops), id) <==> exists k :: UnsentAt(ops, id, k)
  {
    RunIsFresh(ops, id);
    OvertakenIff(ops, id);
    hide After, Overtaken, UnsentAt, LastPush;
  }

  /** One resend: it leaves the last push of an up-to-date lead out of date exactly when
      the lead is sent and synced and the pack, tried again, does not go out. */
  lemma ResendStaysFreshIff(s: State, id: nat, mail: Packs.Mail, now: Instant)
    requires id < |s.leads| && FreshOk(s, id, false) && s.campaigns[s.leads[id].campaign].slug == Crm.NOG_SLUG
    ensures var lead := s.leads[id];
            Stale(ResendPack(s, id, mail, now), id)
            <==> && lead.crm == CrmSynced && lead.pack == PackSent
                 && !(lead.inspection && lead.requested == [])
                 && !Packs.PackGoesOut(id, lead, s.campaigns[lead.campaign], mail)
  {
    PackIsFresh(s, id, mail, now, id, false);
    ViewingIsFresh(s, id, mail, now, id, false);
    QuietKeepsLastPush(s.log, ResendPack(s, id, mail, now).log, id);
    hide LastPush, Quiet, Packs.DeliverableMaterials, Packs.RealMaterialsRequested, Packs.AllMaterials;
  }

  /** In every reachable state a nog-2026 lead that is synced and sent was last pushed as
      delivered. */
  lemma SentAndSyncedSaysYes(ops: seq<Op>, id: nat)
    requires id < |After(ops).leads| && After(ops).leads[id].pack == PackSent
    ensures !Stale(After(ops), id)
    ensures After(ops).leads[id].deliveredAt.Some? && After(ops).leads[id].delivered != []
  {
    RunIsFresh(ops, id);
    RunKeepsInv(false, ops);
    hide After, Overtaken, LastPush, History;
  }

  /** Without staff resends, no synced nog-2026 lead is ever out of date. */
  lemma SyncedIsFresh(ops: seq<Op>, id: nat)
    requires NoResend(ops) && id < |After(ops).leads|
    ensures !Stale(After(ops), id)
  {
    if Stale(After(ops), id) {
      StaleIff(ops, id);
    }
  }

  /** Somewhere between two pack emails there is a submission that asks for more. */
  lemma {:induction false} DueNeedsMore(log: seq<Event>, id: nat, i: nat, j: nat) returns (k: nat)
    requires i < j <= |log| && !History(log[..i], id).due && History(log[..j], id).due
    ensures i <= k < j && log[k].lead == id && AsksForMore(log[k])
    decreases j
  {
    assert log[..j] == log[..j - 1] + [log[j - 1]];
    HistorySnoc(log[..j - 1], log[j - 1], id);
    if History(log[..j - 1], id).due {
      k := DueNeedsMore(log, id, i, j - 1);
    } else {
      k := j - 1;
    }
  }

  /** At most one pack email per request: over any run without staff resends, between two
      pack emails to one lead there is a submission whose materials the stored request did
      not cover. */
  lemma AtMostOncePack(ops: seq<Op>, id: nat, i: nat, j: nat) returns (k: nat)
    requires NoResend(ops) && i < j < |After(ops).log|
    requires After(ops).log[i] == After(ops).log[j] == PackEmail(id)
    ensures i < k < j && After(ops).log[k].lead == id && AsksForMore(After(ops).log[k])
    ensures After(ops).log[k].stored == History(After(ops).log[..k], id).requested
  {
    EventsAreOk(ops, j);
    hide After, EventOk, AsksForMore;
    var log := After(ops).log;
    SentIsNotDue(log, id, i);
    k := DueNeedsMore(log, id, i + 1, j);
    EventsAreOk(ops, k);
  }

  lemma SentIsNotDue(log: seq<Event>, id: nat, i: nat)
    requires i < |log| && log[i] == PackEmail(id)
    ensures !History(log[..i + 1], id).due
  {
    assert log[..i + 1] == log[..i] + [log[i]];
    HistorySnoc(log[..i], log[i], id);
  }

  lemma EventsAreOk(ops: seq<Op>, k: nat)
    requires NoResend(ops) && k < |After(ops).log|
    ensures var log := After(ops).log;
            var f := History(log[..k], log[k].lead);
            && (log[k].Captured? ==> log[k].stored == f.requested)
            && (log[k].PackEmail? ==> f.captured && f.due)
  {
    RunKeepsInv(true, ops);
    assert EventOk(true, After(ops).log[k], History(After(ops).log[..k], After(ops).log[k].lead));
  }

  predicate AsksFor(log: seq<Event>, id: nat, materials: set<string>) {
    forall k :: 0 <= k < |log| && log[k].Captured? && log[k].lead == id ==> Capture.SetOf(log[k].materials) == materials
  }

  lemma {:induction false} RequestIsOneOfThem(log: seq<Event>, id: nat, materials: set<string>, n: nat)
    requires AsksFor(log, id, materials) && n <= |log|
    ensures History(log[..n], id).captured ==> Capture.SetOf(History(log[..n], id).requested) == materials
  {
    if n > 0 {
      RequestIsOneOfThem(log, id, materials, n - 1);
      assert log[..n] == log[..n - 1] + [log[n - 1]];
      HistorySnoc(log[..n - 1], log[n - 1], id);
    }
  }

  lemma {:induction false} CapturedStays(log: seq<Event>, id: nat, m: nat, n: nat)
    requires m <= n <= |log| && History(log[..m], id).captured
    ensures History(log[..n], id).captured
    decreases n
  {
    if m < n {
      CapturedStays(log, id, m, n - 1);
      assert log[..n] == log[..n - 1] + [log[n - 1]];
      HistorySnoc(log[..n - 1], log[n - 1], id);
    }
  }

  /** However often one form is sent again, its lead gets at most one pack email. */
  lemma IdenticalResubmissionsSendOnce(ops: seq<Op>, id: nat, materials: set<string>, i: nat, j: nat)
    requires NoResend(ops) && AsksFor(After(ops).log, id, materials)
    requires i < |After(ops).log| && j < |After(ops).log|
    requires After(ops).log[i] == After(ops).log[j] == PackEmail(id)
    ensures i == j
  {
    if i != j {
      var a, b := if i < j then i else j, if i < j then j else i;
      var k := AtMostOncePack(ops, id, a, b);
      EventsAreOk(ops, a);
      var log := After(ops).log;
      hide After;
      CapturedStays(log, id, a, k);
      RequestIsOneOfThem(log, id, materials, k);
      assert false;
    }
  }

  /** A submission to the lead's address, or staff resending its pack. */
  predicate Touches(op: Op, id: nat, lead: Lead) {
    || (op.Submit? && op.campaign == Some(lead.campaign) && op.payload.email == lead.email)
    || (op.StaffResend? && op.id == id)
  }

  /** All but the CRM status is as it was. */
  predicate OnlyCrmMoves(a: Lead, b: Lead) {
    b == a.(crm := b.crm)
  }

  lemma {:induction false} SyncIdsOnlyCrm(s: State, ids: seq<nat>, crm: Crm.Crm, id: nat)
    requires (forall k :: 0 <= k < |ids| ==> ids[k] < |s.leads|) && id < |s.leads|
    ensures OnlyCrmMoves(s.leads[id], Crm.SyncIds(s, ids, crm).leads[id])
  {
    if ids != [] {
      SyncIdsOnlyCrm(s, ids[..|ids| - 1], crm, id);
      hide Crm.Taken, Crm.FirstPush, Crm.SecondPush;
    }
  }

  lemma EmailsLeaveOthers(s: State, at: nat, created: bool, c: Campaign, mail: Packs.Mail, now: Instant, id: nat)
    requires at < |s.leads| && id < |s.leads| && id != at
    ensures var after := AfterCapture(s, at, created, c, mail, now).leads;
            id < |after| && after[id] == s.leads[id]
  {
    hide Packs.PackLead, Packs.PackGoesOut, Packs.AllMaterials, Packs.Delivered;
  }

  lemma NextLeavesSkipped(s: State, op: Op, id: nat)
    requires id < |s.leads| && s.leads[id].pack == PackSkipped && !Touches(op, id, s.leads[id])
    ensures id < |Next(s, op).leads| && OnlyCrmMoves(s.leads[id], Next(s, op).leads[id])
  {
    match op
    case Submit(campaign, p, mail, now) =>
      var (captured, r) := Capture.CaptureCreated(s, campaign, p, now);
      CapturedHere(s, campaign, p, now);
      assert |s.leads| <= |captured.leads| && (r.Err? ==> captured == s);
      assert r.Ok? && r.value.0 != id ==> captured.leads[id] == s.leads[id];
      hide Capture.CaptureCreated, AfterCapture;
      if r.Ok? {
        EmailsLeaveOthers(captured, r.value.0, r.value.1, captured.campaigns[campaign.value], mail, now, id);
      }
    case DeliverySweep(limit, mail, now) =>
      var ids := ListWhere(s.leads, Packs.AwaitsPack, 0, limit);
      ListIsListed(s.leads, Packs.AwaitsPack, 0, limit);
      assert id !in ids;
      Packs.PackIdsLeaveOthers(s, ids, mail, now, id);
    case CrmSweep(_, limit, crm) =>
      SyncIdsOnlyCrm(s, ListWhere(s.leads, Crm.AwaitsSync, 0, limit), crm, id);
    case StaffSync(_, _, _) =>
      hide Crm.Taken, Crm.FirstPush, Crm.SecondPush;
    case StaffResend(_, _, _) =>
      hide Packs.PackLead, Packs.PackGoesOut, Packs.AllMaterials, Packs.Delivered;
    case SaveCampaign(_, _) =>
  }

  /** A pack skipped for want of a mail transport is not retried, configured or not: from
      any reachable state on, the lead stays as it is but for its CRM status until a form
      is sent to its address or staff resend its pack. */
  lemma {:induction false} SkippedIsNotRetried(ops: seq<Op>, j: nat, k: nat, id: nat)
    requires j <= k <= |ops| && id < |After(ops[..j]).leads| && After(ops[..j]).leads[id].pack == PackSkipped
    requires forall m :: j <= m < k ==> !Touches(ops[m], id, After(ops[..j]).leads[id])
    ensures id < |After(ops[..k]).leads| && OnlyCrmMoves(After(ops[..j]).leads[id], After(ops[..k]).leads[id])
    decreases k
  {
    if j < k {
      hide Next, After, Touches, OnlyCrmMoves;
      var before, op := ops[..k - 1], ops[k - 1];
      assert ops[..k] == before + [op];
      AfterSnoc(before, op);
      SkippedIsNotRetried(ops, j, k - 1, id);
      StillSkipped(After(ops[..j]).leads[id], After(before), op, id);
    } else {
      hide After;
    }
  }

  lemma StillSkipped(lead: Lead, s: State, op: Op, id: nat)
    requires id < |s.leads| && OnlyCrmMoves(lead, s.leads[id]) && lead.pack == PackSkipped && !Touches(op, id, lead)
    ensures id < |Next(s, op).leads| && OnlyCrmMoves(lead, Next(s, op).leads[id])
  {
    NextLeavesSkipped(s, op, id);
    hide Next;
  }

  /** Nothing asked for can be delivered. */
  predicate NothingToSend(c: Campaign, materials: seq<string>) {
    forall m :: m in materials ==> !Packs.Deliverable(c, m)
  }

  /** The call takes lead `id` out of `skipped`: a form to its address at an open campaign, or
      a staff resend, that has nothing to send or a transport to send it with - and for a lead
      that gets the viewing email, one that goes out with documents. */
  predicate EndsSkip(s: State, op: Op, id: nat)
    requires id < |s.leads|
  {
    var lead := s.leads[id];
    lead.campaign in s.campaigns
    && var c := s.campaigns[lead.campaign];
       match op
       case Submit(campaign, p, mail, _) =>
         && campaign == Some(lead.campaign) && p.email == lead.email && c.active
         && (mail.configured || NothingToSend(c, p.materials))
       case StaffResend(at, mail, _) =>
         && at == id
         && if lead.inspection && lead.requested == []
            then mail.configured && mail.takesViewing(id) && Packs.AllMaterials(c, c.materials) != []
            else mail.configured || NothingToSend(c, lead.requested)
       case _ => false
  }

  lemma PackSkipsIff(id: nat, lead: Lead, c: Campaign, mail: Packs.Mail, now: Instant)
    ensures Packs.PackLead(id, lead, c, mail, now).pack == PackSkipped
       <==> !mail.configured && !NothingToSend(c, lead.requested)
  {
    var _ := DistinctIsExact(lead.requested, m => Packs.Deliverable(c, m));
    var docs := Packs.DeliverableMaterials(lead, c);
    assert docs == [] <==> NothingToSend(c, lead.requested) by {
      if docs != [] {
        assert docs[0] in docs;
      }
    }
    hide Distinct, Packs.Deliverable, Packs.DeliverableMaterials, Packs.RealMaterialsRequested, NothingToSend;
  }

  lemma AddressIsFound(leads: seq<Lead>, id: nat)
    requires OnePerAddress(leads) && id < |leads|
    ensures Find(leads, leads[id].campaign, leads[id].email, 0) == id
  {
    var found := Find(leads, leads[id].campaign, leads[id].email, 0);
    hide Find;
    assert found >= 0;
  }

  lemma SubmitEndsSkipIff(s: State, op: Op, id: nat)
    requires op.Submit? && OnePerAddress(s.leads) && id < |s.leads| && s.leads[id].pack == PackSkipped
    requires s.leads[id].campaign in s.campaigns
    ensures id < |Next(s, op).leads|
    ensures Next(s, op).leads[id].pack != PackSkipped <==> EndsSkip(s, op, id)
  {
    var lead := s.leads[id];
    if !Touches(op, id, lead) {
      NextLeavesSkipped(s, op, id);
    } else {
      var c := s.campaigns[lead.campaign];
      AddressIsFound(s.leads, id);
      hide Find, Capture.DeriveTags, NothingToSend, Packs.Viewing;
      if c.active {
        var captured := Capture.CaptureCreated(s, op.campaign, op.payload, op.now).0;
        assert captured.leads[id].requested == op.payload.materials;
        assert captured.leads[id].pack == if op.payload.materials == [] then PackNotRequested else PackPending;
        PackSkipsIff(id, captured.leads[id], c, op.mail, op.now);
        assert op.payload.materials == [] ==> NothingToSend(c, op.payload.materials) by {
          NothingFromNothing(c, op.payload.materials);
        }
        hide Capture.CaptureCreated, Packs.PackLead, Packs.PackGoesOut;
      }
    }
  }

  lemma NothingFromNothing(c: Campaign, materials: seq<string>)
    ensures materials == [] ==> NothingToSend(c, materials)
  {
  }

  /** Which call ends a skip, exactly. */
  lemma NextEndsSkipIff(s: State, op: Op, id: nat)
    requires OnePerAddress(s.leads) && id < |s.leads| && s.leads[id].pack == PackSkipped
    requires s.leads[id].campaign in s.campaigns
    ensures id < |Next(s, op).leads|
    ensures Next(s, op).leads[id].pack != PackSkipped <==> EndsSkip(s, op, id)
  {
    var lead := s.leads[id];
    if op.Submit? {
      SubmitEndsSkipIff(s, op, id);
    } else if !Touches(op, id, lead) {
      NextLeavesSkipped(s, op, id);
    } else {
      PackSkipsIff(id, lead, s.campaigns[lead.campaign], op.mail, op.now);
      hide NothingToSend, Packs.PackLead, Packs.PackGoesOut, Packs.AllMaterials;
    }
  }

  predicate SkippedAt(ops: seq<Op>, id: nat, m: nat) {
    m <= |ops| && id < |After(ops[..m]).leads| && After(ops[..m]).leads[id].pack == PackSkipped
  }

  predicate EndsSkipAt(ops: seq<Op>, id: nat, m: nat) {
    m < |ops| && id < |After(ops[..m]).leads| && EndsSkip(After(ops[..m]), ops[m], id)
  }

  lemma SkipStep(ops: seq<Op>, id: nat, m: nat)
    requires m < |ops| && SkippedAt(ops, id, m)
    ensures SkippedAt(ops, id, m + 1) <==> !EndsSkipAt(ops, id, m)
  {
    var s := After(ops[..m]);
    assert ops[..m + 1][..m] == ops[..m];
    assert After(ops[..m + 1]) == Next(s, ops[m]);
    RunKeepsOneLeadPerAddress(ops, m, m);
    RunKeepsInv(false, ops[..m]);
    assert s.leads[id].campaign in s.campaigns;
    hide Next, After, Inv, OnePerAddress, EndsSkip;
    NextEndsSkipIff(s, ops[m], id);
  }

  /** From any reachable state on, a skipped lead is skipped at every moment up to step `k`
      exactly when no call until then ends the skip. */
  lemma {:induction false} SkippedUntilIff(ops: seq<Op>, id: nat, j: nat, k: nat)
    requires j <= k <= |ops| && SkippedAt(ops, id, j)
    ensures (forall m :: j <= m <= k ==> SkippedAt(ops, id, m))
       <==> (forall m :: j <= m < k ==> !EndsSkipAt(ops, id, m))
    decreases k
  {
    hide SkippedAt, EndsSkipAt;
    if j < k {
      SkippedUntilIff(ops, id, j, k - 1);
      if SkippedAt(ops, id, k - 1) {
        SkipStep(ops, id, k - 1);
      }
    }
  }

  /** In every reachable state a delivery sweep whose limit covers the backlog leaves no
      lead pending. */
  lemma SweepClearsBacklog(ops: seq<Op>, limit: nat, mail: Packs.Mail, now: Instant)
    requires CountWhere(After(ops).leads, Packs.AwaitsPack) <= limit
    ensures forall i :: 0 <= i < |After(ops).leads| ==>
                          Packs.Sweep(After(ops), limit, mail, now).leads[i].pack != PackPending
  {
    RunKeepsInv(false, ops);
    var s := After(ops);
    assert forall i :: 0 <= i < |s.leads| ==> s.leads[i].campaign in s.campaigns;
    hide Inv, After, Packs.Sweep;
    Packs.SweepClearsPending(s, limit, mail, now);
  }

  /** All the form asks for was asked for before, and something was sent since. */
  predicate Known(s: State, id: nat, created: bool, materials: seq<string>) {
    !created && id < |s.leads| && s.leads[id].pack == PackSent && Capture.Covered(materials, s.leads[id].requested)
  }

  lemma CaptureLeaves(s: State, campaign: Option<nat>, p: Capture.Payload, now: Instant)
    requires campaign.Some? && campaign.value in s.campaigns && s.campaigns[campaign.value].active && p.materials != []
    ensures var (after, r) := Capture.CaptureCreated(s, campaign, p, now);
            && r.Ok? && r.value.0 < |after.leads| && after.campaigns == s.campaigns
            && var lead := after.leads[r.value.0];
               && lead.email == p.email && lead.requested == p.materials
               && lead.pack == (if Known(s, r.value.0, r.value.1, p.materials) then PackSent else PackPending)
               && (!r.value.1 ==> r.value.0 < |s.leads| && lead.delivered == s.leads[r.value.0].delivered
                                  && lead.deliveredAt == s.leads[r.value.0].deliveredAt)
  {
    hide Capture.DeriveTags, Capture.Covered;
  }

  lemma PackAnswers(id: nat, lead: Lead, c: Campaign, mail: Packs.Mail, now: Instant, material: string)
    requires material in lead.requested && Packs.Deliverable(c, material) && mail.configured && mail.takesPack(id)
    ensures var after := Packs.PackLead(id, lead, c, mail, now);
            && after.email == lead.email && after.requested == lead.requested && after.pack == PackSent
            && after.deliveredAt == Some(now)
            && forall x :: x in after.delivered <==> x in lead.requested && Packs.Deliverable(c, x)
  {
    var _ := DistinctIsExact(lead.requested, x => Packs.Deliverable(c, x));
    hide Distinct, Packs.Deliverable;
  }

  /** With a working transport a submission is answered at once: afterwards its lead is
      sent, and unless all it asked for had been sent before, what was delivered now is
      what this form asked for and the campaign has. */
  lemma WorkingMailDelivers(
    s: State, campaign: Option<nat>, p: Capture.Payload, mail: Packs.Mail, now: Instant, material: string)
    requires campaign.Some? && campaign.value in s.campaigns && s.campaigns[campaign.value].active
    requires material in p.materials && Packs.Deliverable(s.campaigns[campaign.value], material)
    requires mail.configured && forall id :: mail.takesPack(id)
    ensures var r := Capture.CaptureCreated(s, campaign, p, now).1;
            var after := CaptureLead(s, campaign, p, mail, now).leads;
            && r.Ok? && r.value.0 < |after|
            && var (id, created) := r.value;
               var lead := after[id];
               && lead.email == p.email && lead.requested == p.materials && lead.pack == PackSent
               && (if Known(s, id, created, p.materials)
                   then lead.delivered == s.leads[id].delivered && lead.deliveredAt == s.leads[id].deliveredAt
                   else && lead.deliveredAt == Some(now)
                        && forall x :: x in lead.delivered <==>
                                       x in p.materials && Packs.Deliverable(s.campaigns[campaign.value], x))
  {
    CaptureLeaves(s, campaign, p, now);
    var (captured, r) := Capture.CaptureCreated(s, campaign, p, now);
    var c, id := s.campaigns[campaign.value], r.value.0;
    hide Capture.CaptureCreated, Known;
    hide Packs.PackLead, Packs.PackGoesOut, Packs.Deliverable, Packs.AllMaterials, Packs.Delivered;
    if captured.leads[id].pack == PackPending {
      PackAnswers(id, captured.leads[id], c, mail, now, material);
    }
  }

  lemma AfterSnoc(ops: seq<Op>, op: Op)
    ensures After(ops + [op]) == Next(After(ops), op)
  {
    assert (ops + [op])[..|ops|] == ops;
    hide Next;
  }

  /** In every reachable state: a lead whose pack failed for want of a link is sent by the first
      sweep after staff save the link, if the transport works and the sweep covers the backlog. */
  lemma FailedPackIsRetried(
    ops: seq<Op>, settings: Campaign, limit: nat, mail: Packs.Mail, now: Instant, id: nat, material: string)
    requires id < |After(ops).leads| && After(ops).leads[id].pack == PackFailed
    requires Packs.Asked(After(ops).leads[id], settings, material) && Packs.HasLink(settings, material)
    requires mail.configured && mail.takesPack(id) && CountWhere(After(ops).leads, Packs.AwaitsPack) <= limit
    ensures var save := SaveCampaign(After(ops).leads[id].campaign, settings);
            var after := After(ops + [save] + [DeliverySweep(limit, mail, now)]);
            id < |after.leads| && after.leads[id].pack == PackSent
  {
    var s := After(ops);
    var save, sweep := SaveCampaign(s.leads[id].campaign, settings), DeliverySweep(limit, mail, now);
    RunKeepsInv(false, ops);
    AfterSnoc(ops, save);
    AfterSnoc(ops + [save], sweep);
    assert forall i :: 0 <= i < |s.leads| ==> s.leads[i].campaign in s.campaigns;
    hide After, Inv;
    SavedSettingsHold(s, settings, id, material);
    var saved := Next(s, save);
    assert Next(saved, sweep) == Packs.Sweep(saved, limit, mail, now);
    hide Next, Packs.Asked, Packs.HasLink, Packs.Sweep, CountWhere;
    Packs.SweepSendsWaiting(saved, limit, mail, now, id, material);
  }

  lemma SavedSettingsHold(s: State, settings: Campaign, id: nat, material: string)
    requires id < |s.leads| && s.leads[id].campaign in s.campaigns
    requires Packs.Asked(s.leads[id], settings, material) && Packs.HasLink(settings, material)
    ensures var saved := Next(s, SaveCampaign(s.leads[id].campaign, settings));
            && saved.leads == s.leads && saved.campaigns.Keys == s.campaigns.Keys
            && var c := saved.campaigns[s.leads[id].campaign];
               Packs.Asked(s.leads[id], c, material) && Packs.HasLink(c, material)
  {
    var saved := Next(s, SaveCampaign(s.leads[id].campaign, settings));
    var c := saved.campaigns[s.leads[id].campaign];
    assert Packs.Configured(c, material) == Packs.Configured(settings, material);
  }

  /** Resubmissions never get the viewing email: what follows a merge is the pack, when one is
      due, or nothing. */
  lemma MergeGetsNoViewing(s: State, campaign: Option<nat>, p: Capture.Payload, mail: Packs.Mail, now: Instant)
    requires var r := Capture.CaptureCreated(s, campaign, p, now).1; r.Ok? && !r.value.1
    ensures var (captured, r) := Capture.CaptureCreated(s, campaign, p, now);
            var id := r.value.0;
            && campaign.Some? && campaign.value in captured.campaigns && id < |captured.leads|
            && CaptureLead(s, campaign, p, mail, now)
               == if captured.leads[id].pack == PackPending
                  then Packs.Pack(captured, id, captured.campaigns[campaign.value], mail, now) else captured
  {
    CapturedHere(s, campaign, p, now);
    hide Capture.CaptureCreated, Packs.Pack, Packs.Viewing;
  }

  /** A new lead that only asks for an inspection gets all of the campaign's documents, if the
      viewing email goes out. */
  lemma NewInspectionGetsDocuments(
    s: State, campaign: nat, p: Capture.Payload, mail: Packs.Mail, now: Instant, material: string)
    requires campaign in s.campaigns && s.campaigns[campaign].active && p.inspection && p.materials == []
    requires forall i :: 0 <= i < |s.leads| ==> !At(s.leads[i], campaign, p.email)
    requires mail.configured && mail.takesViewing(|s.leads|)
    requires material in s.campaigns[campaign].materials && Packs.HasLink(s.campaigns[campaign], material)
    ensures var after, id := CaptureLead(s, Some(campaign), p, mail, now), |s.leads|;
            && |after.leads| == id + 1 && after.leads[id].pack == PackSent && after.leads[id].deliveredAt == Some(now)
            && forall m :: m in after.leads[id].delivered
                      <==> m in s.campaigns[campaign].materials && Packs.HasLink(s.campaigns[campaign], m)
  {
    Capture.CaptureWrites(s, campaign, p, now);
    Capture.CaptureSetsPack(s, campaign, p, now);
    var (captured, r) := Capture.CaptureCreated(s, Some(campaign), p, now);
    var c := s.campaigns[campaign];
    Packs.ViewingOutcome(captured, |s.leads|, c, mail, now);
    var _ := Packs.AllMaterialsAre(c, c.materials);
    hide Capture.CaptureCreated, Capture.DeriveTags;
    hide Packs.Viewing, Packs.Pack, Packs.HasLink, Packs.AllMaterials, Packs.InOrder;
  }
}
