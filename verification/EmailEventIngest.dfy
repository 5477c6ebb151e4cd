/** The SendGrid event webhook (app/services/email_event_ingest.py): an append-only event
    log fed at least once per event, and the rollup columns kept beside it on each lead. */
module EmailEventIngest {
  import opened Common
  import opened LeadScoring

  datatype Kind = Open | Click | OtherTracked | Untracked

  /** One webhook entry; empty strings, `None` and time zero stand for missing fields, and
      `Malformed` for an entry whose handling raises. */
  datatype Evt =
    | Malformed
    | Evt(kind: Kind, sgId: string, lead: Option<nat>, recipient: string, url: string, timestamp: Instant)

  /** An entry together with the clock when it is handled, and whether the database refuses
      to insert what it would store. */
  datatype Delivery = Delivery(evt: Evt, now: Instant, refused: bool)

  datatype EmailEvent = EmailEvent(
    lead: nat, kind: Kind, material: Option<string>, url: string, sgId: string, occurredAt: Instant)

  /** The columns of a lead row that ingest and the score read and write; the others are
      in module `Leads`. */
  datatype Lead = Lead(email: string, signals: Signals, score: int)

  /** Assets of one campaign: label and links. */
  type Assets = seq<(string, seq<string>)>

  datatype Engagement = Engagement(leads: map<nat, Lead>, log: seq<EmailEvent>)

  predicate Recorded(log: seq<EmailEvent>, sgId: string) {
    exists i :: 0 <= i < |log| && log[i].sgId == sgId
  }

  /** Attributable to a lead, and to nobody else who got a copy. */
  predicate Wanted(leads: map<nat, Lead>, e: Evt) {
    && e.Evt? && e.kind != Untracked && e.sgId != ""
    && e.lead.Some? && e.lead.value != 0 && e.lead.value in leads
    && (e.recipient == "" || e.recipient == leads[e.lead.value].email)
  }

  function Label(assets: Assets, url: string): Option<string> {
    if assets == [] then None
    else if url in assets[0].1 then Some(assets[0].0)
    else Label(assets[1..], url)
  }

  /** The label of the first asset, over all campaigns, that has this link. */
  function Material(campaigns: seq<Assets>, url: string): Option<string> {
    if url == "" || campaigns == [] then None
    else if Label(campaigns[0], url).Some? then Label(campaigns[0], url)
    else Material(campaigns[1..], url)
  }

  function Entry(campaigns: seq<Assets>, d: Delivery): EmailEvent
    requires d.evt.Evt? && d.evt.lead.Some?
  {
    var e := d.evt;
    var url := if e.kind == Click then e.url else "";
    EmailEvent(e.lead.value, e.kind, Material(campaigns, url), url, e.sgId,
               if e.timestamp != 0 then e.timestamp else d.now)
  }

  predicate Clicks(e: EmailEvent) {
    e.kind == Click && e.material.Some? && e.material.value != ""
  }

  /** What one stored event does to its lead's columns. */
  function Bump(lead: Lead, e: EmailEvent, now: Instant): Lead {
    var s := lead.signals;
    if e.kind == Open then
      var at := if s.openedAt.None? || e.occurredAt > s.openedAt.value then Some(e.occurredAt) else s.openedAt;
      Rescored(lead.(signals := s.(openedAt := at, opens := s.opens + 1)), now)
    else if Clicks(e) && e.material.value !in s.clicked then
      Rescored(lead.(signals := s.(clicked := s.clicked + [e.material.value])), now)
    else
      lead
  }

  function Rescored(lead: Lead, now: Instant): Lead {
    lead.(score := Score(lead.signals, now))
  }

  predicate Stores(s: Engagement, e: Evt) {
    Wanted(s.leads, e) && !Recorded(s.log, e.sgId)
  }

  function IngestOne(s: Engagement, campaigns: seq<Assets>, d: Delivery): Engagement {
    if Stores(s, d.evt) then
      var e := Entry(campaigns, d);
      Engagement(s.leads[e.lead := Bump(s.leads[e.lead], e, d.now)], s.log + [e])
    else
      s
  }

  /** What a batch stores while no insert is refused. */
  function IngestAll(s: Engagement, campaigns: seq<Assets>, ds: seq<Delivery>): Engagement {
    if ds == [] then s
    else IngestOne(IngestAll(s, campaigns, ds[..|ds| - 1]), campaigns, ds[|ds| - 1])
  }

  /** The insert for this entry is refused: the session, which is not rolled back, then fails
      every later query. */
  predicate Refuses(s: Engagement, d: Delivery) {
    Stores(s, d.evt) && d.refused
  }

  /** How many entries of a batch are handled before the first refused insert. */
  function Handled(s: Engagement, campaigns: seq<Assets>, ds: seq<Delivery>): (n: nat)
    ensures n <= |ds|
  {
    if ds == [] then 0
    else
      var m, n := |ds| - 1, Handled(s, campaigns, ds[..|ds| - 1]);
      if n == m && !Refuses(IngestAll(s, campaigns, ds[..m]), ds[m]) then |ds| else n
  }

  /** A batch stops at its first refused insert, and is handled whole when there is none. */
  lemma {:induction false} HandledIs(s: Engagement, campaigns: seq<Assets>, ds: seq<Delivery>, k: nat)
    ensures var n := Handled(s, campaigns, ds);
            && (n < |ds| ==> Refuses(IngestAll(s, campaigns, ds[..n]), ds[n]))
            && (k < n ==> !Refuses(IngestAll(s, campaigns, ds[..k]), ds[k]))
  {
    if ds != [] {
      var m := |ds| - 1;
      HandledIs(s, campaigns, ds[..m], k);
      var n := Handled(s, campaigns, ds[..m]);
      assert ds[..m][..n] == ds[..n];
      assert k < m ==> ds[..m][..k] == ds[..k];
      hide Refuses, IngestAll;
    }
  }

  /** Some asset of these campaigns has this link. */
  ghost predicate Known(campaigns: seq<Assets>, url: string) {
    exists c, a :: 0 <= c < |campaigns| && 0 <= a < |campaigns[c]| && url in campaigns[c][a].1
  }

  /** The label is that of the first asset, over all campaigns, that has this link. */
  ghost predicate IsFirstLabel(campaigns: seq<Assets>, url: string, name: string) {
    exists c, a ::
      && 0 <= c < |campaigns| && 0 <= a < |campaigns[c]|
      && url in campaigns[c][a].1 && campaigns[c][a].0 == name
      && (forall i, j :: 0 <= i < c && 0 <= j < |campaigns[i]| ==> url !in campaigns[i][j].1)
      && (forall j :: 0 <= j < a ==> url !in campaigns[c][j].1)
  }

  lemma {:induction false} LabelIsFirst(assets: Assets, url: string) returns (a: nat)
    ensures Label(assets, url).Some? ==>
              a < |assets| && url in assets[a].1 && Label(assets, url) == Some(assets[a].0)
    ensures forall j :: 0 <= j < (if Label(assets, url).Some? then a else |assets|) ==> url !in assets[j].1
  {
    a := 0;
    if assets != [] && url !in assets[0].1 {
      a := LabelIsFirst(assets[1..], url);
      forall j | 0 <= j < (if Label(assets, url).Some? then a + 1 else |assets|) ensures url !in assets[j].1 {
        assert j > 0 ==> assets[j] == assets[1..][j - 1];
      }
      a := a + 1;
    }
  }

  lemma KnownBehind(campaigns: seq<Assets>, url: string)
    requires campaigns != [] && Label(campaigns[0], url).None?
    ensures Known(campaigns, url) <==> Known(campaigns[1..], url)
  {
    var a := LabelIsFirst(campaigns[0], url);
    var rest := campaigns[1..];
    if Known(rest, url) {
      var c, b :| 0 <= c < |rest| && 0 <= b < |rest[c]| && url in rest[c][b].1;
      assert url in campaigns[c + 1][b].1;
    }
    if Known(campaigns, url) {
      var c, b :| 0 <= c < |campaigns| && 0 <= b < |campaigns[c]| && url in campaigns[c][b].1;
      assert url in rest[c - 1][b].1;
    }
  }

  lemma FirstBehind(campaigns: seq<Assets>, url: string, name: string)
    requires campaigns != [] && Label(campaigns[0], url).None? && IsFirstLabel(campaigns[1..], url, name)
    ensures IsFirstLabel(campaigns, url, name)
  {
    var a := LabelIsFirst(campaigns[0], url);
    var rest: seq<Assets> := campaigns[1..];
    var c: nat, b: nat :| && 0 <= c < |rest| && 0 <= b < |rest[c]|
                && url in rest[c][b].1 && rest[c][b].0 == name
                && (forall i, j :: 0 <= i < c && 0 <= j < |rest[i]| ==> url !in rest[i][j].1)
                && (forall j :: 0 <= j < b ==> url !in rest[c][j].1);
    assert url in campaigns[c + 1][b].1 && campaigns[c + 1][b].0 == name;
    forall i, j | 0 <= i < c + 1 && 0 <= j < |campaigns[i]| ensures url !in campaigns[i][j].1 {
      assert i > 0 ==> campaigns[i] == rest[i - 1];
    }
  }

  /** A clicked link gets the label of the first asset that has it, and none exactly when it
      is empty or no asset has it. */
  lemma {:induction false} MaterialIsFirst(campaigns: seq<Assets>, url: string)
    ensures Material(campaigns, url).Some? <==> url != "" && Known(campaigns, url)
    ensures Material(campaigns, url).Some? ==> IsFirstLabel(campaigns, url, Material(campaigns, url).value)
  {
    if url != "" && campaigns != [] {
      if Label(campaigns[0], url).Some? {
        var a := LabelIsFirst(campaigns[0], url);
        assert url in campaigns[0][a].1;
      } else {
        MaterialIsFirst(campaigns[1..], url);
        KnownBehind(campaigns, url);
        hide Known, IsFirstLabel;
        if Material(campaigns, url).Some? {
          FirstBehind(campaigns, url, Material(campaigns, url).value);
        }
      }
    }
  }

  /** `e` is the event this entry brings for the lead with this address. */
  ghost predicate ComesFrom(e: EmailEvent, campaigns: seq<Assets>, d: Delivery, email: string) {
    && d.evt.Evt? && e.kind == d.evt.kind && e.kind in {Open, Click, OtherTracked}
    && e.sgId == d.evt.sgId != "" && d.evt.lead == Some(e.lead) && e.lead != 0
    && (d.evt.recipient == "" || d.evt.recipient == email)
    && e.occurredAt == (if d.evt.timestamp != 0 then d.evt.timestamp else d.now)
    && e.url == (if e.kind == Click then d.evt.url else "")
    && (e.material.Some? <==> e.url != "" && Known(campaigns, e.url))
    && (e.material.Some? ==> IsFirstLabel(campaigns, e.url, e.material.value))
  }

  lemma StoredEntry(s: Engagement, campaigns: seq<Assets>, d: Delivery)
    requires Stores(s, d.evt)
    ensures ComesFrom(Entry(campaigns, d), campaigns, d, s.leads[d.evt.lead.value].email)
  {
    var e := Entry(campaigns, d);
    MaterialIsFirst(campaigns, e.url);
    hide Known, IsFirstLabel, Material;
  }

  /** One entry adds an event exactly when its kind is tracked, its id is there and new, and
      its lead exists and was the recipient, and the insert goes through. */
  lemma LogGrowsIff(s: Engagement, campaigns: seq<Assets>, d: Delivery)
    ensures var after := Apply(s, Ingest(campaigns, [d]));
            var e := d.evt;
            if && !d.refused && e.Evt? && e.kind in {Open, Click, OtherTracked}
               && e.sgId != "" && (forall i :: 0 <= i < |s.log| ==> s.log[i].sgId != e.sgId)
               && e.lead.Some? && e.lead.value != 0 && e.lead.value in s.leads
               && (e.recipient == "" || e.recipient == s.leads[e.lead.value].email)
            then && |after.log| == |s.log| + 1 && after.log[..|s.log|] == s.log
                 && ComesFrom(after.log[|s.log|], campaigns, d, s.leads[e.lead.value].email)
            else after == s
  {
    assert [d][..0] == [] && [d][..1] == [d] && [d][0] == d;
    assert IngestAll(s, campaigns, []) == s;
    assert IngestAll(s, campaigns, [d]) == IngestOne(s, campaigns, d);
    assert Handled(s, campaigns, []) == 0;
    assert Handled(s, campaigns, [d]) == if Refuses(s, d) then 0 else 1;
    if Stores(s, d.evt) {
      StoredEntry(s, campaigns, d);
    }
    hide IngestAll, Handled, ComesFrom, Entry, Bump;
  }

  class EngagementStore {
    var leads: map<nat, Lead>
    var log: seq<EmailEvent>

    function State(): Engagement
      reads this
    {
      Engagement(leads, log)
    }

    /** Stores what the entries before the first refused insert store, and counts it. */
    method IngestEvents(campaigns: seq<Assets>, ds: seq<Delivery>) returns (processed: nat)
      modifies this
      ensures State() == IngestAll(old(State()), campaigns, ds[..Handled(old(State()), campaigns, ds)])
      ensures processed == |log| - |old(log)|
    {
      processed := 0;
      var usable := true;
      ghost var s := State();
      for i := 0 to |ds|
        invariant State() == IngestAll(s, campaigns, ds[..Handled(s, campaigns, ds[..i])])
        invariant usable <==> Handled(s, campaigns, ds[..i]) == i
        invariant processed == |log| - |old(log)|
      {
        assert ds[..i + 1][..i] == ds[..i];
        if !usable {
          continue;
        }
        var stored;
        stored, usable := IngestEvent(campaigns, ds[i]);
        if stored {
          processed := processed + 1;
        }
      }
      assert ds[..|ds|] == ds;
    }

    method IngestEvent(campaigns: seq<Assets>, d: Delivery) returns (stored: bool, usable: bool)
      modifies this
      ensures usable <==> !Refuses(old(State()), d)
      ensures State() == if usable then IngestOne(old(State()), campaigns, d) else old(State())
      ensures |log| == |old(log)| + if stored then 1 else 0
      ensures stored <==>
              && !d.refused && d.evt.Evt? && d.evt.kind in {Open, Click, OtherTracked}
              && d.evt.sgId != "" && (forall i :: 0 <= i < |old(log)| ==> old(log)[i].sgId != d.evt.sgId)
              && d.evt.lead.Some? && d.evt.lead.value != 0 && d.evt.lead.value in old(leads)
              && (d.evt.recipient == "" || d.evt.recipient == old(leads)[d.evt.lead.value].email)
      ensures stored ==> ComesFrom(log[|log| - 1], campaigns, d, old(leads)[d.evt.lead.value].email)
    {
      ghost var s := State();
      var e := d.evt;
      assert e.Evt? ==> (Recorded(log, e.sgId) <==> exists i :: 0 <= i < |log| && log[i].sgId == e.sgId);
      hide Score, Recorded, ComesFrom;
      if e.Malformed? || e.kind == Untracked || e.sgId == "" || Recorded(log, e.sgId) {
        return false, true;
      }
      if e.lead.None? || e.lead.value == 0 || e.lead.value !in leads {
        return false, true;
      }
      var lead := leads[e.lead.value];
      if e.recipient != "" && e.recipient != lead.email {
        return false, true;
      }
      var url := if e.kind == Click then e.url else "";
      var material := None;
      if url != "" {
        material := ResolveMaterial(campaigns, url);
      }
      if d.refused {
        return false, false;
      }
      var occurredAt := if e.timestamp != 0 then e.timestamp else d.now;
      log := log + [EmailEvent(e.lead.value, e.kind, material, url, e.sgId, occurredAt)];
      if e.kind in {Open, Click} {
        lead := BumpLeadRollup(lead, e.kind, material, occurredAt, d.now);
      }
      leads := leads[e.lead.value := lead];
      StoredEntry(s, campaigns, d);
      return true, true;
    }
  }

  method ResolveMaterial(campaigns: seq<Assets>, url: string) returns (material: Option<string>)
    ensures material == Material(campaigns, url)
  {
    if url == "" {
      return None;
    }
    for i := 0 to |campaigns|
      invariant Material(campaigns, url) == Material(campaigns[i..], url)
    {
      var assets := campaigns[i];
      for j := 0 to |assets|
        invariant Label(assets, url) == Label(assets[j..], url)
      {
        if url in assets[j].1 {
          return Some(assets[j].0);
        }
      }
    }
    return None;
  }

  method BumpLeadRollup(lead: Lead, kind: Kind, material: Option<string>, occurredAt: Instant, now: Instant)
    returns (after: Lead)
    requires kind in {Open, Click}
    ensures after == Bump(lead, EmailEvent(0, kind, material, "", "", occurredAt), now)
  {
    hide Score;
    var s, changed := lead.signals, false;
    if kind == Open {
      if s.openedAt.None? || occurredAt > s.openedAt.value {
        s := s.(openedAt := Some(occurredAt));
      }
      s := s.(opens := s.opens + 1);
      changed := true;
    } else if material.Some? && material.value != "" {
      if material.value !in s.clicked {
        s := s.(clicked := s.clicked + [material.value]);
        changed := true;
      }
    }
    after := lead.(signals := s);
    if changed {
      var score := EngagementScore(s, now);
      after := after.(score := score);
    }
  }

  /** A batch stores nothing exactly when none of its entries would be stored as things are. */
  lemma {:induction false} StoresNothingIff(s: Engagement, campaigns: seq<Assets>, ds: seq<Delivery>)
    ensures (forall k :: 0 <= k < |ds| ==> !Stores(s, ds[k].evt)) <==> IngestAll(s, campaigns, ds).log == s.log
    ensures IngestAll(s, campaigns, ds).log == s.log ==> IngestAll(s, campaigns, ds) == s
  {
    if ds != [] {
      var m := |ds| - 1;
      StoresNothingIff(s, campaigns, ds[..m]);
      LogGrows(s, campaigns, ds[..m]);
      assert forall k :: 0 <= k < m ==> ds[..m][k] == ds[k];
      hide Stores, Bump, Entry;
    }
  }

  /** When a refused insert drops more than its own row: exactly when, as things are then,
      some later entry of the batch would be stored. */
  lemma BatchIsCutIff(s: Engagement, campaigns: seq<Assets>, ds: seq<Delivery>)
    requires Handled(s, campaigns, ds) < |ds|
    ensures var n := Handled(s, campaigns, ds);
            var reached := IngestAll(s, campaigns, ds[..n]);
            IngestAll(s, campaigns, ds[..n] + ds[n + 1..]) == reached
            <==> forall k :: n < k < |ds| ==> !Stores(reached, ds[k].evt)
  {
    var n := Handled(s, campaigns, ds);
    var reached, rest := IngestAll(s, campaigns, ds[..n]), ds[n + 1..];
    BatchesConcatenate(s, campaigns, ds[..n], rest);
    StoresNothingIff(reached, campaigns, rest);
    assert forall k :: 0 <= k < |rest| ==> rest[k] == ds[n + 1 + k];
    assert forall k :: n < k < |ds| ==> ds[k] == rest[k - n - 1];
    hide Stores, IngestAll, Handled;
  }

  // The rollup as a reading of the log

  function OpensIn(log: seq<EmailEvent>, lead: nat): nat {
    if log == [] then 0
    else
      var e := log[|log| - 1];
      OpensIn(log[..|log| - 1], lead) + if e.lead == lead && e.kind == Open then 1 else 0
  }

  ghost predicate OpenedAt(log: seq<EmailEvent>, lead: nat, t: Instant) {
    exists i :: 0 <= i < |log| && log[i].lead == lead && log[i].kind == Open && log[i].occurredAt == t
  }

  /** `latest` is the latest time of a stored open, if there is one. */
  ghost predicate IsLatestOpen(log: seq<EmailEvent>, lead: nat, latest: Option<Instant>) {
    && (latest.Some? ==> OpenedAt(log, lead, latest.value))
    && forall t :: OpenedAt(log, lead, t) ==> latest.Some? && t <= latest.value
  }

  /** Labels clicked, each once, in the order of their first click. */
  function ClickedIn(log: seq<EmailEvent>, lead: nat): seq<string> {
    if log == [] then []
    else
      var e, before := log[|log| - 1], ClickedIn(log[..|log| - 1], lead);
      if e.lead == lead && Clicks(e) && e.material.value !in before then before + [e.material.value] else before
  }

  ghost predicate Agrees(s: Engagement) {
    && (forall i, j :: 0 <= i < j < |s.log| ==> s.log[i].sgId != s.log[j].sgId)
    && (forall i :: 0 <= i < |s.log| ==> s.log[i].lead in s.leads)
    && (forall id :: id in s.leads ==> LeadAgrees(s.log, id, s.leads[id].signals))
  }

  ghost predicate LeadAgrees(log: seq<EmailEvent>, id: nat, signals: Signals) {
    && signals.opens == OpensIn(log, id)
    && IsLatestOpen(log, id, signals.openedAt)
    && signals.clicked == ClickedIn(log, id)
  }

  lemma OpenedAtSnoc(log: seq<EmailEvent>, e: EmailEvent, lead: nat, t: Instant)
    ensures OpenedAt(log + [e], lead, t)
       <==> OpenedAt(log, lead, t) || (e.lead == lead && e.kind == Open && e.occurredAt == t)
  {
    if OpenedAt(log, lead, t) {
      var i :| 0 <= i < |log| && log[i].lead == lead && log[i].kind == Open && log[i].occurredAt == t;
      assert (log + [e])[i] == log[i];
    }
    if e.lead == lead && e.kind == Open && e.occurredAt == t {
      assert (log + [e])[|log|] == e;
    }
  }

  lemma StoreAgrees(log: seq<EmailEvent>, e: EmailEvent, id: nat, lead: Lead, now: Instant)
    requires LeadAgrees(log, id, lead.signals)
    ensures LeadAgrees(log + [e], id, if e.lead == id then Bump(lead, e, now).signals else lead.signals)
  {
    assert (log + [e])[..|log|] == log;
    forall t ensures OpenedAt(log + [e], id, t)
                <==> OpenedAt(log, id, t) || (e.lead == id && e.kind == Open && e.occurredAt == t) {
      OpenedAtSnoc(log, e, id, t);
    }
    hide Score, OpenedAt;
  }

  lemma IngestOneAgrees(s: Engagement, campaigns: seq<Assets>, d: Delivery)
    requires Agrees(s)
    ensures Agrees(IngestOne(s, campaigns, d))
    ensures IngestOne(s, campaigns, d).leads.Keys == s.leads.Keys
    ensures forall id :: id in s.leads ==> IngestOne(s, campaigns, d).leads[id].email == s.leads[id].email
  {
    if Stores(s, d.evt) {
      var e := Entry(campaigns, d);
      var after := IngestOne(s, campaigns, d);
      hide Score, LeadAgrees;
      forall id | id in s.leads ensures LeadAgrees(after.log, id, after.leads[id].signals) {
        StoreAgrees(s.log, e, id, s.leads[id], d.now);
      }
      assert forall i :: 0 <= i < |s.log| ==> s.log[i].sgId != e.sgId;
    }
  }

  // Runs, with captures and deliveries in between

  datatype Op =
    | Ingest(campaigns: seq<Assets>, ds: seq<Delivery>)
    /** A capture: a new lead, or new answers for one that is there. */
    | Capture(id: nat, email: string, materials: seq<string>, interests: seq<string>, timing: string,
              inspection: bool, optIn: bool, packSent: bool, now: Instant)
    | Deliver(id: nat, packSent: bool)

  function Apply(s: Engagement, op: Op): Engagement {
    match op
    case Ingest(campaigns, ds) => IngestAll(s, campaigns, ds[..Handled(s, campaigns, ds)])
    case Capture(id, email, materials, interests, timing, inspection, optIn, packSent, now) =>
      var lead := if id in s.leads then s.leads[id]
                  else Lead(email, Signals(0, None, [], [], [], "", false, false, false), 0);
      var signals := lead.signals.(materials := materials, interests := interests, timing := timing,
                                   inspection := inspection, optIn := optIn, packSent := packSent);
      s.(leads := s.leads[id := Rescored(lead.(signals := signals), now)])
    case Deliver(id, packSent) =>
      if id in s.leads
      then s.(leads := s.leads[id := s.leads[id].(signals := s.leads[id].signals.(packSent := packSent))])
      else s
  }

  function After(ops: seq<Op>): Engagement {
    if ops == [] then Engagement(map[], []) else Apply(After(ops[..|ops| - 1]), ops[|ops| - 1])
  }

  lemma {:induction false} IngestAllAgrees(s: Engagement, campaigns: seq<Assets>, ds: seq<Delivery>)
    requires Agrees(s)
    ensures Agrees(IngestAll(s, campaigns, ds))
    ensures IngestAll(s, campaigns, ds).leads.Keys == s.leads.Keys
    ensures forall id :: id in s.leads ==> IngestAll(s, campaigns, ds).leads[id].email == s.leads[id].email
  {
    if ds != [] {
      IngestAllAgrees(s, campaigns, ds[..|ds| - 1]);
      IngestOneAgrees(IngestAll(s, campaigns, ds[..|ds| - 1]), campaigns, ds[|ds| - 1]);
    }
  }

  lemma {:induction false} NoEventsAgree(log: seq<EmailEvent>, id: nat)
    requires forall i :: 0 <= i < |log| ==> log[i].lead != id
    ensures OpensIn(log, id) == 0 && ClickedIn(log, id) == [] && forall t :: !OpenedAt(log, id, t)
  {
    if log != [] {
      NoEventsAgree(log[..|log| - 1], id);
    }
  }

  lemma CaptureAgrees(s: Engagement, op: Op)
    requires Agrees(s) && op.Capture?
    ensures Agrees(Apply(s, op))
  {
    var after := Apply(s, op);
    hide Score, OpenedAt, OpensIn, ClickedIn;
    forall id | id in after.leads ensures LeadAgrees(after.log, id, after.leads[id].signals) {
      if id !in s.leads {
        NoEventsAgree(s.log, id);
      }
    }
    hide LeadAgrees;
  }

  /** In every reachable state the rollup columns are what the log says. */
  lemma {:induction false} RunAgrees(ops: seq<Op>)
    ensures Agrees(After(ops))
  {
    if ops != [] {
      var s, op := After(ops[..|ops| - 1]), ops[|ops| - 1];
      RunAgrees(ops[..|ops| - 1]);
      match op
      case Ingest(campaigns, ds) => IngestAllAgrees(s, campaigns, ds[..Handled(s, campaigns, ds)]);
      case Capture(id, _, _, _, _, _, _, _, _) =>
        CaptureAgrees(s, op);
      case Deliver(_, _) =>
    }
  }

  /** The log, read back: each event came in some batch of the run, of a tracked kind, for a
      lead that is there, and only that lead was the recipient. */
  lemma {:induction false} EventsAreDelivered(ops: seq<Op>, i: nat) returns (k: nat, n: nat)
    requires i < |After(ops).log|
    ensures k < |ops| && ops[k].Ingest? && n < |ops[k].ds|
    ensures var s := After(ops);
            && s.log[i].lead in s.leads
            && ComesFrom(s.log[i], ops[k].campaigns, ops[k].ds[n], s.leads[s.log[i].lead].email)
  {
    var m := |ops| - 1;
    var s, op := After(ops[..m]), ops[m];
    RunAgrees(ops[..m]);
    RunAgrees(ops);
    hide Score, ComesFrom, Agrees, Bump, Entry;
    EmailsStay(s, op);
    if i < |s.log| {
      k, n := EventsAreDelivered(ops[..m], i);
      assert op.Ingest? ==> s.log <= After(ops).log by {
        if op.Ingest? {
          LogGrows(s, op.campaigns, op.ds[..Handled(s, op.campaigns, op.ds)]);
        }
      }
    } else {
      k := m;
      n := AddedInBatch(s, op.campaigns, op.ds[..Handled(s, op.campaigns, op.ds)], i);
    }
  }

  lemma EmailsStay(s: Engagement, op: Op)
    requires Agrees(s)
    ensures forall id :: id in s.leads ==>
              id in Apply(s, op).leads && Apply(s, op).leads[id].email == s.leads[id].email
  {
    hide Score, Agrees;
    match op
    case Ingest(campaigns, ds) => IngestAllAgrees(s, campaigns, ds[..Handled(s, campaigns, ds)]);
    case Capture(_, _, _, _, _, _, _, _, _) =>
    case Deliver(_, _) =>
  }

  lemma {:induction false} AddedInBatch(s: Engagement, campaigns: seq<Assets>, ds: seq<Delivery>, i: nat)
    returns (n: nat)
    requires Agrees(s) && |s.log| <= i < |IngestAll(s, campaigns, ds).log|
    ensures n < |ds|
    ensures var e := IngestAll(s, campaigns, ds).log[i];
            e.lead in s.leads && ComesFrom(e, campaigns, ds[n], s.leads[e.lead].email)
  {
    var m := |ds| - 1;
    var before := IngestAll(s, campaigns, ds[..m]);
    IngestAllAgrees(s, campaigns, ds[..m]);
    hide Score, ComesFrom, Agrees, Bump;
    if i < |before.log| {
      n := AddedInBatch(s, campaigns, ds[..m], i);
    } else {
      n := m;
      StoredEntry(before, campaigns, ds[m]);
    }
  }

  /** The lead has clicked on this material. */
  ghost predicate ClickedOn(log: seq<EmailEvent>, lead: nat, m: string) {
    exists i :: 0 <= i < |log| && log[i].lead == lead && log[i].kind == Click && log[i].material == Some(m)
  }

  lemma ClickedOnSnoc(log: seq<EmailEvent>, e: EmailEvent, lead: nat, m: string)
    ensures ClickedOn(log + [e], lead, m)
       <==> ClickedOn(log, lead, m) || (e.lead == lead && e.kind == Click && e.material == Some(m))
  {
    var more := log + [e];
    assert more[|log|] == e && forall i :: 0 <= i < |log| ==> more[i] == log[i];
  }

  /** `ClickedIn` is duplicate-free and holds exactly the labels clicked. */
  lemma {:induction false} ClickedIsExact(log: seq<EmailEvent>, lead: nat)
    ensures var labels := ClickedIn(log, lead);
            && (forall i, j :: 0 <= i < j < |labels| ==> labels[i] != labels[j])
            && (forall m :: m in labels <==> m != "" && ClickedOn(log, lead, m))
  {
    if log != [] {
      var shorter, last := log[..|log| - 1], log[|log| - 1];
      ClickedIsExact(shorter, lead);
      assert log == shorter + [last];
      var labels, before := ClickedIn(log, lead), ClickedIn(shorter, lead);
      assert labels == before || (labels == before + [last.material.value] && last.lead == lead && Clicks(last));
      assert last.lead == lead && Clicks(last) ==> last.material.value in labels;
      hide ClickedIn, ClickedOn;
      forall m ensures m in labels <==> m != "" && ClickedOn(log, lead, m) {
        ClickedOnSnoc(shorter, last, lead, m);
      }
    }
  }

  // Scores

  /** Ingesting never lowers any lead's score as of a given instant, and a stored open
      brings the stored score up to date. */
  lemma IngestNeverLowersScore(s: Engagement, campaigns: seq<Assets>, d: Delivery, id: nat, at: Instant)
    requires id in s.leads
    ensures var after := IngestOne(s, campaigns, d);
            && id in after.leads
            && Score(s.leads[id].signals, at) <= Score(after.leads[id].signals, at)
            && (Stores(s, d.evt) && d.evt.lead == Some(id) && d.evt.kind == Open ==>
                  after.leads[id].score == Score(after.leads[id].signals, d.now))
  {
    var after := IngestOne(s, campaigns, d);
    hide Score;
    ScoreIsMonotone(s.leads[id].signals, after.leads[id].signals, at);
  }

  /** The stored score is brought up to date exactly by what changes the signals; nothing
      else of a lead moves. */
  lemma ScoreFollowsSignals(s: Engagement, campaigns: seq<Assets>, d: Delivery, id: nat)
    requires id in s.leads
    ensures var before, after := s.leads[id], IngestOne(s, campaigns, d).leads[id];
            && after.email == before.email
            && after.score == (if after.signals == before.signals then before.score
                               else Score(after.signals, d.now))
            && after.signals.(opens := before.signals.opens, openedAt := before.signals.openedAt,
                              clicked := before.signals.clicked) == before.signals
  {
    hide Score, Stores, Material;
  }

  // Order independence

  ghost predicate Within(xs: seq<Delivery>, ys: seq<Delivery>) {
    forall i :: 0 <= i < |xs| ==> exists j :: 0 <= j < |ys| && ys[j].evt == xs[i].evt
  }

  ghost predicate SameEvents(xs: seq<Delivery>, ys: seq<Delivery>) {
    Within(xs, ys) && Within(ys, xs)
  }

  predicate SameId(a: Evt, b: Evt) {
    a.Evt? && b.Evt? && a.sgId == b.sgId != ""
  }

  /** Every event carries its time, and a SendGrid id names one event. */
  ghost predicate Stamped(ds: seq<Delivery>) {
    && (forall i :: 0 <= i < |ds| ==> ds[i].evt.Evt? ==> ds[i].evt.timestamp != 0)
    && (forall i, j :: 0 <= i < |ds| && 0 <= j < |ds| && SameId(ds[i].evt, ds[j].evt) ==> ds[i].evt == ds[j].evt)
  }

  /** `e` is what some wanted, not yet recorded delivery stores. */
  ghost predicate Fresh(s: Engagement, campaigns: seq<Assets>, ds: seq<Delivery>, e: EmailEvent) {
    exists i :: 0 <= i < |ds| && Stores(s, ds[i].evt) && e == Entry(campaigns, ds[i])
  }

  lemma {:induction false} LogIsOldAndFresh(s: Engagement, campaigns: seq<Assets>, ds: seq<Delivery>)
    requires Agrees(s) && Stamped(ds)
    ensures forall e :: e in IngestAll(s, campaigns, ds).log <==> e in s.log || Fresh(s, campaigns, ds, e)
  {
    if ds != [] {
      var n := |ds| - 1;
      var shorter, d := ds[..n], ds[n];
      LogIsOldAndFresh(s, campaigns, shorter);
      IngestAllAgrees(s, campaigns, shorter);
      var before := IngestAll(s, campaigns, shorter);
      assert Wanted(before.leads, d.evt) <==> Wanted(s.leads, d.evt);
      var after := IngestAll(s, campaigns, ds);
      assert after == IngestOne(before, campaigns, d);
      assert ds == shorter + [d];
      if Stores(s, d.evt) && Recorded(before.log, d.evt.sgId) {
        AlreadyStored(s, campaigns, shorter, d, before);
      }
      if Stores(before, d.evt) {
        LogGrows(s, campaigns, shorter);
        assert Stores(s, d.evt);
      }
      hide Wanted, Bump, Fresh, IngestAll, Entry, Stamped, Agrees;
      forall e ensures e in after.log <==> e in s.log || Fresh(s, campaigns, ds, e) {
        FreshSnoc(s, campaigns, ds, e);
      }
    }
  }

  lemma {:induction false} LogGrows(s: Engagement, campaigns: seq<Assets>, ds: seq<Delivery>)
    ensures s.log <= IngestAll(s, campaigns, ds).log
  {
    if ds != [] {
      LogGrows(s, campaigns, ds[..|ds| - 1]);
      hide Bump, Entry, Wanted;
    }
  }

  lemma FreshSnoc(s: Engagement, campaigns: seq<Assets>, ds: seq<Delivery>, e: EmailEvent)
    requires ds != []
    ensures Fresh(s, campaigns, ds, e)
       <==> Fresh(s, campaigns, ds[..|ds| - 1], e)
            || (Stores(s, ds[|ds| - 1].evt) && e == Entry(campaigns, ds[|ds| - 1]))
  {
    var shorter := ds[..|ds| - 1];
    if Fresh(s, campaigns, shorter, e) {
      var i :| 0 <= i < |shorter| && Stores(s, shorter[i].evt) && e == Entry(campaigns, shorter[i]);
      assert ds[i] == shorter[i];
    }
    if Fresh(s, campaigns, ds, e) {
      var i :| 0 <= i < |ds| && Stores(s, ds[i].evt) && e == Entry(campaigns, ds[i]);
      assert i < |shorter| ==> shorter[i] == ds[i];
    }
  }

  /** A repeat of a stored event would store the same entry. */
  lemma AlreadyStored(s: Engagement, campaigns: seq<Assets>, shorter: seq<Delivery>, d: Delivery, before: Engagement)
    requires Stamped(shorter + [d]) && Stores(s, d.evt) && Recorded(before.log, d.evt.sgId)
    requires forall e :: e in before.log <==> e in s.log || Fresh(s, campaigns, shorter, e)
    ensures Entry(campaigns, d) in before.log
  {
    var i :| 0 <= i < |before.log| && before.log[i].sgId == d.evt.sgId;
    var e := before.log[i];
    assert e in before.log;
    if e !in s.log {
      var k :| 0 <= k < |shorter| && Stores(s, shorter[k].evt) && e == Entry(campaigns, shorter[k]);
      assert (shorter + [d])[k] == shorter[k] && (shorter + [d])[|shorter|] == d;
    }
  }

  ghost function OpenEvents(log: seq<EmailEvent>, lead: nat): set<EmailEvent> {
    set e | e in log && e.lead == lead && e.kind == Open
  }

  lemma OpenEventsSnoc(log: seq<EmailEvent>, e: EmailEvent, lead: nat)
    ensures OpenEvents(log + [e], lead)
         == OpenEvents(log, lead) + if e.lead == lead && e.kind == Open then {e} else {}
    ensures e !in log ==> e !in OpenEvents(log, lead)
  {
  }

  lemma {:induction false} OpensCountEvents(log: seq<EmailEvent>, lead: nat)
    requires forall i, j :: 0 <= i < j < |log| ==> log[i].sgId != log[j].sgId
    ensures OpensIn(log, lead) == |OpenEvents(log, lead)|
  {
    if log != [] {
      var shorter, last := log[..|log| - 1], log[|log| - 1];
      OpensCountEvents(shorter, lead);
      assert log == shorter + [last];
      assert last !in shorter;
      var opens := last.lead == lead && last.kind == Open;
      assert OpensIn(log, lead) == OpensIn(shorter, lead) + if opens then 1 else 0;
      hide OpensIn, OpenEvents;
      OpenEventsSnoc(shorter, last, lead);
    }
  }

  lemma ClickedTransfers(log: seq<EmailEvent>, other: seq<EmailEvent>, lead: nat, m: string)
    requires forall e :: e in log ==> e in other
    ensures m in ClickedIn(log, lead) ==> m in ClickedIn(other, lead)
  {
    ClickedIsExact(log, lead);
    ClickedIsExact(other, lead);
    if m in ClickedIn(log, lead) {
      assert ClickedOn(log, lead, m);
      var i :| 0 <= i < |log| && log[i].lead == lead && log[i].kind == Click && log[i].material == Some(m);
      assert log[i] in other;
      assert ClickedOn(other, lead, m);
    }
    hide ClickedIn;
  }

  /** Logs with the same events give the same rollup, but for the order of the labels. */
  lemma SameLogSameRollup(a: Engagement, b: Engagement, id: nat)
    requires Agrees(a) && Agrees(b) && id in a.leads && id in b.leads
    requires forall e :: e in a.log <==> e in b.log
    ensures var x, y := a.leads[id].signals, b.leads[id].signals;
            x.opens == y.opens && x.openedAt == y.openedAt && forall m :: m in x.clicked <==> m in y.clicked
  {
    OpensCountEvents(a.log, id);
    OpensCountEvents(b.log, id);
    assert OpenEvents(a.log, id) == OpenEvents(b.log, id);
    forall t ensures OpenedAt(a.log, id, t) <==> OpenedAt(b.log, id, t) {
      OpenedAtByMember(a.log, id, t);
      OpenedAtByMember(b.log, id, t);
    }
    var x, y := ClickedIn(a.log, id), ClickedIn(b.log, id);
    forall m ensures m in x <==> m in y {
      ClickedTransfers(a.log, b.log, id, m);
      ClickedTransfers(b.log, a.log, id, m);
    }
    hide OpenedAt, ClickedIn;
  }

  lemma OpenedAtByMember(log: seq<EmailEvent>, id: nat, t: Instant)
    ensures OpenedAt(log, id, t) <==> exists e :: e in log && e.lead == id && e.kind == Open && e.occurredAt == t
  {
  }

  /** Delivery order does not matter: the same stamped events, however repeated, reordered
      or cut into batches, leave the same stored events, open count, latest open and set
      of clicked materials on every lead. */
  lemma DeliveryOrderIndependence(s: Engagement, campaigns: seq<Assets>, xs: seq<Delivery>, ys: seq<Delivery>, id: nat)
    requires Agrees(s) && SameEvents(xs, ys) && Stamped(xs) && Stamped(ys) && id in s.leads
    ensures var a, b := IngestAll(s, campaigns, xs), IngestAll(s, campaigns, ys);
            && (forall e :: e in a.log <==> e in b.log)
            && id in a.leads && id in b.leads
            && a.leads[id].signals.opens == b.leads[id].signals.opens
            && a.leads[id].signals.openedAt == b.leads[id].signals.openedAt
            && (forall m :: m in a.leads[id].signals.clicked <==> m in b.leads[id].signals.clicked)
  {
    hide Within, Stamped, IngestAll, Agrees, Fresh;
    var a, b := IngestAll(s, campaigns, xs), IngestAll(s, campaigns, ys);
    IngestAllAgrees(s, campaigns, xs);
    IngestAllAgrees(s, campaigns, ys);
    LogIsOldAndFresh(s, campaigns, xs);
    LogIsOldAndFresh(s, campaigns, ys);
    forall e ensures Fresh(s, campaigns, xs, e) <==> Fresh(s, campaigns, ys, e) {
      if Fresh(s, campaigns, xs, e) {
        FreshWithin(s, campaigns, xs, ys, e);
      }
      if Fresh(s, campaigns, ys, e) {
        FreshWithin(s, campaigns, ys, xs, e);
      }
    }
    assert forall e :: e in a.log <==> e in b.log;
    SameLogSameRollup(a, b, id);
  }

  lemma FreshWithin(s: Engagement, campaigns: seq<Assets>, xs: seq<Delivery>, ys: seq<Delivery>, e: EmailEvent)
    requires Within(xs, ys) && Stamped(xs) && Fresh(s, campaigns, xs, e)
    ensures Fresh(s, campaigns, ys, e)
  {
    var i :| 0 <= i < |xs| && Stores(s, xs[i].evt) && e == Entry(campaigns, xs[i]);
    assert xs[i].evt.timestamp != 0;
    var j :| 0 <= j < |ys| && ys[j].evt == xs[i].evt;
    hide Within, Stamped, Material;
    assert Entry(campaigns, ys[j]) == e;
  }

  lemma {:induction false} BatchesConcatenate(
    s: Engagement, campaigns: seq<Assets>, xs: seq<Delivery>, ys: seq<Delivery>)
    ensures IngestAll(IngestAll(s, campaigns, xs), campaigns, ys) == IngestAll(s, campaigns, xs + ys)
  {
    if ys == [] {
      assert xs + ys == xs;
    } else {
      BatchesConcatenate(s, campaigns, xs, ys[..|ys| - 1]);
      assert (xs + ys)[..|xs + ys| - 1] == xs + ys[..|ys| - 1];
    }
  }
}
