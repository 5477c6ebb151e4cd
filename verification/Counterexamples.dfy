/** One concrete run for each promise the code does not keep.  The lemmas that say exactly
    when it does stand with the services; here each condition is met by a reachable state. */
module LeadCounterexamples {
  import opened Common
  import opened Leads
  import opened LeadLifecycle
  import Capture = LeadService
  import Packs = PackDelivery
  import Crm = LeadCrmSync

  const ON := Packs.Mail(true, _ => true, _ => true)
  const UNCONFIGURED := Packs.Mail(false, _ => true, _ => true)
  const FAILING := Packs.Mail(true, _ => false, _ => false)
  const TAKES_ALL := Crm.Crm(_ => Crm.Accepts, _ => Crm.Accepts, _ => true)

  function Expo(): Campaign {
    Campaign(Crm.NOG_SLUG, true, ["Brochure"], map["Brochure" := Link("https://example.com/b.pdf")], true,
             [], map[], "Digital Pack", "Private Inspection", "Newsletter Opt-In")
  }

  function Form(): Capture.Payload {
    Capture.Payload("ada@example.com", "", "", ["Brochure"], [], false, false, false, None)
  }

  /** One campaign and one submission to it: one lead, answered as the transport allows. */
  lemma OneSubmission(mail: Packs.Mail)
    requires mail == ON || mail == UNCONFIGURED
    ensures var s := After([SaveCampaign(1, Expo()), Submit(Some(1), Form(), mail, 0)]);
            && |s.leads| == 1 && s.campaigns == map[1 := Expo()] && s.leads[0].campaign == 1
            && s.leads[0].pack == (if mail == ON then PackSent else PackSkipped)
            && s.leads[0].crm == CrmPending && s.leads[0].requested == ["Brochure"] && !s.leads[0].inspection
            && s.leads[0].second == ""
  {
    var save, submit := SaveCampaign(1, Expo()), Submit(Some(1), Form(), mail, 0);
    AfterSnoc([], save);
    AfterSnoc([save], submit);
    assert [] + [save] == [save] && [save] + [submit] == [save, submit];
    var s := After([save]);
    assert s == State(map[1 := Expo()], [], []);
    BrochureIsDeliverable();
    hide After, Expo, Packs.AssetUrls, Capture.DeriveTags, Packs.Deliverable;
    var captured := Capture.CaptureCreated(s, Some(1), Form(), 0).0;
    assert |captured.leads| == 1;
    assert captured.leads[0].pack == PackPending && captured.leads[0].requested == ["Brochure"];
    var places := DistinctIsExact(["Brochure"], m => Packs.Deliverable(Expo(), m));
    assert "Brochure" in Packs.DeliverableMaterials(captured.leads[0], Expo());
    hide Packs.DeliverableMaterials;
  }

  lemma BrochureIsDeliverable()
    ensures Packs.Deliverable(Expo(), "Brochure")
    ensures Expo().active && Expo().crmSyncEnabled && Expo().slug == Crm.NOG_SLUG
  {
    assert Packs.NonBlank(["https://example.com/b.pdf"]) == ["https://example.com/b.pdf"];
  }

  /** A skipped pack, a transport configured since, and a sweep that passes it over. */
  lemma SkippedPackIsPassedOver()
    ensures var ops := [SaveCampaign(1, Expo()), Submit(Some(1), Form(), UNCONFIGURED, 0), DeliverySweep(200, ON, 1)];
            |After(ops).leads| == 1 && After(ops).leads[0].pack == PackSkipped
            && Packs.Deliverable(Expo(), "Brochure") && After(ops).leads[0].requested == ["Brochure"]
  {
    OneSubmission(UNCONFIGURED);
    BrochureIsDeliverable();
    var before := [SaveCampaign(1, Expo()), Submit(Some(1), Form(), UNCONFIGURED, 0)];
    var sweep := DeliverySweep(200, ON, 1);
    AfterSnoc(before, sweep);
    assert before + [sweep] == [SaveCampaign(1, Expo()), Submit(Some(1), Form(), UNCONFIGURED, 0), sweep];
    hide After, Expo, Form, Packs.Deliverable;
    NextLeavesSkipped(After(before), sweep, 0);
    PackIdsLength(After(before), sweep);
  }

  lemma PackIdsLength(s: State, op: Op)
    requires op.DeliverySweep?
    ensures |Next(s, op).leads| == |s.leads|
  {
  }

  /** The same lead, sent and then synced. */
  lemma SyncedOnce()
    ensures var t := After([SaveCampaign(1, Expo()), Submit(Some(1), Form(), ON, 0), CrmSweep(true, 200, TAKES_ALL)]);
            && |t.leads| == 1 && t.campaigns == map[1 := Expo()] && t.leads[0].campaign == 1
            && t.leads[0].crm == CrmSynced && t.leads[0].pack == PackSent && !t.leads[0].inspection
            && FreshOk(t, 0, false)
  {
    var save, submit, sync := SaveCampaign(1, Expo()), Submit(Some(1), Form(), ON, 0), CrmSweep(true, 200, TAKES_ALL);
    OneSubmission(ON);
    AfterSnoc([save, submit], sync);
    assert [save, submit] + [sync] == [save, submit, sync];
    hide After, Expo, Form, FreshOk, Overtaken, Next;
    SyncsOne(After([save, submit]));
    NotOvertaken([save, submit, sync], 0);
    RunIsFresh([save, submit, sync], 0);
  }

  /** A sent and synced lead whose pack staff resend while the transport is down. */
  lemma ResendLeavesStale()
    ensures var ops := [SaveCampaign(1, Expo()), Submit(Some(1), Form(), ON, 0), CrmSweep(true, 200, TAKES_ALL),
                        StaffResend(0, FAILING, 1)];
            |After(ops).leads| == 1 && Stale(After(ops), 0)
  {
    SyncedOnce();
    BrochureIsDeliverable();
    var resend := StaffResend(0, FAILING, 1);
    var ops := [SaveCampaign(1, Expo()), Submit(Some(1), Form(), ON, 0), CrmSweep(true, 200, TAKES_ALL)];
    AfterSnoc(ops, resend);
    assert ops + [resend] == [ops[0], ops[1], ops[2], resend];
    hide After, Expo, Form, FreshOk, Stale, Next, Packs.Deliverable;
    ResendStaysFreshIff(After(ops), 0, FAILING, 1);
    StillOne(After(ops), resend);
  }

  lemma SyncsOne(s: State)
    requires |s.leads| == 1 && s.campaigns == map[1 := Expo()]
    requires s.leads[0].crm == CrmPending && s.leads[0].campaign == 1
    ensures var t := Next(s, CrmSweep(true, 200, TAKES_ALL));
            t.leads == [s.leads[0].(crm := CrmSynced)] && t.campaigns == s.campaigns
  {
    BrochureIsDeliverable();
    hide Expo;
    assert ListWhere(s.leads, Crm.AwaitsSync, 1, 199) == [];
    assert ListWhere(s.leads, Crm.AwaitsSync, 0, 200) == [0];
    assert [0][..0] == [];
    assert Crm.SyncIds(s, [], TAKES_ALL) == s;
    assert Crm.SyncIds(s, [0], TAKES_ALL) == Crm.Sync(s, 0, Expo(), true, false, TAKES_ALL);
    assert Crm.Taken(0, s.leads[0], Expo(), TAKES_ALL).Some?;
    hide Crm.Taken, Crm.FirstPush, Crm.SecondPush;
    assert s.leads[0 := s.leads[0].(crm := CrmSynced)] == [s.leads[0].(crm := CrmSynced)];
  }

  lemma NotOvertaken(ops: seq<Op>, id: nat)
    requires NoResend(ops)
    ensures !Overtaken(ops, id)
  {
    OvertakenIff(ops, id);
    hide Overtaken, After, PushedSince;
  }

  lemma StillOne(s: State, op: Op)
    requires op.StaffResend? && op.id < |s.leads| && s.leads[op.id].campaign in s.campaigns
    ensures |Next(s, op).leads| == |s.leads| && Next(s, op) == ResendPack(s, op.id, op.mail, op.now)
  {
  }
}

module TradeCounterexamples {
  import opened Common
  import opened TradeRepo
  import opened TradeLifecycle
  import C = TradeCapture
  import S = TradeCrmSync
  import E = TradeEligibility

  const BOOT_CAMP := Program(1, true, [], true, true, [])

  function Named(email: string): Person {
    Person("First", "Last", email, "", "")
  }

  function Form(email: string, second: Option<string>): C.Payload {
    C.Payload(Named(email), "", if second.Some? then Some(Named(second.value)) else None)
  }

  lemma AfterSnoc(ops: seq<Op>, op: Op)
    ensures After(ops + [op]) == Next(After(ops), op)
  {
    assert (ops + [op])[..|ops|] == ops;
  }

  function Register(email: string, second: Option<string>, registration: string): Op {
    Capture(Some(BOOT_CAMP), Form(email, second), registration)
  }

  function TwoRows(): Table {
    [C.NewRow(BOOT_CAMP, "r1", 1, Named("ada@example.com"), Form("ada@example.com", Some("bob@example.com")), []),
     C.NewRow(BOOT_CAMP, "r1", 2, Named("bob@example.com"), Form("ada@example.com", Some("bob@example.com")),
              ["Second Participant"])]
  }

  /** The first registration leaves its two rows. */
  lemma TwoParticipants()
    ensures After([Register("ada@example.com", Some("bob@example.com"), "r1")]).table == TwoRows()
    ensures C.Shape(TwoRows())
  {
    var first := Register("ada@example.com", Some("bob@example.com"), "r1");
    AfterSnoc([], first);
    assert [] + [first] == [first];
    assert "bob@example.com" != "ada@example.com" by {
      assert "bob@example.com"[0] != "ada@example.com"[0];
    }
    var form := Form("ada@example.com", Some("bob@example.com"));
    assert C.SecondParticipant(form) == Some(Named("bob@example.com"));
    assert After([first]).table == C.Capture([], Some(BOOT_CAMP), form, "r1").table;
    hide After;
    assert C.StorePrimary([], BOOT_CAMP, form, "r1").0 == TwoRows()[..1];
    assert [] + ["Second Participant"] == ["Second Participant"];
    assert !Taken(TwoRows()[..1], 1, "bob@example.com", -1);
    assert TwoRows()[..1] + [TwoRows()[1]] == TwoRows();
    assert C.StoreSecond(TwoRows()[..1], BOOT_CAMP, form, 0).0 == TwoRows();
    C.CaptureKeepsShape([], Some(BOOT_CAMP), form, "r1");
  }

  /** Bob, a second participant, registers with a second participant of his own, who gave
      no email: his own row becomes that participant's, his email is gone, and sending the
      form again starts a second registration. */
  lemma SecondParticipantRegisters()
    ensures var bob := Form("bob@example.com", Some(""));
            var before := After([Register("ada@example.com", Some("bob@example.com"), "r1")]).table;
            var once := C.Capture(before, Some(BOOT_CAMP), bob, "r2");
            var twice := C.Capture(once.table, Some(BOOT_CAMP), bob, "r3");
            && once.participants.Ok? && !once.created && !Taken(once.table, 1, "bob@example.com", -1)
            && twice.created
  {
    TwoParticipants();
    var bob := Form("bob@example.com", Some(""));
    assert "bob@example.com" != "";
    assert C.SecondParticipant(bob) == Some(Named(""));
    C.EmailIsFound(TwoRows(), 1, "bob@example.com", 1);
    assert !C.SecondEmailInUse(TwoRows(), BOOT_CAMP, bob);
    assert C.LosesEmail(TwoRows(), BOOT_CAMP, bob);
    assert C.FreshRegistration(TwoRows(), "r2");
    hide C.Shape, After, C.LosesEmail;
    C.SubmittedEmailKeptIff(TwoRows(), BOOT_CAMP, bob, "r2");
    C.EmailInUseIff(TwoRows(), BOOT_CAMP, bob, "r2");
    C.ResubmitIsIdempotentIff(TwoRows(), BOOT_CAMP, bob, "r2", "r3");
  }

  /** Cy names Ada, who registered before: the call fails, with Cy's own row stored. */
  lemma SecondEmailIsTaken()
    ensures var cy := Form("cy@example.com", Some("ada@example.com"));
            var before := After([Register("ada@example.com", Some("bob@example.com"), "r1")]).table;
            var after := C.Capture(before, Some(BOOT_CAMP), cy, "r2");
            && after.participants == C.Err(C.EmailInUse)
            && |after.table| == |before| + 1 && Taken(after.table, 1, "cy@example.com", -1)
  {
    TwoParticipants();
    var cy := Form("cy@example.com", Some("ada@example.com"));
    assert "cy@example.com"[0] != "ada@example.com"[0] && "cy@example.com"[0] != "bob@example.com"[0];
    assert C.SecondParticipant(cy) == Some(Named("ada@example.com"));
    assert TwoRows()[0].Email() == "ada@example.com" && TwoRows()[0].isPrimary;
    assert C.SecondEmailInUse(TwoRows(), BOOT_CAMP, cy);
    assert FindEmail(TwoRows(), 1, "cy@example.com") < 0;
    hide C.Shape, After;
    C.EmailInUseIff(TwoRows(), BOOT_CAMP, cy, "r2");
    var stored := C.StorePrimary(TwoRows(), BOOT_CAMP, cy, "r2").0;
    assert stored[2].Email() == "cy@example.com";
  }

  /** Ada's form sent twice at once: the first call to commit takes the email, and the
      other, which had missed it in its lookup, finds it taken at its insert. */
  lemma SameFormTwiceAtOnce()
    ensures var ada := Form("ada@example.com", None);
            && FindEmail([], 1, "ada@example.com") < 0
            && Taken(C.Capture([], Some(BOOT_CAMP), ada, "r1").table, 1, "ada@example.com", -1)
  {
    var ada := Form("ada@example.com", None);
    assert C.BringsEmail(ada, "ada@example.com");
    C.RivalTakesEmailIff([], BOOT_CAMP, ada, "r1", "ada@example.com");
  }

  function SweepAll(): Op {
    Sweep(map[1 := BOOT_CAMP], true, 200, _ => true)
  }

  lemma SweptUnapproved()
    ensures var t := After([Register("ada@example.com", None, "r1"), SweepAll()]);
            && t.pushes == [] && |t.table| == 1
            && t.table[0].crm == CrmSkipped && t.table[0].Email() == "ada@example.com"
  {
    var register := Register("ada@example.com", None, "r1");
    AfterSnoc([], register);
    AfterSnoc([register], SweepAll());
    assert [] + [register] == [register] && [register] + [SweepAll()] == [register, SweepAll()];
    var t := After([register]);
    assert t == Next(After([]), register);
    assert t.pushes == [] && |t.table| == 1 && t.table[0].crm == CrmPending && t.table[0].review == ReviewPending
        && t.table[0].program == 1 && t.table[0].Email() == "ada@example.com";
    hide After, Next;
    SweepsOne(t, SweepAll());
  }

  /** A participant swept before the approval its program asks for: approved since, and
      still not pushed by the next sweep. */
  lemma ApprovedTooLate()
    ensures var register := Register("ada@example.com", None, "r1");
            var t := After([register, SweepAll(), Review(0, ReviewApproved), SweepAll()]);
            && |t.table| == 1 && t.table[0].review == ReviewApproved && t.table[0].Email() != ""
            && t.table[0].crm == CrmSkipped && t.pushes == []
  {
    var register, review := Register("ada@example.com", None, "r1"), Review(0, ReviewApproved);
    SweptUnapproved();
    AfterSnoc([register, SweepAll()], review);
    AfterSnoc([register, SweepAll(), review], SweepAll());
    assert [register, SweepAll()] + [review] == [register, SweepAll(), review];
    assert [register, SweepAll(), review] + [SweepAll()] == [register, SweepAll(), review, SweepAll()];
    var t := After([register, SweepAll(), review]);
    assert |t.table| == 1 && t.table[0].crm == CrmSkipped && t.table[0].review == ReviewApproved && t.pushes == [];
    hide After, Next;
    SweepsNone(t, SweepAll());
  }

  lemma SweepsOne(t: Trade, op: Op)
    requires op.Sweep? && op.enabled && op.limit == 200 && op.programs == map[1 := BOOT_CAMP] && |t.table| == 1
    requires t.table[0].program == 1 && t.table[0].crm == CrmPending && t.table[0].review == ReviewPending
    ensures Next(t, op).table == [t.table[0].(crm := CrmSkipped)] && Next(t, op).pushes == t.pushes
  {
    assert ListWhere(t.table, S.Awaiting, 1, 199) == [];
    assert ListWhere(t.table, S.Awaiting, 0, 200) == [0];
    var s := S.State(t.table, t.pushes);
    assert [0][..0] == [] && S.SyncIds(s, op.programs, [], op.accepts) == s;
    assert S.SyncIds(s, op.programs, [0], op.accepts) == S.SyncId(s, op.programs, 0, op.accepts);
    assert t.table[0 := t.table[0].(crm := CrmSkipped)] == [t.table[0].(crm := CrmSkipped)];
    assert t.pushes + [] == t.pushes;
  }

  lemma SweepsNone(t: Trade, op: Op)
    requires op.Sweep? && op.enabled && |t.table| == 1 && t.table[0].crm == CrmSkipped
    ensures Next(t, op).table == t.table && Next(t, op).pushes == t.pushes
  {
    assert ListWhere(t.table, S.Awaiting, 1, op.limit) == [];
    assert ListWhere(t.table, S.Awaiting, 0, op.limit) == [];
  }

  // Two programs with different rules for one document.
  const LENIENT := Program(2, true, [], true, false, [Document("passport", true)])
  const STRICT := Program(3, true, [], true, false, [Document("passport", true), Document("letter", true)])

  function SubmitTo(program: Program, objectKey: string): Op {
    Submit(program, "r1", "passport", E.Upload(objectKey, true, true, 0))
  }

  lemma RegisteredRow()
    ensures var t := After([Register("ada@example.com", None, "r1")]);
            && |t.table| == 1 && t.table[0].registration == "r1" && t.table[0].eligibility == NotRequested
            && t.store.docs == map[] && t.table[0].submittedAt == None
  {
    var register := Register("ada@example.com", None, "r1");
    AfterSnoc([], register);
    assert [] + [register] == [register];
  }

  lemma UploadSets(t: Trade, program: Program, objectKey: string)
    requires |t.table| == 1 && t.table[0].registration == "r1"
    requires E.PresentKeys(t.store.docs, "r1") <= {"passport"}
    requires program == LENIENT || program == STRICT
    ensures var after := Next(t, SubmitTo(program, objectKey));
            && |after.table| == 1 && after.table[0].registration == "r1"
            && E.PresentKeys(after.store.docs, "r1") == {"passport"}
            && after.table[0].eligibility == if program == LENIENT then Submitted else Pending
  {
    var op := SubmitTo(program, objectKey);
    assert program.documents[0].key == "passport" && program.documents[0] in program.documents;
    assert "passport" in E.DocumentKeys(program);
    assert E.Registered(t.table, "r1");
    E.PresentAfter(t.store, "r1", "passport", op.upload);
    E.SubmittedIff({"passport"}, program);
    if program == STRICT {
      assert "letter"[0] != "passport"[0];
      assert program.documents[1].key == "letter" && program.documents[1] in program.documents;
    }
    hide E.Replace, E.PresentKeys;
  }

  /** A submitted registration, and an upload through a program that asks for more. */
  lemma OtherProgramTakesBack()
    ensures var ops := [Register("ada@example.com", None, "r1"), SubmitTo(LENIENT, "a"), SubmitTo(STRICT, "b")];
            && |After(ops[..2]).table| == |After(ops).table| == 1
            && After(ops[..2]).table[0].eligibility == Submitted && After(ops).table[0].eligibility == Pending
  {
    var register := Register("ada@example.com", None, "r1");
    var ops := [register, SubmitTo(LENIENT, "a"), SubmitTo(STRICT, "b")];
    RegisteredRow();
    assert E.PresentKeys(map[], "r1") == {};
    AfterSnoc([register], SubmitTo(LENIENT, "a"));
    AfterSnoc([register, SubmitTo(LENIENT, "a")], SubmitTo(STRICT, "b"));
    assert [register] + [SubmitTo(LENIENT, "a")] == [register, SubmitTo(LENIENT, "a")] == ops[..2];
    assert [register, SubmitTo(LENIENT, "a")] + [SubmitTo(STRICT, "b")] == ops;
    hide After, Next, SubmitTo, E.PresentKeys;
    UploadSets(After([register]), LENIENT, "a");
    UploadSets(After(ops[..2]), STRICT, "b");
  }
}

module DealCounterexamples {
  import opened Common
  import opened DealsRepo
  import opened WebhookIngest
  import D = DealSync

  const RESOLVER: Resolver := map[("Sales", "New") := (10, 20)]

  function Hook(owner: int): Webhook {
    Webhook(7, "Sales", "New", Some(owner), Some(0), map[])
  }

  /** Owner 1 is known and owner 2 is not. */
  function Deliveries(): seq<(Webhook, Surroundings)> {
    [(Hook(1), Known()), (Hook(2), Known())]
  }

  function Known(): Surroundings {
    Surroundings(RESOLVER, {1}, 0)
  }

  function First(): Mirror {
    Ingest(Mirror(map[], []), Hook(1), Known())
  }

  lemma HookResolves()
    ensures NewPlace(Mirror(map[], []), Hook(1), Known().resolver) == (Some(10), Some(20))
    ensures NewOwner(Mirror(map[], []), Hook(1), Known().owners) == Some(1)
  {
    assert ("Sales", "New") in RESOLVER && RESOLVER[("Sales", "New")] == (10, 20);
  }

  lemma FirstStores()
    ensures Stored(First().deals, 7) == Some(Refs(Some(10), Some(20), Some(1)))
    ensures Value(First().deals, 7, Owner) == Some(1) && Value(First().deals, 7, Stage) == Some(20)
  {
    HookResolves();
    hide NewPlace, NewOwner, Ingest;
    IngestStores(Mirror(map[], []), Hook(1), Known(), 7);
  }

  lemma LossOrNot()
    ensures !LosesOwner(Mirror(map[], []), Hook(1), {1}) && LosesOwner(First(), Hook(2), {1})
  {
    FirstStores();
    hide First, Value;
    assert Value(map[], 7, Owner) == None by {
      NoValue();
    }
  }

  lemma NoValue()
    ensures Value(map[], 7, Owner) == None
  {
  }

  lemma FirstDelivery()
    ensures After(Deliveries()[..1]) == First()
    ensures !LosesOwnerAt(Deliveries(), 0) && LosesOwnerAt(Deliveries(), 1)
  {
    assert Deliveries()[..0] == [];
    assert After([]) == Mirror(map[], []);
    LossOrNot();
    hide After, Ingest, LosesOwner, Hook;
    AfterStep(Deliveries(), 0);
  }

  /** The second webhook tells of an unknown owner: the log says the owner is gone, the
      snapshot keeps it, and delivering the webhook again adds another event. */
  lemma UnknownOwner()
    ensures var m := After(Deliveries()[..1]);
            && ReplaysAt(Deliveries(), 1) && !ReplaysAt(Deliveries(), 2)
            && Ingest(Ingest(m, Hook(2), Known()), Hook(2), Known()).events != Ingest(m, Hook(2), Known()).events
  {
    FirstDelivery();
    LossOrNot();
    hide After, Ingest, ReplaysAt, LosesOwnerAt, Broken, LosesOwner, Hook, First;
    RunReplaysIff(Deliveries(), 1);
    RunReplaysIff(Deliveries(), 2);
    assert Known().(now := 0) == Known();
    RedeliveryIff(First(), Hook(2), Known(), 0);
  }

  /** A sync that finds the deal in another stage: the log no longer replays. */
  lemma SyncMovesDeal()
    ensures var m := After(Deliveries()[..1]);
            var refs := D.References({10}, {20, 21}, {1});
            var records := [D.Record(7, Some(10), Some(21), None, None, map[])];
            Replays(m) && !Replays(m.(deals := D.ApplyAll(m.deals, D.UpsertsOf(records, refs))))
  {
    FirstDelivery();
    var refs, r := D.References({10}, {20, 21}, {1}), D.Record(7, Some(10), Some(21), None, None, map[]);
    SyncFindsElsewhere(r, refs);
    FirstReplays();
    hide After, LosesOwnerAt, First, Replays, D.ApplyAll, D.UpsertsOf, D.FindsAsStored, D.Counts;
    assert r in [r];
    D.SyncKeepsReplayIff(First(), [r], refs);
  }

  lemma FirstReplays()
    ensures Replays(First())
  {
    FirstDelivery();
    hide After, LosesOwnerAt, Broken, First, Replays, Chained;
    RunReplaysIff(Deliveries(), 1);
  }

  lemma SyncFindsElsewhere(r: D.Record, refs: D.References)
    requires refs == D.References({10}, {20, 21}, {1}) && r == D.Record(7, Some(10), Some(21), None, None, map[])
    ensures D.Counts(r, refs) && !D.FindsAsStored(First().deals, [r], refs, 7)
  {
    FirstStores();
    SyncFetches(r, refs);
    hide First, Value, D.LastFetched, D.IsActive;
    MovedIsNotFound(First().deals, [r], refs, 7);
  }

  lemma SyncFetches(r: D.Record, refs: D.References)
    requires refs == D.References({10}, {20, 21}, {1}) && r == D.Record(7, Some(10), Some(21), None, None, map[])
    ensures D.IsActive(r, refs) && D.LastFetched([r], refs, 7, Stage) == Some(21)
  {
    assert D.StageOf(r) == Some(21) && D.Keep(refs.stages, Some(21)) == Some(21);
  }

  lemma MovedIsNotFound(deals: Deals, records: seq<D.Record>, refs: D.References, id: int)
    requires D.LastFetched(records, refs, id, Stage).Some?
    requires D.LastFetched(records, refs, id, Stage) != Value(deals, id, Stage)
    ensures !D.FindsAsStored(deals, records, refs, id)
  {
    hide D.LastFetched, Value;
    assert Stage in [Column.Pipeline, Stage, Owner];
  }
}

module BookingCounterexamples {
  import opened Common
  import opened Bookings

  /** The codes drawn: the same one first for every booking, then another. */
  function Codes(): nat -> string {
    a => if a == 0 then "000000" else "111111"
  }

  function Book(start: Instant): Op {
    Create(1, "Ada", start, start + 60, 0, Codes(), _ => true)
  }

  /** Two bookings of one room, one after the other in time.  The second draws the first
      one's code: its insert fails, the retry is stored, and so the call fails. */
  lemma CodeCollides()
    ensures var s := After(map[1 := true], [Book(0)]);
            && |s.table| == 1 && !Busy(s.table, 1, 60, 120)
            && !Stores(s.table, Codes(), _ => true, 0) && Stores(s.table, Codes(), _ => true, 1)
            && |Next(s, Book(60)).table| == 2
  {
    var s0, s := BookingState(map[1 := true], []), After(map[1 := true], [Book(0)]);
    assert [Book(0)][..0] == [];
    assert After(map[1 := true], []) == s0;
    assert Stores(s0.table, Codes(), _ => true, 0);
    FirstStoringIs(s0.table, Book(0).draw, Book(0).dbUp, 0);
    assert s == Next(s0, Book(0));
    assert s.table == [Booking(1, "Ada", 0, 60, "000000", Confirmed)];
    assert "000000"[0] != "111111"[0];
    assert s.table[0].code == Codes()(0) && CodeTaken(s.table, Codes()(0));
    assert !Stores(s.table, Book(60).draw, Book(60).dbUp, 0);
    FirstStoringIs(s.table, Book(60).draw, Book(60).dbUp, 1);
  }
}

module EngagementCounterexamples {
  import opened Common
  import opened LeadScoring
  import opened EmailEventIngest

  function Opened(sgId: string, refused: bool): Delivery {
    Delivery(Evt(Open, sgId, Some(1), "ada@example.com", "", 5), 9, refused)
  }

  function OneLead(): Engagement {
    Engagement(map[1 := Lead("ada@example.com", Signals(0, None, [], [], [], "", false, false, false), 0)], [])
  }

  /** Two opens in one batch; the database refuses the first insert, and the second open,
      which it would take, is dropped as well. */
  lemma RefusalCutsTheBatch()
    ensures var ds := [Opened("a", true), Opened("b", false)];
            && Handled(OneLead(), [], ds) == 0 && Stores(OneLead(), ds[1].evt)
            && IngestAll(OneLead(), [], ds[..0]).log == []
  {
    var ds := [Opened("a", true), Opened("b", false)];
    assert Stores(OneLead(), ds[0].evt) && Stores(OneLead(), ds[1].evt);
    assert ds[..1] == [ds[0]] && ds[..0] == [] && ds[..1][..0] == [];
    assert IngestAll(OneLead(), [], []) == OneLead();
    assert Handled(OneLead(), [], []) == 0;
    assert Handled(OneLead(), [], ds[..1]) == 0;
  }
}
