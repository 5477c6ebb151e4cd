/** Runs of the Trade services together: captures, reviews, CRM sweeps and document
    uploads, one call after another. */
module TradeLifecycle {
  import opened Common
  import opened TradeRepo
  import C = TradeCapture
  import S = TradeCrmSync
  import E = TradeEligibility

  /** `via` remembers the program that the last upload for a registration named. */
  datatype Trade = Trade(table: Table, pushes: seq<S.Push>, store: E.Store, via: map<string, Program>)

  datatype Op =
    | Capture(program: Option<Program>, payload: C.Payload, registration: string)
    | Review(id: nat, status: ReviewStatus)
    | Sweep(programs: S.Programs, enabled: bool, limit: nat, accepts: nat -> bool)
    | Submit(target: Program, registration: string, key: string, upload: E.Upload)

  function Next(t: Trade, op: Op): Trade {
    match op
    case Capture(program, payload, registration) =>
      t.(table := C.Capture(t.table, program, payload, registration).table)
    case Review(id, status) =>
      if id < |t.table| then t.(table := t.table[id := t.table[id].(review := status)]) else t
    case Sweep(programs, enabled, limit, accepts) =>
      var s := S.Sweep(S.State(t.table, t.pushes), programs, enabled, limit, accepts);
      t.(table := s.table, pushes := s.pushes)
    case Submit(program, registration, key, upload) =>
      if E.Refusal(t.table, program, registration, key, upload).Some? then t
      else
        var store := E.Replace(t.store, registration, key, upload);
        var status := E.ComputeEligibilityStatus(E.PresentKeys(store.docs, registration), program);
        t.(table := E.Update(t.table, registration, status, upload.now), store := store,
            via := t.via[registration := program])
  }

  function After(ops: seq<Op>): Trade {
    if ops == [] then Trade([], [], E.Store(map[], {}, {}), map[])
    else Next(After(ops[..|ops| - 1]), ops[|ops| - 1])
  }

  /** A capture comes with a fresh registration id and a valid email, an upload with a
      fresh object key.  An upload may name any program for any registration. */
  predicate Fair(t: Trade, op: Op) {
    match op
    case Capture(_, payload, registration) =>
      payload.person.email != "" && C.FreshRegistration(t.table, registration)
    case Submit(_, _, _, upload) =>
      upload.objectKey !in t.store.objects
    case _ => true
  }

  ghost predicate FairRun(ops: seq<Op>) {
    forall k :: 0 <= k < |ops| ==> Fair(After(ops[..k]), ops[k])
  }

  lemma FairPrefix(ops: seq<Op>, n: nat)
    requires FairRun(ops) && n <= |ops|
    ensures FairRun(ops[..n])
  {
    forall k | 0 <= k < n ensures Fair(After(ops[..n][..k]), ops[..n][k]) {
      assert ops[..n][..k] == ops[..k] && ops[..n][k] == ops[k];
    }
  }

  /** One step of a run. */
  lemma RunStep(ops: seq<Op>, k: nat)
    requires FairRun(ops) && k < |ops|
    ensures FairRun(ops[..k])
    ensures Fair(After(ops[..k]), ops[k])
    ensures After(ops[..k + 1]) == Next(After(ops[..k]), ops[k])
  {
    FairPrefix(ops, k);
    assert ops[..k + 1][..k] == ops[..k];
    hide Next, Fair;
  }

  /** What the stored documents give by the rules of the program last named. */
  function StatusFor(t: Trade, registration: string): Eligibility {
    if registration in t.via
    then E.ComputeEligibilityStatus(E.PresentKeys(t.store.docs, registration), t.via[registration])
    else NotRequested
  }

  /** A participant's status is what the documents give, or it joined a registration that
      had documents already and nothing was uploaded since; who was ever `submitted` has a
      submission time. */
  predicate StatusSound(t: Trade, row: Participant) {
    && (row.eligibility == StatusFor(t, row.registration)
        || (!row.isPrimary && row.eligibility == NotRequested))
    && (row.eligibility == Submitted ==> row.submittedAt.Some?)
  }

  ghost predicate UploadsRegistered(table: Table, via: map<string, Program>) {
    forall r :: r in via ==> E.Registered(table, r)
  }

  ghost predicate Sound(t: Trade) {
    && C.Shape(t.table)
    && S.PushedOnce(S.State(t.table, t.pushes))
    && E.Accounted(t.store)
    && UploadsRegistered(t.table, t.via)
    && forall i :: 0 <= i < |t.table| ==> StatusSound(t, t.table[i])
  }

  lemma StillRegistered(a: Table, b: Table, via: map<string, Program>)
    requires UploadsRegistered(a, via) && |a| <= |b|
    requires forall i :: 0 <= i < |a| ==> b[i].registration == a[i].registration
    ensures UploadsRegistered(b, via)
  {
    forall r | r in via ensures E.Registered(b, r) {
      assert E.Registered(a, r);
      var i :| 0 <= i < |a| && a[i].registration == r;
      assert b[i].registration == r;
    }
  }

  /** A fresh registration has no uploads, so its participants start where they should. */
  lemma FreshHasNoStatus(t: Trade, registration: string)
    requires UploadsRegistered(t.table, t.via) && C.FreshRegistration(t.table, registration)
    ensures StatusFor(t, registration) == NotRequested
  {
    assert !E.Registered(t.table, registration);
  }

  /** An upload takes the status of this row back: it was submitted, and the program named
      now requires a document that is neither there nor the one uploaded. */
  predicate TakesBack(t: Trade, op: Op, row: Participant) {
    && op.Submit? && op.registration == row.registration && row.eligibility == Submitted
    && E.Refusal(t.table, op.target, op.registration, op.key, op.upload).None?
    && exists d :: d in op.target.documents && d.required
                   && d.key !in E.PresentKeys(t.store.docs, op.registration) + {op.key}
  }

  /** Each row's status climbs or stays in this call, unless it is taken back. */
  ghost predicate ClimbsExactly(t: Trade, op: Op) {
    var after := Next(t, op).table;
    && |t.table| <= |after|
    && forall i :: 0 <= i < |t.table| ==>
         (E.Rank(t.table[i].eligibility) <= E.Rank(after[i].eligibility) <==> !TakesBack(t, op, t.table[i]))
  }

  lemma UntouchedClimbs(t: Trade, op: Op)
    requires !op.Submit? && |t.table| <= |Next(t, op).table|
    requires forall i :: 0 <= i < |t.table| ==> Next(t, op).table[i].eligibility == t.table[i].eligibility
    ensures ClimbsExactly(t, op)
  {
    hide Next;
  }

  /** What may happen to a row: its submission time stays, and `synced` and `skipped` do. */
  predicate Progress(a: Participant, b: Participant) {
    && a.registration == b.registration && a.isPrimary == b.isPrimary && a.index == b.index && a.program == b.program
    && (a.submittedAt.Some? ==> b.submittedAt == a.submittedAt)
    && (a.crm in {CrmSynced, CrmSkipped} ==> b.crm == a.crm)
  }

  ghost predicate AllProgress(a: Table, b: Table) {
    |a| <= |b| && forall i :: 0 <= i < |a| ==> Progress(a[i], b[i])
  }

  lemma ProgressChains(a: Table, b: Table, c: Table)
    requires AllProgress(a, b) && AllProgress(b, c)
    ensures AllProgress(a, c)
  {
    forall i | 0 <= i < |a| ensures Progress(a[i], c[i]) {
      assert Progress(a[i], b[i]) && Progress(b[i], c[i]);
    }
  }

  predicate SameStatuses(a: Participant, b: Participant) {
    && a.registration == b.registration && a.isPrimary == b.isPrimary && a.index == b.index && a.program == b.program
    && a.crm == b.crm && a.eligibility == b.eligibility && a.submittedAt == b.submittedAt
  }

  /** Old rows keep their statuses, new ones start at the beginning. */
  ghost predicate OnlyAdds(a: Table, b: Table) {
    && |a| <= |b|
    && (forall i :: 0 <= i < |a| ==> SameStatuses(a[i], b[i]))
    && (forall i :: |a| <= i < |b| ==>
          b[i].crm == CrmPending && b[i].eligibility == NotRequested && b[i].submittedAt == None)
  }

  /** A new primary row has the call's own registration id. */
  ghost predicate NewPrimaries(a: Table, b: Table, registration: string) {
    forall i :: |a| <= i < |b| && b[i].isPrimary ==> b[i].registration == registration
  }

  lemma CaptureOnlyAdds(table: Table, program: Option<Program>, p: C.Payload, registration: string)
    ensures OnlyAdds(table, C.Capture(table, program, p, registration).table)
    ensures NewPrimaries(table, C.Capture(table, program, p, registration).table, registration)
  {
    if program.Some? && program.value.active {
      PrimaryOnlyAdds(table, program.value, p, registration);
      if C.SecondParticipant(p).Some? {
        var (stored, id, _) := C.StorePrimary(table, program.value, p, registration);
        SecondOnlyAdds(stored, program.value, p, id);
      }
      hide C.StorePrimary, C.StoreSecond, C.SecondParticipant;
    }
  }

  lemma PrimaryOnlyAdds(table: Table, program: Program, p: C.Payload, registration: string)
    ensures OnlyAdds(table, C.StorePrimary(table, program, p, registration).0)
    ensures NewPrimaries(table, C.StorePrimary(table, program, p, registration).0, registration)
  {
  }

  lemma SecondOnlyAdds(table: Table, program: Program, p: C.Payload, primary: nat)
    requires primary < |table| && C.SecondParticipant(p).Some?
    ensures OnlyAdds(table, C.StoreSecond(table, program, p, primary).0)
    ensures forall i :: |table| <= i < |C.StoreSecond(table, program, p, primary).0| ==>
                          !C.StoreSecond(table, program, p, primary).0[i].isPrimary
  {
  }

  lemma AddingKeepsPushes(a: Table, b: Table, pushes: seq<S.Push>)
    requires OnlyAdds(a, b) && S.PushedOnce(S.State(a, pushes))
    ensures S.PushedOnce(S.State(b, pushes))
    ensures AllProgress(a, b)
  {
    hide S.AcceptedPushes, S.Proper;
  }

  lemma CaptureKeepsSound(t: Trade, op: Op)
    requires Sound(t) && Fair(t, op) && op.Capture?
    ensures Sound(Next(t, op)) && AllProgress(t.table, Next(t, op).table) && ClimbsExactly(t, op)
  {
    var after := Next(t, op);
    C.CaptureKeepsShape(t.table, op.program, op.payload, op.registration);
    CaptureOnlyAdds(t.table, op.program, op.payload, op.registration);
    AddingKeepsPushes(t.table, after.table, t.pushes);
    assert after == t.(table := C.Capture(t.table, op.program, op.payload, op.registration).table);
    FreshHasNoStatus(t, op.registration);
    StillRegistered(t.table, after.table, t.via);
    hide C.Capture, C.Shape, C.FreshRegistration, E.ComputeEligibilityStatus, E.PresentKeys, E.Accounted, E.Registered;
    hide S.PushedOnce, AllProgress, Next, Fair, UploadsRegistered, TakesBack, ClimbsExactly;
    assert forall i :: 0 <= i < |t.table| ==> SameStatuses(t.table[i], after.table[i]);
    UntouchedClimbs(t, op);
    forall i | 0 <= i < |after.table| ensures StatusSound(after, after.table[i]) {
      if i < |t.table| {
        SameStatusIsSound(t, after, t.table[i], after.table[i]);
      }
    }
  }

  lemma ReviewKeepsShape(table: Table, id: nat, status: ReviewStatus)
    requires C.Shape(table) && id < |table|
    ensures C.Shape(table[id := table[id].(review := status)])
  {
    var row := table[id].(review := status);
    forall i | 0 <= i < |table| && i != id ensures !C.SameEmail(table[i], row) {
      assert !C.SameEmail(table[i], table[id]) && !C.SameEmail(table[id], table[i]);
    }
    C.ReplaceKeepsShape(table, id, row);
  }

  lemma ReviewKeepsSound(t: Trade, op: Op)
    requires Sound(t) && op.Review?
    ensures Sound(Next(t, op)) && AllProgress(t.table, Next(t, op).table) && ClimbsExactly(t, op)
  {
    var after := Next(t, op);
    assert after == t.(table := after.table) && |after.table| == |t.table|;
    assert forall i :: 0 <= i < |t.table| ==> after.table[i] == t.table[i].(review := after.table[i].review);
    if op.id < |t.table| {
      ReviewKeepsShape(t.table, op.id, op.status);
    }
    hide Next, C.Shape, UploadsRegistered, S.PushedOnce, E.Accounted, ClimbsExactly, StatusFor, StatusSound;
    UntouchedClimbs(t, op);
    StillRegistered(t.table, after.table, t.via);
    StatusesDoNotPush(t.table, after.table, t.pushes);
    forall i | 0 <= i < |t.table| ensures StatusSound(after, after.table[i]) {
      SameStatusIsSound(t, after, t.table[i], after.table[i]);
    }
  }

  lemma SameStatusIsSound(t: Trade, after: Trade, a: Participant, b: Participant)
    requires StatusSound(t, a) && after.store == t.store && after.via == t.via
    requires b.registration == a.registration && b.isPrimary == a.isPrimary
    requires b.eligibility == a.eligibility && b.submittedAt == a.submittedAt
    ensures StatusSound(after, b)
  {
  }

  /** Changing statuses only does not touch the shape. */
  lemma StatusesDoNotShape(a: Table, b: Table)
    requires C.Shape(a) && |a| == |b|
    requires forall i :: 0 <= i < |a| ==>
                           && b[i].registration == a[i].registration && b[i].isPrimary == a[i].isPrimary
                           && b[i].index == a[i].index && b[i].program == a[i].program && b[i].person == a[i].person
    ensures C.Shape(b)
  {
    forall i | 0 <= i < |b| && !b[i].isPrimary ensures C.HasPrimary(b, b[i].registration) {
      assert C.HasPrimary(a, a[i].registration);
      var j :| C.IsPrimaryOf(a, j, a[i].registration);
      assert C.IsPrimaryOf(b, j, b[i].registration);
    }
    forall i, j | 0 <= i < j < |b| ensures !C.SameSlot(b[i], b[j]) && !C.SameEmail(b[i], b[j]) {
      assert !C.SameSlot(a[i], a[j]) && !C.SameEmail(a[i], a[j]);
    }
  }

  lemma StatusesDoNotPush(a: Table, b: Table, pushes: seq<S.Push>)
    requires S.PushedOnce(S.State(a, pushes)) && |a| == |b|
    requires forall i :: 0 <= i < |a| ==> b[i].crm == a[i].crm
    ensures S.PushedOnce(S.State(b, pushes))
  {
    hide S.AcceptedPushes, S.Proper;
  }

  lemma SweepKeepsSound(t: Trade, op: Op)
    requires Sound(t) && op.Sweep?
    ensures Sound(Next(t, op)) && AllProgress(t.table, Next(t, op).table) && ClimbsExactly(t, op)
  {
    var after := Next(t, op);
    hide S.Sweep, C.Shape, S.PushedOnce, E.ComputeEligibilityStatus, E.PresentKeys, E.Accounted;
    S.SweepKeeps(S.State(t.table, t.pushes), op.programs, op.enabled, op.limit, op.accepts);
    hide TakesBack, ClimbsExactly;
    UntouchedClimbs(t, op);
    StatusesDoNotShape(t.table, after.table);
    StillRegistered(t.table, after.table, t.via);
    hide UploadsRegistered;
    forall i | 0 <= i < |t.table| ensures StatusSound(after, after.table[i]) {
      assert StatusSound(t, t.table[i]);
    }
  }

  lemma UploadIsRegistered(table: Table, via: map<string, Program>, registration: string, program: Program)
    requires UploadsRegistered(table, via) && E.Registered(table, registration)
    ensures UploadsRegistered(table, via[registration := program])
  {
    hide E.Registered;
  }

  /** An upload gives the rows of its registration the status its documents now give, and
      leaves the rows and the documents of every other registration. */
  lemma UploadKeepsStatus(t: Trade, op: Op, i: nat)
    requires op.Submit? && i < |t.table| && StatusSound(t, t.table[i])
    requires E.Refusal(t.table, op.target, op.registration, op.key, op.upload).None?
    ensures var a, after := t.table[i], Next(t, op);
            && |after.table| == |t.table| && StatusSound(after, after.table[i])
            && var b := after.table[i];
               && Progress(a, b)
               && (E.Rank(a.eligibility) <= E.Rank(b.eligibility) <==> !TakesBack(t, op, a))
  {
    var after, row := Next(t, op), t.table[i];
    E.PresentAfter(t.store, op.registration, op.key, op.upload);
    var present := E.PresentKeys(after.store.docs, op.registration);
    E.SubmittedIff(present, op.target);
    var status := StatusFor(after, op.registration);
    assert status == E.ComputeEligibilityStatus(present, op.target);
    assert status in {Pending, Submitted} by {
      assert op.key in present;
    }
    assert after.table[i]
        == if row.registration == op.registration then E.WithStatus(row, status, op.upload.now) else row;
    assert row.registration != op.registration ==>
        StatusFor(after, row.registration) == StatusFor(t, row.registration);
    hide Next, E.Refusal, E.Replace, E.PresentKeys, E.ComputeEligibilityStatus, StatusFor;
  }

  /** Statuses apart, an upload leaves every row as it was. */
  lemma UploadKeepsRows(t: Trade, op: Op)
    requires op.Submit? && C.Shape(t.table) && S.PushedOnce(S.State(t.table, t.pushes))
    requires UploadsRegistered(t.table, t.via)
    requires E.Refusal(t.table, op.target, op.registration, op.key, op.upload).None?
    ensures var after := Next(t, op);
            && |after.table| == |t.table| && C.Shape(after.table) && S.PushedOnce(S.State(after.table, after.pushes))
            && UploadsRegistered(after.table, after.via)
  {
    var after := Next(t, op);
    UploadIsRegistered(t.table, t.via, op.registration, op.target);
    assert after.pushes == t.pushes && after.via == t.via[op.registration := op.target];
    assert |after.table| == |t.table| && forall i :: 0 <= i < |t.table| ==>
        after.table[i] == t.table[i].(eligibility := after.table[i].eligibility,
                                      submittedAt := after.table[i].submittedAt);
    hide Next, E.Refusal, UploadsRegistered, C.Shape, S.PushedOnce;
    StatusesDoNotPush(t.table, after.table, t.pushes);
    StatusesDoNotShape(t.table, after.table);
    StillRegistered(t.table, after.table, after.via);
  }

  lemma SubmitKeepsSound(t: Trade, op: Op)
    requires Sound(t) && Fair(t, op) && op.Submit?
    ensures Sound(Next(t, op)) && AllProgress(t.table, Next(t, op).table) && ClimbsExactly(t, op)
  {
    var after := Next(t, op);
    if E.Refusal(t.table, op.target, op.registration, op.key, op.upload).None? {
      E.ReplaceKeepsAccount(t.store, op.registration, op.key, op.upload);
      assert after.store == E.Replace(t.store, op.registration, op.key, op.upload);
      hide Next, Fair, E.Refusal, E.Replace, E.Accounted, UploadsRegistered, StatusSound, C.Shape, S.PushedOnce;
      hide TakesBack, Progress;
      UploadKeepsRows(t, op);
      forall i | 0 <= i < |t.table|
        ensures StatusSound(after, after.table[i]) && Progress(t.table[i], after.table[i])
        ensures E.Rank(t.table[i].eligibility) <= E.Rank(after.table[i].eligibility) <==> !TakesBack(t, op, t.table[i])
      {
        UploadKeepsStatus(t, op, i);
      }
    } else {
      assert forall i :: 0 <= i < |t.table| ==> Progress(t.table[i], t.table[i]);
      hide E.Refusal;
    }
  }

  lemma NextKeepsSound(t: Trade, op: Op)
    requires Sound(t) && Fair(t, op)
    ensures Sound(Next(t, op)) && AllProgress(t.table, Next(t, op).table) && ClimbsExactly(t, op)
  {
    match op
    case Capture(_, _, _) => CaptureKeepsSound(t, op);
    case Review(_, _) => ReviewKeepsSound(t, op);
    case Sweep(_, _, _, _) => SweepKeepsSound(t, op);
    case Submit(_, _, _, _) => SubmitKeepsSound(t, op);
  }

  /** In every reachable state: registrations have their shape, each row was taken by the
      CRM at most once and only ever sent while approved if its program asks for that and
      with an email, every document row names its own live object, and every primary row's
      status is exactly what its documents give by the program last named, a second row's
      that or none as yet. */
  lemma {:induction false} RunIsSound(ops: seq<Op>)
    requires FairRun(ops)
    ensures Sound(After(ops))
  {
    if ops != [] {
      var n := |ops| - 1;
      assert ops[..n + 1] == ops;
      hide Next, After, Sound, FairRun, Fair;
      RunStep(ops, n);
      RunIsSound(ops[..n]);
      NextKeepsSound(After(ops[..n]), ops[n]);
    } else {
      hide E.ComputeEligibilityStatus;
    }
  }

  /** Along a run a participant's submission time never changes once set, and `synced` and
      `skipped` are final. */
  lemma {:induction false} RunProgresses(ops: seq<Op>, j: nat, k: nat)
    requires FairRun(ops) && j <= k <= |ops|
    ensures AllProgress(After(ops[..j]).table, After(ops[..k]).table)
    decreases k
  {
    hide Next, After, Sound, FairRun, Fair, Progress, ClimbsExactly;
    if j < k {
      RunProgresses(ops, j, k - 1);
      RunStep(ops, k - 1);
      RunIsSound(ops[..k - 1]);
      NextKeepsSound(After(ops[..k - 1]), ops[k - 1]);
      ProgressChains(After(ops[..j]).table, After(ops[..k - 1]).table, After(ops[..k]).table);
      hide AllProgress;
    } else {
      ProgressStays(After(ops[..j]).table);
    }
  }

  lemma ProgressStays(table: Table)
    ensures AllProgress(table, table)
  {
  }

  predicate TakesBackAt(ops: seq<Op>, i: nat, m: nat) {
    m < |ops| && i < |After(ops[..m]).table| && TakesBack(After(ops[..m]), ops[m], After(ops[..m]).table[i])
  }

  function RankAt(ops: seq<Op>, i: nat, m: nat): nat
    requires m <= |ops| && i < |After(ops[..m]).table|
  {
    E.Rank(After(ops[..m]).table[i].eligibility)
  }

  lemma StepClimbsIff(ops: seq<Op>, i: nat, m: nat)
    requires FairRun(ops) && m < |ops| && i < |After(ops[..m]).table|
    ensures i < |After(ops[..m + 1]).table|
    ensures RankAt(ops, i, m) <= RankAt(ops, i, m + 1) <==> !TakesBackAt(ops, i, m)
  {
    RunStep(ops, m);
    RunIsSound(ops[..m]);
    NextKeepsSound(After(ops[..m]), ops[m]);
    hide Next, After, Sound, FairRun, Fair, TakesBack, AllProgress;
  }

  /** Over any stretch of a run in which no upload takes it back, a participant's status
      only climbs. */
  lemma {:induction false} RunClimbs(ops: seq<Op>, i: nat, j: nat, k: nat)
    requires FairRun(ops) && j <= k <= |ops| && i < |After(ops[..j]).table|
    requires forall m :: j <= m < k ==> !TakesBackAt(ops, i, m)
    ensures i < |After(ops[..k]).table| && RankAt(ops, i, j) <= RankAt(ops, i, k)
    decreases k
  {
    hide After, FairRun, TakesBackAt, RankAt;
    if j < k {
      RunClimbs(ops, i, j, k - 1);
      StepClimbsIff(ops, i, k - 1);
    }
  }

  /** Each registration's documents always go to one program. */
  predicate OneProgram(ops: seq<Op>, programOf: string -> Program) {
    forall k :: 0 <= k < |ops| && ops[k].Submit? ==> ops[k].target == programOf(ops[k].registration)
  }

  lemma {:induction false} ViaIsTheProgram(ops: seq<Op>, programOf: string -> Program)
    requires OneProgram(ops, programOf)
    ensures forall r :: r in After(ops).via ==> After(ops).via[r] == programOf(r)
  {
    if ops != [] {
      ViaIsTheProgram(ops[..|ops| - 1], programOf);
      hide E.Refusal, E.Replace, E.Update, C.Capture, S.Sweep, E.ComputeEligibilityStatus, E.PresentKeys;
    }
  }

  lemma OneProgramTakesNothingBack(ops: seq<Op>, programOf: string -> Program, i: nat, m: nat)
    requires FairRun(ops) && OneProgram(ops, programOf) && m < |ops|
    ensures !TakesBackAt(ops, i, m)
  {
    var t, op := After(ops[..m]), ops[m];
    RunStep(ops, m);
    RunIsSound(ops[..m]);
    ViaIsTheProgram(ops[..m], programOf);
    hide After, FairRun, Fair, Next, E.Refusal;
    if op.Submit? && i < |t.table|
       && op.registration == t.table[i].registration && t.table[i].eligibility == Submitted {
      assert StatusSound(t, t.table[i]);
      assert op.registration in t.via && t.via[op.registration] == op.target;
      E.SubmittedIff(E.PresentKeys(t.store.docs, op.registration), op.target);
      hide E.ComputeEligibilityStatus, E.PresentKeys, Sound;
    }
  }

  /** So with one program to each registration, statuses only ever climb. */
  lemma OneProgramClimbs(ops: seq<Op>, programOf: string -> Program, i: nat, j: nat, k: nat)
    requires FairRun(ops) && OneProgram(ops, programOf)
    requires j <= k <= |ops| && i < |After(ops[..j]).table|
    ensures i < |After(ops[..k]).table| && RankAt(ops, i, j) <= RankAt(ops, i, k)
  {
    forall m | j <= m < k ensures !TakesBackAt(ops, i, m) {
      OneProgramTakesNothingBack(ops, programOf, i, m);
    }
    RunClimbs(ops, i, j, k);
  }

  /** Right after an upload every participant of the registration has the status its
      documents give by the rules of the program named. */
  lemma SubmitSettlesRegistration(
    ops: seq<Op>, program: Program, registration: string, key: string, upload: E.Upload)
    requires E.Refusal(After(ops).table, program, registration, key, upload).None?
    ensures var t := After(ops + [Submit(program, registration, key, upload)]);
            && E.PresentKeys(t.store.docs, registration) == E.PresentKeys(After(ops).store.docs, registration) + {key}
            && (forall i :: 0 <= i < |t.table| && t.table[i].registration == registration ==>
                  t.table[i].eligibility
                  == E.ComputeEligibilityStatus(E.PresentKeys(t.store.docs, registration), program))
  {
    var op := Submit(program, registration, key, upload);
    assert (ops + [op])[..|ops|] == ops;
    E.PresentAfter(After(ops).store, registration, key, upload);
    assert After(ops + [op]) == Next(After(ops), op);
    hide After, E.ComputeEligibilityStatus, E.PresentKeys, E.Replace, E.Refusal;
  }

  predicate DeletesSucceed(ops: seq<Op>) {
    forall k :: 0 <= k < |ops| && ops[k].Submit? ==> ops[k].upload.deletes
  }

  lemma {:induction false} NoOrphans(ops: seq<Op>)
    requires DeletesSucceed(ops)
    ensures After(ops).store.orphans == {}
  {
    if ops != [] {
      NoOrphans(ops[..|ops| - 1]);
      hide E.Refusal, E.Update, C.Capture, S.Sweep, E.ComputeEligibilityStatus, E.PresentKeys;
    }
  }

  /** While storage deletes what it is asked to, the live objects are at every moment
      exactly those the document rows name, each named once. */
  lemma ObjectsAreNamed(ops: seq<Op>)
    requires FairRun(ops) && DeletesSucceed(ops)
    ensures var store := After(ops).store;
            && store.objects == store.docs.Values
            && forall a, b :: a in store.docs && b in store.docs && store.docs[a] == store.docs[b] ==> a == b
  {
    RunIsSound(ops);
    NoOrphans(ops);
    hide After, FairRun, StatusSound, C.Shape, S.PushedOnce, E.Accounted;
    E.WithoutOrphans(After(ops).store);
  }
}
