/** Registration capture (app/services/trade_capture.py). */
module TradeCapture {
  import opened Common
  import opened TradeRepo

  /** `second` is what the form says about a second participant, blanks stripped. */
  datatype Payload = Payload(person: Person, shared: string, second: Option<Person>)

  datatype Error = ProgramNotFound | ProgramInactive | EmailInUse | RecoveryFailed

  datatype Result<+T> = Ok(value: T) | Err(error: Error)

  /** The table after a call, and the ids of the participants it returns. */
  datatype Outcome = Outcome(table: Table, participants: Result<(nat, Option<nat>)>, created: bool)

  const DASH := "\U{2014}"

  function OrDash(name: string): string {
    if name == "" then DASH else name
  }

  function SecondParticipant(p: Payload): Option<Person> {
    match p.second
    case None => None
    case Some(s) =>
      if s.firstName == "" && s.lastName == "" then None
      else Some(s.(firstName := OrDash(s.firstName), lastName := OrDash(s.lastName),
                   email := if s.email == p.person.email then "" else s.email))
  }

  /** `_apply_payload`: everything but the email and the statuses. */
  function ApplyPayload(row: Participant, program: Program, p: Payload): Participant {
    row.(program := program.id, person := p.person.(email := row.Email()), shared := p.shared,
         tags := program.baseTags)
  }

  function NewRow(program: Program, registration: string, index: nat, person: Person, p: Payload, tags: seq<string>)
    : Participant
  {
    Participant(program.id, registration, index, index == 1, person, p.shared, tags,
                CrmPending, ReviewPending, NotRequested, None)
  }

  /** The primary half: the table after it, the row's id, and whether it was created. */
  function StorePrimary(table: Table, program: Program, p: Payload, registration: string): (r: (Table, nat, bool))
    ensures r.1 < |r.0|
  {
    var found := FindEmail(table, program.id, p.person.email);
    if found < 0 then
      (table + [NewRow(program, registration, 1, p.person, p, program.baseTags)], |table|, true)
    else
      (table[found := ApplyPayload(table[found], program, p)], found, false)
  }

  /** The second half, for the registration of row `primary`. */
  function StoreSecond(table: Table, program: Program, p: Payload, primary: nat): (r: (Table, Result<nat>))
    requires primary < |table| && SecondParticipant(p).Some?
    ensures r.1.Ok? ==> r.1.value < |r.0|
  {
    WriteSecond(table, program, p, primary, FindSecond(table, table[primary].registration, 0))
  }

  /** Its write, with `second` the registration's second row as looked up, or -1. */
  function WriteSecond(table: Table, program: Program, p: Payload, primary: nat, second: int): (r: (Table, Result<nat>))
    requires primary < |table| && SecondParticipant(p).Some? && -1 <= second < |table|
    ensures r.1.Ok? ==> r.1.value < |r.0|
  {
    var person := SecondParticipant(p).value;
    var tags := table[primary].tags + ["Second Participant"];
    if Taken(table, program.id, person.email, second) then
      (table, Err(EmailInUse))
    else if second < 0 then
      (table + [NewRow(program, table[primary].registration, 2, person, p, tags)], Ok(|table|))
    else
      (table[second := table[second].(person := person, shared := p.shared, tags := tags)], Ok(second))
  }

  /** One serial capture; `registration` is the fresh uuid. */
  function Capture(table: Table, program: Option<Program>, p: Payload, registration: string): Outcome {
    if program.None? then Outcome(table, Err(ProgramNotFound), false)
    else if !program.value.active then Outcome(table, Err(ProgramInactive), false)
    else
      var (stored, primary, created) := StorePrimary(table, program.value, p, registration);
      if SecondParticipant(p).None? then
        Outcome(stored, Ok((primary, None)), created)
      else
        var (both, second) := StoreSecond(stored, program.value, p, primary);
        match second
        case Ok(id) => Outcome(both, Ok((primary, Some(id))), created)
        case Err(e) => Outcome(both, Err(e), created)
  }

  /** Another submission for this program, committed between the lookup and the insert. */
  datatype Rival = Rival(payload: Payload, registration: string)

  class TradeCaptureService {
    var table: Table

    /** The source's own sequence: lookup, insert or update, then the second participant.
        What a rival slips in between the lookup and the insert comes out as if it had been
        captured just before, unless it took the email: then the rollback expires the
        loaded program, and reading its id for the second lookup raises. */
    method CaptureRegistration(program: Option<Program>, p: Payload, registration: string, rival: Option<Rival>)
      returns (participants: Result<(nat, Option<nat>)>, created: bool)
      requires p.person.email != ""
      modifies this
      ensures var meets := rival.Some? && program.Some? && program.value.active
                           && FindEmail(old(table), program.value.id, p.person.email) < 0;
              var before := if meets
                            then Capture(old(table), program, rival.value.payload, rival.value.registration).table
                            else old(table);
              if meets && Taken(before, program.value.id, p.person.email, -1)
              then table == before && participants == Err(RecoveryFailed)
              else Outcome(table, participants, created) == Capture(before, program, p, registration)
    {
      if program.None? {
        return Err(ProgramNotFound), false;
      }
      var pr := program.value;
      if !pr.active {
        return Err(ProgramInactive), false;
      }
      var email := p.person.email;
      var found := FindEmail(table, pr.id, email);
      created := found < 0;
      var primary: nat;
      if created {
        if rival.Some? {
          table := Capture(table, program, rival.value.payload, rival.value.registration).table;
        }
        if Taken(table, pr.id, email, -1) {
          return Err(RecoveryFailed), created;
        }
        table := table + [NewRow(pr, registration, 1, p.person, p, pr.baseTags)];
        primary := |table| - 1;
      } else {
        table := table[found := ApplyPayload(table[found], pr, p)];
        primary := found;
      }
      var person := SecondParticipant(p);
      if person.None? {
        return Ok((primary, None)), created;
      }
      var tags := table[primary].tags + ["Second Participant"];
      var second := FindSecond(table, table[primary].registration, 0);
      if Taken(table, pr.id, person.value.email, second) {
        return Err(EmailInUse), created;
      }
      if second < 0 {
        second := |table|;
        table := table + [NewRow(pr, table[primary].registration, 2, person.value, p, tags)];
      } else {
        table := table[second := table[second].(person := person.value, shared := p.shared, tags := tags)];
      }
      return Ok((primary, Some(second))), created;
    }
  }

  // Registration shape

  predicate IsPrimaryOf(table: Table, i: int, registration: string) {
    0 <= i < |table| && table[i].registration == registration && table[i].isPrimary
  }

  ghost predicate HasPrimary(table: Table, registration: string) {
    exists j :: IsPrimaryOf(table, j, registration)
  }

  predicate SameSlot(a: Participant, b: Participant) {
    a.registration == b.registration && a.isPrimary == b.isPrimary
  }

  predicate SameEmail(a: Participant, b: Participant) {
    a.program == b.program && a.Email() == b.Email() != ""
  }

  /** Each registration has one primary row, with index 1, and at most one second row,
      with index 2; both are in one program; no email is used twice in a program. */
  ghost predicate Shape(table: Table) {
    && (forall i :: 0 <= i < |table| ==> table[i].index == if table[i].isPrimary then 1 else 2)
    && (forall i :: 0 <= i < |table| && table[i].isPrimary ==> table[i].Email() != "")
    && (forall i :: 0 <= i < |table| && !table[i].isPrimary ==> HasPrimary(table, table[i].registration))
    && (forall i, j :: 0 <= i < j < |table| ==> !SameSlot(table[i], table[j]) && !SameEmail(table[i], table[j]))
    && (forall i, j :: 0 <= i < |table| && 0 <= j < |table| && table[i].registration == table[j].registration ==>
          table[i].program == table[j].program)
  }

  predicate FreshRegistration(table: Table, registration: string) {
    forall i :: 0 <= i < |table| ==> table[i].registration != registration
  }

  /** A row replaced by one in the same place keeps the shape if its email is free. */
  lemma ReplaceKeepsShape(table: Table, id: nat, row: Participant)
    requires Shape(table) && id < |table|
    requires SameSlot(row, table[id]) && row.index == table[id].index && row.program == table[id].program
    requires !Taken(table, row.program, row.Email(), id) && (row.isPrimary ==> row.Email() != "")
    ensures Shape(table[id := row])
  {
    var after := table[id := row];
    forall i | 0 <= i < |after| && !after[i].isPrimary ensures HasPrimary(after, after[i].registration) {
      assert HasPrimary(table, table[i].registration);
      var j :| IsPrimaryOf(table, j, table[i].registration);
      assert IsPrimaryOf(after, j, after[i].registration);
    }
  }

  lemma AppendKeepsShape(table: Table, row: Participant)
    requires Shape(table)
    requires row.index == if row.isPrimary then 1 else 2
    requires !Taken(table, row.program, row.Email(), -1) && (row.isPrimary ==> row.Email() != "")
    requires forall i :: 0 <= i < |table| ==> !SameSlot(table[i], row)
    requires row.isPrimary ==> FreshRegistration(table, row.registration)
    requires !row.isPrimary ==>
               HasPrimary(table, row.registration)
               && forall j :: 0 <= j < |table| && table[j].registration == row.registration ==>
                                table[j].program == row.program
    ensures Shape(table + [row])
  {
    var after := table + [row];
    forall i | 0 <= i < |after| && !after[i].isPrimary ensures HasPrimary(after, after[i].registration) {
      assert HasPrimary(table, after[i].registration);
      var j :| IsPrimaryOf(table, j, after[i].registration);
      assert IsPrimaryOf(after, j, after[i].registration);
    }
  }

  lemma PrimaryKeepsShape(table: Table, program: Program, p: Payload, registration: string)
    requires Shape(table) && FreshRegistration(table, registration) && p.person.email != ""
    ensures var (stored, id, _) := StorePrimary(table, program, p, registration);
            Shape(stored) && stored[id].program == program.id && stored[id].Email() == p.person.email
  {
    var found := FindEmail(table, program.id, p.person.email);
    if found < 0 {
      AppendKeepsShape(table, NewRow(program, registration, 1, p.person, p, program.baseTags));
    } else {
      assert !Taken(table, program.id, p.person.email, found);
      ReplaceKeepsShape(table, found, ApplyPayload(table[found], program, p));
    }
  }

  lemma SecondKeepsShape(table: Table, program: Program, p: Payload, primary: nat)
    requires Shape(table) && primary < |table| && table[primary].program == program.id && SecondParticipant(p).Some?
    ensures Shape(StoreSecond(table, program, p, primary).0)
  {
    var person := SecondParticipant(p).value;
    var registration := table[primary].registration;
    var second := FindSecond(table, registration, 0);
    var tags := table[primary].tags + ["Second Participant"];
    if !Taken(table, program.id, person.email, second) {
      if second < 0 {
        assert table[primary].isPrimary;
        assert IsPrimaryOf(table, primary, registration);
        AppendKeepsShape(table, NewRow(program, registration, 2, person, p, tags));
      } else {
        ReplaceKeepsShape(table, second, table[second].(person := person, shared := p.shared, tags := tags));
      }
    }
  }

  /** Every capture keeps the shape, whichever row the submitted email matches. */
  lemma CaptureKeepsShape(table: Table, program: Option<Program>, p: Payload, registration: string)
    requires Shape(table) && FreshRegistration(table, registration) && p.person.email != ""
    ensures Shape(Capture(table, program, p, registration).table)
  {
    if program.Some? && program.value.active {
      PrimaryKeepsShape(table, program.value, p, registration);
      var (stored, id, _) := StorePrimary(table, program.value, p, registration);
      if SecondParticipant(p).Some? {
        SecondKeepsShape(stored, program.value, p, id);
      }
    }
  }

  /** The submitted email is somebody's second participant, and the form names a second
      participant of its own - which then overwrites that row. */
  predicate OverwritesItself(table: Table, program: Program, p: Payload) {
    var found := FindEmail(table, program.id, p.person.email);
    found >= 0 && !table[found].isPrimary && SecondParticipant(p).Some?
  }

  lemma EmailIsFound(table: Table, program: nat, email: string, id: nat)
    requires Shape(table) && id < |table| && table[id].program == program && table[id].Email() == email != ""
    ensures FindEmail(table, program, email) == id
  {
    var found := FindEmail(table, program, email);
    assert Taken(table, program, email, -1);
  }

  lemma SecondIsFound(table: Table, id: nat)
    requires Shape(table) && id < |table| && !table[id].isPrimary
    ensures FindSecond(table, table[id].registration, 0) == id
    ensures !Taken(table, table[id].program, table[id].Email(), id)
  {
    forall i | 0 <= i < |table| && i != id ensures !SameEmail(table[i], table[id]) && !SameEmail(table[id], table[i]) {
    }
  }

  /** What the second half leaves: the submitted row as it was, unless it is the second
      row itself. */
  lemma StoreSecondLeaves(table: Table, program: Program, p: Payload, primary: nat)
    requires Shape(table) && primary < |table| && table[primary].program == program.id && SecondParticipant(p).Some?
    ensures var (both, second) := StoreSecond(table, program, p, primary);
            && (second.Err? ==> both == table)
            && |both| >= |table|
            && (second.Ok? ==>
                  && var row := both[second.value];
                  && row.person == SecondParticipant(p).value && row.shared == p.shared && !row.isPrimary
                  && row.registration == table[primary].registration && row.program == program.id
                  && row.tags == table[primary].tags + ["Second Participant"]
                  && (second.value == primary <==> !table[primary].isPrimary)
                  && forall i :: 0 <= i < |table| && i != second.value ==> both[i] == table[i])
  {
    if !table[primary].isPrimary {
      SecondIsFound(table, primary);
    }
  }

  /** The form names a second participant. */
  predicate NamesSecond(p: Payload) {
    p.second.Some? && (p.second.value.firstName != "" || p.second.value.lastName != "")
  }

  /** Who that is: a dash for a missing name, and no email if it is the first one's. */
  predicate IsSecond(person: Person, p: Payload)
    requires p.second.Some?
  {
    var s := p.second.value;
    && person.firstName == (if s.firstName == "" then "\U{2014}" else s.firstName)
    && person.lastName == (if s.lastName == "" then "\U{2014}" else s.lastName)
    && person.email == (if s.email == p.person.email then "" else s.email)
    && person.phone == s.phone && person.jobTitle == s.jobTitle
  }

  /** A row that a form has just created. */
  predicate IsNew(row: Participant) {
    row.crm == CrmPending && row.review == ReviewPending && row.eligibility == NotRequested && row.submittedAt.None?
  }

  /** A row keeps everything that a form says nothing about. */
  predicate KeepsRest(before: Participant, after: Participant) {
    && after.program == before.program && after.registration == before.registration
    && after.index == before.index && after.isPrimary == before.isPrimary
    && after.crm == before.crm && after.review == before.review
    && after.eligibility == before.eligibility && after.submittedAt == before.submittedAt
  }

  /** The first half, as rows: the row with the submitted email, or a new primary one,
      says what the form says. */
  lemma FirstHalfWrites(table: Table, program: Program, p: Payload, registration: string)
    requires p.person.email != ""
    ensures var (after, i, created) := StorePrimary(table, program, p, registration);
            && (created <==> forall k :: 0 <= k < |table| ==>
                               !(table[k].program == program.id && table[k].Email() == p.person.email))
            && after[i].program == program.id && after[i].person == p.person && after[i].shared == p.shared
            && after[i].tags == program.baseTags
            && (if created
                then && i == |table| && |after| == i + 1 && IsNew(after[i])
                     && after[i].registration == registration && after[i].index == 1 && after[i].isPrimary
                else i < |table| && |after| == |table| && KeepsRest(table[i], after[i]))
            && forall k :: 0 <= k < |table| && k != i ==> after[k] == table[k]
  {
  }

  /** A capture, as rows: who is stored where, with which answers, tags and statuses, and
      that no other row is touched. */
  lemma CaptureWrites(table: Table, program: Program, p: Payload, registration: string)
    requires Shape(table) && FreshRegistration(table, registration) && p.person.email != "" && program.active
    requires Capture(table, Some(program), p, registration).participants.Ok?
    ensures var once := Capture(table, Some(program), p, registration);
            var after, (i, second) := once.table, once.participants.value;
            && (second.Some? <==> NamesSecond(p))
            && i < |after| && after[i].program == program.id && after[i].shared == p.shared
            && (second != Some(i) ==> after[i].person == p.person && after[i].tags == program.baseTags)
            && (if once.created
                then && i == |table| && IsNew(after[i])
                     && after[i].registration == registration && after[i].index == 1 && after[i].isPrimary
                else i < |table| && table[i].Email() == p.person.email && KeepsRest(table[i], after[i]))
            && (second.Some? ==>
                  && var j := second.value;
                  && j < |after| && IsSecond(after[j].person, p) && after[j].shared == p.shared
                  && after[j].tags == program.baseTags + ["Second Participant"]
                  && after[j].program == program.id && after[j].registration == after[i].registration
                  && after[j].index == 2 && !after[j].isPrimary
                  && (if j < |table| then KeepsRest(table[j], after[j])
                      else j == |after| - 1 && IsNew(after[j])))
            && |after| == |table| + (if once.created then 1 else 0)
                          + (if second.Some? && second.value >= |table| then 1 else 0)
            && forall k :: 0 <= k < |table| && k != i && second != Some(k) ==> after[k] == table[k]
  {
    FirstHalfWrites(table, program, p, registration);
    PrimaryKeepsShape(table, program, p, registration);
    var (stored, i, _) := StorePrimary(table, program, p, registration);
    hide StorePrimary;
    if SecondParticipant(p).Some? {
      SecondHalfWrites(stored, program, p, i);
    }
  }

  lemma SecondHalfWrites(table: Table, program: Program, p: Payload, primary: nat)
    requires Shape(table) && primary < |table| && table[primary].program == program.id && SecondParticipant(p).Some?
    requires table[primary].shared == p.shared
    ensures var (after, second) := StoreSecond(table, program, p, primary);
            second.Ok? ==>
              && var j := second.value;
              && j < |after| && IsSecond(after[j].person, p) && after[j].shared == p.shared
              && after[j].tags == table[primary].tags + ["Second Participant"]
              && after[j].program == program.id && after[j].registration == table[primary].registration
              && after[j].index == 2 && !after[j].isPrimary
              && (if j < |table| then |after| == |table| && KeepsRest(table[j], after[j])
                  else j == |table| == |after| - 1 && IsNew(after[j]))
              && (j == primary <==> !table[primary].isPrimary)
              && forall k :: 0 <= k < |table| && k != j ==> after[k] == table[k]
  {
    StoreSecondLeaves(table, program, p, primary);
  }

  /** A form for no program, or a closed one, is refused and nothing is stored; for an open
      one only an email in use can stand in the way. */
  lemma CaptureRefuses(table: Table, program: Option<Program>, p: Payload, registration: string)
    ensures var after := Capture(table, program, p, registration);
            && (after.participants == Err(ProgramNotFound) <==> program.None?)
            && (after.participants == Err(ProgramInactive) <==> program.Some? && !program.value.active)
            && (program.None? || !program.value.active ==> after.table == table && !after.created)
            && after.participants != Err(RecoveryFailed)
  {
    hide StorePrimary, SecondParticipant, Taken;
  }

  /** The form gives this email to one of its participants. */
  predicate BringsEmail(p: Payload, email: string) {
    p.person.email == email || (SecondParticipant(p).Some? && SecondParticipant(p).value.email == email)
  }

  /** An email nobody in the program had is taken by a capture exactly when its form
      brings it. */
  lemma RivalTakesEmailIff(table: Table, program: Program, p: Payload, registration: string, email: string)
    requires Shape(table) && FreshRegistration(table, registration) && p.person.email != "" && program.active
    requires email != "" && FindEmail(table, program.id, email) < 0
    ensures Taken(Capture(table, Some(program), p, registration).table, program.id, email, -1)
       <==> BringsEmail(p, email)
  {
    PrimaryKeepsShape(table, program, p, registration);
    var (stored, primary, _) := StorePrimary(table, program, p, registration);
    hide SecondParticipant;
    assert Taken(stored, program.id, email, -1) <==> p.person.email == email by {
      if p.person.email == email {
        assert stored[primary].program == program.id && stored[primary].Email() == email;
      }
    }
    assert p.person.email == email ==> stored[primary].isPrimary;
    hide StorePrimary;
    if SecondParticipant(p).Some? {
      SecondTakesEmailIff(stored, program, p, primary, email);
    }
    hide StoreSecond;
  }

  lemma SecondTakesEmailIff(table: Table, program: Program, p: Payload, primary: nat, email: string)
    requires Shape(table) && primary < |table| && SecondParticipant(p).Some? && email != ""
    requires Taken(table, program.id, email, -1) <==> p.person.email == email
    requires table[primary].program == program.id && table[primary].Email() == p.person.email
    requires p.person.email == email ==> table[primary].isPrimary
    ensures Taken(StoreSecond(table, program, p, primary).0, program.id, email, -1) <==> BringsEmail(p, email)
  {
    StoreSecondLeaves(table, program, p, primary);
    var (both, second) := StoreSecond(table, program, p, primary);
    hide Shape;
    if p.person.email == email {
      assert both[primary].program == program.id && both[primary].Email() == email;
    } else if second.Ok? {
      var row := both[second.value];
      assert row.Email() == SecondParticipant(p).value.email;
      assert row.Email() == email ==> row.program == program.id;
      forall i | 0 <= i < |both| && i != second.value
        ensures !(both[i].program == program.id && both[i].Email() == email)
      {
        assert both[i] == table[i];
      }
    }
  }

  /** One form sent twice at once, with both calls looking for the second row before either
      writes it.  The first write keeps the shape.  The second goes through, and leaves the
      registration two second rows, exactly when the second participant gave no email:
      only the index on emails stands in its way. */
  lemma RacingSecondsIff(table: Table, program: Program, p: Payload, primary: nat)
    requires Shape(table) && primary < |table| && table[primary].program == program.id && SecondParticipant(p).Some?
    requires FindSecond(table, table[primary].registration, 0) < 0
    requires !Taken(table, program.id, SecondParticipant(p).value.email, -1)
    ensures var (once, first) := WriteSecond(table, program, p, primary, -1);
            var (twice, second) := WriteSecond(once, program, p, primary, -1);
            && first.Ok? && Shape(once)
            && (second.Ok? <==> SecondParticipant(p).value.email == "")
            && (Shape(twice) <==> SecondParticipant(p).value.email != "")
  {
    SecondKeepsShape(table, program, p, primary);
    var person := SecondParticipant(p).value;
    var once := WriteSecond(table, program, p, primary, -1).0;
    var (twice, second) := WriteSecond(once, program, p, primary, -1);
    assert once[|table|].program == program.id && once[|table|].Email() == person.email;
    if person.email == "" {
      assert SameSlot(twice[|table|], twice[|table| + 1]);
    } else {
      assert Taken(once, program.id, person.email, -1);
    }
    hide SecondParticipant;
  }

  /** The second participant's email is on some row of the program other than the
      registration's own second row. */
  predicate SecondEmailInUse(table: Table, program: Program, p: Payload) {
    var found := FindEmail(table, program.id, p.person.email);
    && SecondParticipant(p).Some? && SecondParticipant(p).value.email != ""
    && exists i :: 0 <= i < |table| && table[i].program == program.id
                   && table[i].Email() == SecondParticipant(p).value.email
                   && (found < 0 || table[i].registration != table[found].registration || table[i].isPrimary)
  }

  /** A capture fails on an email in use exactly when the second participant's email is on
      another row of the program; the first half is stored all the same. */
  lemma EmailInUseIff(table: Table, program: Program, p: Payload, registration: string)
    requires Shape(table) && FreshRegistration(table, registration) && p.person.email != "" && program.active
    ensures var after := Capture(table, Some(program), p, registration);
            && (after.participants.Err? <==> SecondEmailInUse(table, program, p))
            && (after.participants.Err? ==>
                  && after.participants == Err(EmailInUse)
                  && after.table == StorePrimary(table, program, p, registration).0)
  {
    PrimaryKeepsShape(table, program, p, registration);
    var (stored, id, _) := StorePrimary(table, program, p, registration);
    var second := FindSecond(stored, stored[id].registration, 0);
    forall i | 0 <= i < |stored|
      ensures i != second <==> stored[i].registration != stored[id].registration || stored[i].isPrimary
    {
      if !stored[i].isPrimary {
        SecondIsFound(stored, i);
      }
    }
    hide Shape;
    if SecondParticipant(p).Some? {
      InUseAfterFirstHalf(table, program, p, registration);
    }
    hide SecondParticipant;
  }

  /** The first half neither adds nor removes a row with the second participant's email. */
  lemma InUseAfterFirstHalf(table: Table, program: Program, p: Payload, registration: string)
    requires FreshRegistration(table, registration) && SecondParticipant(p).Some?
    ensures var (stored, id, _) := StorePrimary(table, program, p, registration);
            SecondEmailInUse(table, program, p) <==>
              && SecondParticipant(p).value.email != ""
              && exists i :: 0 <= i < |stored| && stored[i].program == program.id
                             && stored[i].Email() == SecondParticipant(p).value.email
                             && (stored[i].registration != stored[id].registration || stored[i].isPrimary)
  {
    var email := SecondParticipant(p).value.email;
    assert email != "" ==> email != p.person.email;
    hide SecondParticipant;
    var (stored, id, _) := StorePrimary(table, program, p, registration);
    forall i | 0 <= i < |table| && i != id ensures stored[i] == table[i] {
    }
    if SecondEmailInUse(table, program, p) {
      var found := FindEmail(table, program.id, p.person.email);
      var i :| 0 <= i < |table| && table[i].program == program.id && table[i].Email() == email
               && (found < 0 || table[i].registration != table[found].registration || table[i].isPrimary);
      assert i != id && stored[i] == table[i];
    }
  }

  /** The submitted email is lost: the form overwrites the row it matched, and its second
      participant's email is free. */
  predicate LosesEmail(table: Table, program: Program, p: Payload) {
    OverwritesItself(table, program, p) && !SecondEmailInUse(table, program, p)
  }

  /** When a registration is lost: after a capture no row of the program has the submitted
      email exactly when the form overwrote the row it matched. */
  lemma SubmittedEmailKeptIff(table: Table, program: Program, p: Payload, registration: string)
    requires Shape(table) && FreshRegistration(table, registration) && p.person.email != "" && program.active
    ensures Taken(Capture(table, Some(program), p, registration).table, program.id, p.person.email, -1)
       <==> !LosesEmail(table, program, p)
  {
    var email := p.person.email;
    PrimaryKeepsShape(table, program, p, registration);
    EmailInUseIff(table, program, p, registration);
    hide SecondEmailInUse;
    var (stored, id, created) := StorePrimary(table, program, p, registration);
    assert Taken(stored, program.id, email, -1);
    if SecondParticipant(p).Some? {
      StoreSecondLeaves(stored, program, p, id);
      var (both, second) := StoreSecond(stored, program, p, id);
      forall i | 0 <= i < |stored| && i != id ensures !SameEmail(stored[i], stored[id]) {
      }
      hide Shape, StoreSecond;
    }
  }

  /** Sending the same form again meets the rows it left, changes none of them and gets
      the same answer, a failure too - unless it lost its email: then, and only then, it
      registers all over again. */
  lemma ResubmitIsIdempotentIff(table: Table, program: Program, p: Payload, registration: string, again: string)
    requires Shape(table) && FreshRegistration(table, registration) && p.person.email != "" && program.active
    ensures var once := Capture(table, Some(program), p, registration);
            var twice := Capture(once.table, Some(program), p, again);
            && (twice.created <==> LosesEmail(table, program, p))
            && (!LosesEmail(table, program, p) ==>
                  twice.table == once.table && twice.participants == once.participants)
  {
    var once := Capture(table, Some(program), p, registration);
    CaptureKeepsShape(table, Some(program), p, registration);
    SubmittedEmailKeptIff(table, program, p, registration);
    EmailInUseIff(table, program, p, registration);
    hide SecondEmailInUse;
    if LosesEmail(table, program, p) {
      hide Shape, StoreSecond;
      assert FindEmail(once.table, program.id, p.person.email) < 0;
    } else if once.participants.Ok? {
      RowsLeft(table, program, p, registration);
      var (primary, second) := once.participants.value;
      hide Shape;
      RowsAreFound(once.table, program, p, again, primary, second);
    } else {
      FailureRepeats(table, program, p, registration, again);
    }
  }

  lemma FailureRepeats(table: Table, program: Program, p: Payload, registration: string, again: string)
    requires Shape(table) && FreshRegistration(table, registration) && p.person.email != "" && program.active
    requires Capture(table, Some(program), p, registration).participants.Err?
    ensures var once := Capture(table, Some(program), p, registration);
            Capture(once.table, Some(program), p, again) == once.(created := false)
  {
    PrimaryKeepsShape(table, program, p, registration);
    var (stored, id, _) := StorePrimary(table, program, p, registration);
    EmailIsFound(stored, program.id, p.person.email, id);
    assert ApplyPayload(stored[id], program, p) == stored[id] && stored[id := stored[id]] == stored;
    assert StorePrimary(stored, program, p, again) == (stored, id, false);
    hide Shape, StorePrimary, SecondParticipant;
  }

  /** The table holds the rows a capture of this form leaves. */
  predicate Holds(table: Table, program: Program, p: Payload, primary: nat, second: Option<nat>) {
    && primary < |table| && table[primary].program == program.id && table[primary].Email() == p.person.email
    && ApplyPayload(table[primary], program, p) == table[primary]
    && (second.Some? <==> SecondParticipant(p).Some?)
    && (second.Some? ==>
          && second.value < |table| && !table[second.value].isPrimary
          && table[second.value].registration == table[primary].registration
          && table[second.value].program == program.id
          && table[second.value].(person := SecondParticipant(p).value, shared := p.shared,
                                  tags := table[primary].tags + ["Second Participant"]) == table[second.value])
  }

  lemma RowsLeft(table: Table, program: Program, p: Payload, registration: string)
    requires Shape(table) && FreshRegistration(table, registration) && p.person.email != "" && program.active
    requires !OverwritesItself(table, program, p)
    requires Capture(table, Some(program), p, registration).participants.Ok?
    ensures var once := Capture(table, Some(program), p, registration);
            Holds(once.table, program, p, once.participants.value.0, once.participants.value.1)
  {
    PrimaryKeepsShape(table, program, p, registration);
    var (stored, id, _) := StorePrimary(table, program, p, registration);
    assert ApplyPayload(stored[id], program, p) == stored[id];
    assert SecondParticipant(p).Some? ==> stored[id].isPrimary;
    if SecondParticipant(p).Some? {
      StoreSecondLeaves(stored, program, p, id);
    }
    hide Shape, StorePrimary, StoreSecond, SecondParticipant;
  }

  lemma RowsAreFound(
    table: Table, program: Program, p: Payload, again: string, primary: nat, second: Option<nat>)
    requires Shape(table) && p.person.email != "" && program.active && Holds(table, program, p, primary, second)
    ensures Capture(table, Some(program), p, again) == Outcome(table, Ok((primary, second)), false)
  {
    EmailIsFound(table, program.id, p.person.email, primary);
    assert table[primary := table[primary]] == table;
    assert StorePrimary(table, program, p, again) == (table, primary, false);
    if second.Some? {
      SecondIsFound(table, second.value);
      assert table[second.value := table[second.value]] == table;
    }
    hide Shape, StorePrimary, SecondParticipant;
  }
}
