/** The Trade tables (app/models/trade_lead.py, app/repositories/trade_repo.py).  Rows are
    never deleted; a row's id is its place in the table, and rows are created in that
    order.  Emails are already stripped and lower-case. */
module TradeRepo {
  import opened Common

  datatype CrmStatus = CrmPending | CrmSynced | CrmFailed | CrmSkipped
  datatype ReviewStatus = ReviewPending | ReviewApproved | ReviewRejected
  datatype Eligibility = NotRequested | Pending | Submitted

  datatype Person = Person(firstName: string, lastName: string, email: string, phone: string, jobTitle: string)

  /** `shared` stands for the registration-level answers. */
  datatype Participant = Participant(
    program: nat, registration: string, index: nat, isPrimary: bool, person: Person, shared: string,
    tags: seq<string>, crm: CrmStatus, review: ReviewStatus,
    eligibility: Eligibility, submittedAt: Option<Instant>)
  {
    function Email(): string {
      person.email
    }
  }

  type Table = seq<Participant>

  datatype Document = Document(key: string, required: bool)

  datatype Program = Program(
    id: nat, active: bool, baseTags: seq<string>, crmSyncEnabled: bool, requireApproval: bool,
    documents: seq<Document>)

  /** The partial unique index on (program, email <> ''): may row `id` hold this email? */
  predicate Taken(table: Table, program: nat, email: string, id: int) {
    email != "" && exists i :: 0 <= i < |table| && i != id && table[i].program == program && table[i].Email() == email
  }

  /** `get_by_program_email`: the first matching row's id, or -1. */
  function FindEmail(table: Table, program: nat, email: string): (id: int)
    ensures -1 <= id < |table|
    ensures id >= 0 ==> email != "" && table[id].program == program && table[id].Email() == email
    ensures id < 0 ==> !Taken(table, program, email, -1)
  {
    if email == "" then -1 else FindFrom(table, program, email, 0)
  }

  function FindFrom(table: Table, program: nat, email: string, from: nat): (id: int)
    requires from <= |table|
    ensures id == -1 || from <= id < |table|
    ensures id >= 0 ==> table[id].program == program && table[id].Email() == email
    ensures id < 0 ==> forall i :: from <= i < |table| ==> !(table[i].program == program && table[i].Email() == email)
    decreases |table| - from
  {
    if from == |table| then -1
    else if table[from].program == program && table[from].Email() == email then from
    else FindFrom(table, program, email, from + 1)
  }

  /** The registration's first row that is not primary, or -1. */
  function FindSecond(table: Table, registration: string, from: nat): (id: int)
    requires from <= |table|
    ensures id == -1 || from <= id < |table|
    ensures id >= 0 ==> table[id].registration == registration && !table[id].isPrimary
    ensures id < 0 ==>
              forall i :: from <= i < |table| ==> !(table[i].registration == registration && !table[i].isPrimary)
    decreases |table| - from
  {
    if from == |table| then -1
    else if table[from].registration == registration && !table[from].isPrimary then from
    else FindSecond(table, registration, from + 1)
  }
}
