/** Eligibility documents (app/services/trade_eligibility.py). */
module TradeEligibility {
  import opened Common
  import opened TradeRepo

  /** Rows of `trade_documents`: (registration, document key) to the stored object. */
  type Documents = map<(string, string), string>

  /** `orphans` are superseded objects whose deletion failed. */
  datatype Store = Store(docs: Documents, objects: set<string>, orphans: set<string>)

  datatype Error = UnknownDocumentKey | RegistrationNotFound | StorageUnavailable

  /** What one upload meets: the fresh object key, whether storage takes the upload and
      the deletion, and the clock. */
  datatype Upload = Upload(objectKey: string, uploads: bool, deletes: bool, now: Instant)

  function DocumentKeys(program: Program): set<string> {
    set d | d in program.documents :: d.key
  }

  function RequiredKeys(program: Program): set<string> {
    set d | d in program.documents && d.required :: d.key
  }

  function ComputeEligibilityStatus(present: set<string>, program: Program): Eligibility {
    var required := RequiredKeys(program);
    if present == {} then NotRequested
    else if required != {} && required <= present then Submitted
    else if required == {} then Submitted
    else Pending
  }

  function PresentKeys(docs: Documents, registration: string): set<string> {
    set d | d in docs && d.0 == registration :: d.1
  }

  predicate Registered(table: Table, registration: string) {
    exists i :: 0 <= i < |table| && table[i].registration == registration
  }

  function Refusal(table: Table, program: Program, registration: string, key: string, up: Upload): Option<Error> {
    if key !in DocumentKeys(program) then Some(UnknownDocumentKey)
    else if !Registered(table, registration) then Some(RegistrationNotFound)
    else if !up.uploads then Some(StorageUnavailable)
    else None
  }

  function WithStatus(row: Participant, status: Eligibility, now: Instant): Participant {
    row.(eligibility := status,
         submittedAt := if status == Submitted && row.submittedAt.None? then Some(now) else row.submittedAt)
  }

  /** Every participant of the registration given the status. */
  function Update(table: Table, registration: string, status: Eligibility, now: Instant): (after: Table)
    ensures |after| == |table|
  {
    seq(|table|, i requires 0 <= i < |table| =>
      if table[i].registration == registration then WithStatus(table[i], status, now) else table[i])
  }

  function Replace(s: Store, registration: string, key: string, up: Upload): Store {
    var slot := (registration, key);
    var superseded := if slot in s.docs then {s.docs[slot]} else {};
    Store(s.docs[slot := up.objectKey],
          s.objects + {up.objectKey} - (if up.deletes then superseded else {}),
          s.orphans + (if up.deletes then {} else superseded))
  }

  class EligibilityService {
    var table: Table
    var store: Store

    method SubmitDocument(program: Program, registration: string, key: string, up: Upload)
      returns (status: Option<Eligibility>, error: Option<Error>)
      modifies this
      ensures error == Refusal(old(table), program, registration, key, up) && (status.None? <==> error.Some?)
      ensures error.Some? ==> table == old(table) && store == old(store)
      ensures error.None? ==>
                && store == Replace(old(store), registration, key, up)
                && status == Some(ComputeEligibilityStatus(PresentKeys(store.docs, registration), program))
                && table == Update(old(table), registration, status.value, up.now)
    {
      if key !in DocumentKeys(program) {
        return None, Some(UnknownDocumentKey);
      }
      if !Registered(table, registration) {
        return None, Some(RegistrationNotFound);
      }
      if !up.uploads {
        return None, Some(StorageUnavailable);
      }
      store := store.(objects := store.objects + {up.objectKey});
      var slot := (registration, key);
      if slot in store.docs {
        if up.deletes {
          store := store.(objects := store.objects - {store.docs[slot]});
        } else {
          store := store.(orphans := store.orphans + {store.docs[slot]});
        }
        store := store.(docs := store.docs[slot := up.objectKey]);
      } else {
        store := store.(docs := store.docs[slot := up.objectKey]);
      }
      var newStatus := ComputeEligibilityStatus(PresentKeys(store.docs, registration), program);
      ghost var whole := Update(table, registration, newStatus, up.now);
      for i := 0 to |table|
        invariant |table| == |old(table)|
        invariant forall k :: 0 <= k < |table| ==> table[k] == if k < i then whole[k] else old(table)[k]
        invariant store == Replace(old(store), registration, key, up)
      {
        if table[i].registration == registration {
          table := table[i := WithStatus(table[i], newStatus, up.now)];
        }
      }
      assert table == whole;
      return Some(newStatus), None;
    }
  }

  // Status

  function Rank(e: Eligibility): nat {
    match e case NotRequested => 0 case Pending => 1 case Submitted => 2
  }

  /** More documents never take a status back. */
  lemma StatusClimbsWithKeys(fewer: set<string>, more: set<string>, program: Program)
    requires fewer <= more
    ensures Rank(ComputeEligibilityStatus(fewer, program)) <= Rank(ComputeEligibilityStatus(more, program))
  {
  }

  /** Submitted means: something is in, and nothing required is missing. */
  lemma SubmittedIff(present: set<string>, program: Program)
    ensures ComputeEligibilityStatus(present, program) == Submitted
       <==> present != {} && forall d :: d in program.documents && d.required ==> d.key in present
  {
    if present != {} && forall d :: d in program.documents && d.required ==> d.key in present {
      assert RequiredKeys(program) <= present;
    }
    if ComputeEligibilityStatus(present, program) == Submitted {
      forall d | d in program.documents && d.required ensures d.key in present {
        assert d.key in RequiredKeys(program);
      }
    }
  }

  /** The other two: nothing is in, or something is but not all that is required. */
  lemma StatusIs(present: set<string>, program: Program)
    ensures ComputeEligibilityStatus(present, program) == NotRequested <==> present == {}
    ensures ComputeEligibilityStatus(present, program) == Pending
       <==> present != {} && exists d :: d in program.documents && d.required && d.key !in present
  {
    SubmittedIff(present, program);
  }

  /** Why an upload is refused: no document of the program has the key, else no row is of the
      registration, else storage does not take it. */
  lemma RefusedIff(table: Table, program: Program, registration: string, key: string, up: Upload)
    ensures var asked := exists d :: d in program.documents && d.key == key;
            var known := exists row :: row in table && row.registration == registration;
            var error := Refusal(table, program, registration, key, up);
            && (error == Some(UnknownDocumentKey) <==> !asked)
            && (error == Some(RegistrationNotFound) <==> asked && !known)
            && (error == Some(StorageUnavailable) <==> asked && known && !up.uploads)
  {
    assert Registered(table, registration) <==> exists row :: row in table && row.registration == registration;
  }

  /** An upload, as rows: the document is stored under its key and no other is touched, and
      every participant of the registration is submitted if all that is required is in and
      pending if not, with the first time that it was submitted. */
  lemma UploadWrites(table: Table, s: Store, program: Program, registration: string, key: string, up: Upload, i: nat)
    requires i < |table|
    ensures var docs := Replace(s, registration, key, up).docs;
            var status := ComputeEligibilityStatus(PresentKeys(docs, registration), program);
            var complete := forall d :: d in program.documents && d.required ==> (registration, d.key) in docs;
            var row, after := table[i], Update(table, registration, status, up.now)[i];
            && (registration, key) in docs && docs[(registration, key)] == up.objectKey
            && docs.Keys == s.docs.Keys + {(registration, key)}
            && (forall slot :: slot in s.docs && slot != (registration, key) ==> docs[slot] == s.docs[slot])
            && status == (if complete then Submitted else Pending)
            && after.(eligibility := row.eligibility, submittedAt := row.submittedAt) == row
            && (if row.registration == registration
                then && after.eligibility == status
                     && after.submittedAt == (if complete && row.submittedAt.None? then Some(up.now)
                                              else row.submittedAt)
                else after == row)
  {
    var docs := Replace(s, registration, key, up).docs;
    var present := PresentKeys(docs, registration);
    assert key in present by {
      assert (registration, key) in docs;
    }
    forall k ensures k in present <==> (registration, k) in docs {
      assert k in present ==> exists d :: d in docs && d.0 == registration && d.1 == k;
      assert (registration, k) in docs ==> (registration, k).1 in present;
    }
    SubmittedIff(present, program);
    StatusIs(present, program);
    hide ComputeEligibilityStatus, PresentKeys;
  }

  // Objects

  /** Every row names a live object, no two rows the same one, and the live objects no row
      names are exactly the orphans. */
  ghost predicate Accounted(s: Store) {
    && s.docs.Values <= s.objects
    && s.objects - s.docs.Values == s.orphans
    && (forall a, b :: a in s.docs && b in s.docs && s.docs[a] == s.docs[b] ==> a == b)
  }

  lemma WithoutOrphans(s: Store)
    requires Accounted(s) && s.orphans == {}
    ensures s.objects == s.docs.Values
    ensures forall a, b :: a in s.docs && b in s.docs && s.docs[a] == s.docs[b] ==> a == b
  {
    forall v | v in s.objects ensures v in s.docs.Values {
      assert v in s.objects - s.docs.Values <==> v in s.orphans;
    }
  }

  lemma ReplaceKeepsAccount(s: Store, registration: string, key: string, up: Upload)
    requires Accounted(s) && up.objectKey !in s.objects
    ensures Accounted(Replace(s, registration, key, up))
    ensures PresentKeys(Replace(s, registration, key, up).docs, registration)
         == PresentKeys(s.docs, registration) + {key}
    ensures forall other :: other != registration ==>
                              PresentKeys(Replace(s, registration, key, up).docs, other) == PresentKeys(s.docs, other)
  {
    var slot := (registration, key);
    var after := Replace(s, registration, key, up);
    assert s.orphans <= s.objects;
    forall a | a in s.docs && a != slot ensures s.docs[a] in after.docs.Values {
      assert after.docs[a] == s.docs[a];
    }
    forall v | v in s.docs.Values ensures v in after.docs.Values || (slot in s.docs && v == s.docs[slot]) {
      var a :| a in s.docs && s.docs[a] == v;
    }
    if slot in s.docs {
      forall a | a in after.docs ensures after.docs[a] != s.docs[slot] {
        if a != slot {
          assert after.docs[a] == s.docs[a];
        }
      }
    }
    assert up.objectKey in after.docs.Values by {
      assert after.docs[slot] == up.objectKey;
    }
    forall v | v in after.docs.Values ensures v in after.objects {
      var a :| a in after.docs && after.docs[a] == v;
    }
    forall v ensures v in after.objects - after.docs.Values <==> v in after.orphans {
    }
    PresentAfter(s, registration, key, up);
  }

  lemma PresentAfter(s: Store, registration: string, key: string, up: Upload)
    ensures PresentKeys(Replace(s, registration, key, up).docs, registration)
         == PresentKeys(s.docs, registration) + {key}
    ensures forall other :: other != registration ==>
                              PresentKeys(Replace(s, registration, key, up).docs, other) == PresentKeys(s.docs, other)
  {
    var after := Replace(s, registration, key, up);
    var slot := (registration, key);
    assert after.docs.Keys == s.docs.Keys + {slot};
    assert slot in after.docs;
  }
}
