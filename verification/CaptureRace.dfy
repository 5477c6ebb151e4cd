/** `capture_lead_created` as a race (app/services/lead_service.py): any number of
    requests, each of which looks its (campaign, email) key up, inserts or meets the
    unique index, rolls back, looks again and updates, and at the end reads the row back
    that it committed.  A trace interleaves their database turns in any order, and may
    delete rows in between.
 */
module CaptureRace {
  import opened Common

  datatype Key = Key(campaign: nat, email: string)

  datatype Phase =
    | Start
    | Missed
    | Found(id: nat)
    | Conflicted
    | Refetched(id: nat)
    | Stored(id: nat, created: bool)
    | Done(id: nat, created: bool)
    | Failed
  {
    /** Turns left at most. */
    function Rank(): nat {
      match this
      case Start => 5
      case Missed => 4
      case Conflicted => 3
      case Found(_) => 2
      case Refetched(_) => 2
      case Stored(_, _) => 1
      case Done(_, _) => 0
      case Failed => 0
    }

    predicate HasId() {
      Found? || Refetched? || Stored? || Done?
    }

    /** It made the row `id`, whether or not it has read it back yet. */
    predicate Creates() {
      (Stored? || Done?) && created
    }
  }

  datatype Request = Request(key: Key, phase: Phase)

  datatype State = State(rows: map<nat, Key>, nextId: nat, requests: seq<Request>)

  datatype Action = Turn(request: nat) | Delete(row: nat)

  ghost predicate Has(rows: map<nat, Key>, key: Key) {
    exists id :: id in rows && rows[id] == key
  }

  ghost function Lookup(rows: map<nat, Key>, key: Key): (id: Option<nat>)
    ensures id.Some? <==> Has(rows, key)
    ensures id.Some? ==> id.value in rows && rows[id.value] == key
  {
    if Has(rows, key) then var id :| id in rows && rows[id] == key; Some(id) else None
  }

  /** One database turn of request `p`.  A commit and the refresh that follows it are two
      turns, and the refresh raises when the row is gone. */
  ghost function Step(s: State, p: nat): State
    requires p < |s.requests|
  {
    var Request(key, phase) := s.requests[p];
    var hit := Lookup(s.rows, key);
    match phase
    case Start => Move(s, p, if hit.Some? then Found(hit.value) else Missed)
    case Missed =>
      if hit.Some? then Move(s, p, Conflicted)
      else Move(s, p, Stored(s.nextId, true)).(rows := s.rows[s.nextId := key], nextId := s.nextId + 1)
    case Conflicted => Move(s, p, if hit.Some? then Refetched(hit.value) else Failed)
    case Found(id) => Move(s, p, if id in s.rows then Stored(id, false) else Failed)
    case Refetched(id) => Move(s, p, if id in s.rows then Stored(id, false) else Failed)
    case Stored(id, created) => Move(s, p, if id in s.rows then Done(id, created) else Failed)
    case _ => s
  }

  function Move(s: State, p: nat, phase: Phase): State
    requires p < |s.requests|
  {
    s.(requests := s.requests[p := s.requests[p].(phase := phase)])
  }

  ghost function Act(s: State, action: Action): State {
    match action
    case Turn(p) => if p < |s.requests| then Step(s, p) else s
    case Delete(id) => s.(rows := s.rows - {id})
  }

  ghost function Exec(s: State, trace: seq<Action>): State {
    if trace == [] then s else Act(Exec(s, trace[..|trace| - 1]), trace[|trace| - 1])
  }

  predicate NoDeletes(trace: seq<Action>) {
    forall i :: 0 <= i < |trace| ==> trace[i].Turn?
  }

  ghost predicate Unique(s: State) {
    && (forall id :: id in s.rows ==> id < s.nextId)
    && (forall i, j :: i in s.rows && j in s.rows && s.rows[i] == s.rows[j] ==> i == j)
  }

  ghost predicate Initial(s: State) {
    Unique(s) && forall p :: 0 <= p < |s.requests| ==> s.requests[p].phase == Start
  }

  /** The index keeps one row per key, whatever is deleted. */
  lemma {:induction false} OneRowPerKey(s: State, trace: seq<Action>)
    requires Unique(s)
    ensures Unique(Exec(s, trace))
  {
    if trace != [] {
      OneRowPerKey(s, trace[..|trace| - 1]);
    }
  }

  /** What every interleaving without deletes keeps; `rows` are the rows at the start. */
  ghost predicate Inv(rows: map<nat, Key>, s: State) {
    && Unique(s)
    && (forall id :: id in rows ==> id in s.rows && s.rows[id] == rows[id])
    && (forall p :: 0 <= p < |s.requests| ==> Sound(rows, s, s.requests[p]))
    && (forall id :: id in s.rows && id !in rows ==>
          exists p :: 0 <= p < |s.requests| && MadeRow(s.requests[p], id))
    && (forall p, q :: 0 <= p < q < |s.requests| ==> !SameCreation(s.requests[p], s.requests[q]))
  }

  ghost predicate Sound(rows: map<nat, Key>, s: State, r: Request) {
    && !r.phase.Failed?
    && (r.phase.HasId() ==> r.phase.id in s.rows && s.rows[r.phase.id] == r.key)
    && (r.phase.Conflicted? ==> Has(s.rows, r.key))
    && (r.phase.Creates() ==> r.phase.id !in rows)
  }

  predicate MadeRow(r: Request, id: nat) {
    r.phase.Creates() && r.phase.id == id
  }

  predicate SameCreation(a: Request, b: Request) {
    a.phase.Creates() && b.phase.Creates() && a.phase.id == b.phase.id
  }

  lemma SoundIsStable(rows: map<nat, Key>, s: State, t: State, r: Request)
    requires Sound(rows, s, r)
    requires forall id :: id in s.rows ==> id in t.rows && t.rows[id] == s.rows[id]
    ensures Sound(rows, t, r)
  {
    if r.phase.Conflicted? {
      var id :| id in s.rows && s.rows[id] == r.key;
      assert id in t.rows && t.rows[id] == r.key;
    }
  }

  lemma StepIsSound(rows: map<nat, Key>, s: State, p: nat)
    requires Unique(s) && (forall id :: id in rows ==> id in s.rows)
    requires p < |s.requests| && Sound(rows, s, s.requests[p])
    ensures var t := Step(s, p);
            && Unique(t)
            && (forall id :: id in s.rows ==> id in t.rows && t.rows[id] == s.rows[id])
            && |t.requests| == |s.requests| && t.requests[p].key == s.requests[p].key
            && (forall q :: 0 <= q < |s.requests| && q != p ==> t.requests[q] == s.requests[q])
            && Sound(rows, t, t.requests[p])
            && (Created(t, p) && !Created(s, p) ==> MadeRow(t.requests[p], s.nextId) && s.nextId !in s.rows)
            && (Created(s, p) ==> MadeRow(t.requests[p], s.requests[p].phase.id))
            && (t.rows == s.rows || (t.rows == s.rows[s.nextId := s.requests[p].key]
                                     && MadeRow(t.requests[p], s.nextId)))
  {
    var t := Step(s, p);
    hide Lookup;
    if s.requests[p].phase.Missed? && Lookup(s.rows, s.requests[p].key).None? {
      assert s.nextId !in s.rows;
      assert s.nextId !in rows;
      assert t.rows[s.nextId] == s.requests[p].key;
    } else {
      assert t.rows == s.rows;
    }
  }

  lemma StepKeepsInv(rows: map<nat, Key>, s: State, p: nat)
    requires Inv(rows, s) && p < |s.requests|
    ensures Inv(rows, Step(s, p))
  {
    StepIsSound(rows, s, p);
    var t := Step(s, p);
    hide Step, Lookup;
    forall q | 0 <= q < |t.requests| ensures Sound(rows, t, t.requests[q]) {
      if q != p {
        SoundIsStable(rows, s, t, s.requests[q]);
      }
    }
    hide Sound;
    forall id | id in t.rows && id !in rows
      ensures exists q :: 0 <= q < |t.requests| && MadeRow(t.requests[q], id)
    {
      if id in s.rows {
        var q :| 0 <= q < |s.requests| && MadeRow(s.requests[q], id);
        assert MadeRow(t.requests[q], id);
      } else {
        assert MadeRow(t.requests[p], id);
      }
    }
    forall a, b | 0 <= a < b < |t.requests| ensures !SameCreation(t.requests[a], t.requests[b]) {
      assert !SameCreation(s.requests[a], s.requests[b]);
      var q := if a == p then b else a;
      if Created(t, p) && !Created(s, p) && Created(t, q) && q != p {
        CreatedIsStored(rows, s, q);
      }
    }
  }

  lemma CreatedIsStored(rows: map<nat, Key>, s: State, q: nat)
    requires Inv(rows, s) && Created(s, q)
    ensures s.requests[q].phase.id in s.rows
  {
    assert Sound(rows, s, s.requests[q]);
  }

  lemma {:induction false} ExecKeepsInv(s: State, trace: seq<Action>)
    requires Initial(s) && NoDeletes(trace)
    ensures Inv(s.rows, Exec(s, trace)) && SameKeys(s, Exec(s, trace))
  {
    if trace == [] {
      assert forall p :: 0 <= p < |s.requests| ==> s.requests[p].phase == Start;
    } else {
      var before := Exec(s, trace[..|trace| - 1]);
      ExecKeepsInv(s, trace[..|trace| - 1]);
      var p := trace[|trace| - 1].request;
      hide Initial, Inv, Step;
      if p < |before.requests| {
        StepKeepsInv(s.rows, before, p);
        StepKeepsKeys(before, p);
      }
    }
  }

  lemma StepKeepsKeys(s: State, p: nat)
    requires p < |s.requests|
    ensures SameKeys(s, Step(s, p))
  {
    hide Lookup;
  }

  predicate SameKeys(s: State, t: State) {
    && |s.requests| == |t.requests|
    && forall p :: 0 <= p < |s.requests| ==> s.requests[p].key == t.requests[p].key
  }

  predicate Created(s: State, p: int) {
    0 <= p < |s.requests| && s.requests[p].phase.Creates()
  }

  predicate IsFor(s: State, p: int, key: Key) {
    0 <= p < |s.requests| && s.requests[p].key == key
  }

  predicate Finished(s: State, p: int, key: Key) {
    0 <= p < |s.requests| && s.requests[p].phase.Done? && s.requests[p].key == key
  }

  /** In every interleaving without deletes no request fails, and the finished requests
      for one key all return one row: the only one with that key. */
  lemma RequestsShareOneRow(s: State, trace: seq<Action>, p: nat, q: nat)
    requires Initial(s) && NoDeletes(trace) && p < |s.requests| && q < |s.requests|
    ensures var t := Exec(s, trace);
            var key := s.requests[p].key;
            && |t.requests| == |s.requests| && !t.requests[p].phase.Failed?
            && (Finished(t, p, key) ==>
                  && (forall id :: id in t.rows ==> (t.rows[id] == key <==> id == t.requests[p].phase.id))
                  && t.requests[p].phase.id in t.rows
                  && (Finished(t, q, key) ==> t.requests[q].phase.id == t.requests[p].phase.id))
  {
    ExecKeepsInv(s, trace);
    var t := Exec(s, trace);
    assert Sound(s.rows, t, t.requests[p]) && Sound(s.rows, t, t.requests[q]);
    hide Exec;
  }

  /** Once a request for a key is finished, one and only one request has created the row,
      and will report it when it is finished itself - and none does when the row was there
      before. */
  lemma ExactlyOneCreates(s: State, trace: seq<Action>, p: nat)
    requires Initial(s) && NoDeletes(trace) && p < |s.requests|
    requires Finished(Exec(s, trace), p, s.requests[p].key)
    ensures var t := Exec(s, trace);
            var key := s.requests[p].key;
            && (Has(s.rows, key) ==> forall q :: IsFor(t, q, key) ==> !Created(t, q))
            && (!Has(s.rows, key) ==>
                  exists q :: IsFor(t, q, key) && Created(t, q)
                              && forall r :: IsFor(t, r, key) && Created(t, r) ==> r == q)
  {
    ExecKeepsInv(s, trace);
    var t, key := Exec(s, trace), s.requests[p].key;
    hide Exec;
    var id := t.requests[p].phase.id;
    assert Sound(s.rows, t, t.requests[p]);
    forall q | IsFor(t, q, key) && Created(t, q) ensures t.requests[q].phase.id == id && id !in s.rows {
      assert Sound(s.rows, t, t.requests[q]);
    }
    if Has(s.rows, key) {
      var before :| before in s.rows && s.rows[before] == key;
      assert before == id;
    } else {
      var q :| 0 <= q < |t.requests| && MadeRow(t.requests[q], id);
      assert Sound(s.rows, t, t.requests[q]);
      forall r | IsFor(t, r, key) && Created(t, r) ensures r == q {
        assert SameCreation(t.requests[q], t.requests[r]) && SameCreation(t.requests[r], t.requests[q]);
      }
      assert IsFor(t, q, key) && Created(t, q);
    }
  }

  function Turns(trace: seq<Action>, p: nat): nat {
    if trace == [] then 0
    else Turns(trace[..|trace| - 1], p) + if trace[|trace| - 1] == Turn(p) then 1 else 0
  }

  /** No request waits for another: whatever the others do, five turns finish it. */
  lemma {:induction false} FiveTurnsFinish(s: State, trace: seq<Action>, p: nat)
    requires p < |s.requests|
    ensures |Exec(s, trace).requests| == |s.requests|
    ensures Exec(s, trace).requests[p].phase.Rank() == 0
         || Exec(s, trace).requests[p].phase.Rank() + Turns(trace, p) <= s.requests[p].phase.Rank()
    ensures Turns(trace, p) >= 5 ==> Exec(s, trace).requests[p].phase.Rank() == 0
  {
    if trace != [] {
      FiveTurnsFinish(s, trace[..|trace| - 1], p);
    }
  }

  // When a request fails, deletes included

  /** The row request `p` needs at its next turn is gone. */
  ghost predicate RowIsGone(s: State, p: nat)
    requires p < |s.requests|
  {
    match s.requests[p].phase
    case Conflicted => !Has(s.rows, s.requests[p].key)
    case Found(id) => id !in s.rows
    case Refetched(id) => id !in s.rows
    case Stored(id, _) => id !in s.rows
    case _ => false
  }

  ghost predicate GoneAt(s: State, trace: seq<Action>, p: nat, k: nat) {
    && k < |trace| && trace[k] == Turn(p) && p < |Exec(s, trace[..k]).requests|
    && RowIsGone(Exec(s, trace[..k]), p)
  }

  /** A request fails exactly when at one of its turns - the second lookup, the update or
      the read-back - the row it needs is gone. */
  lemma {:induction false} FailsIff(s: State, trace: seq<Action>, p: nat)
    requires p < |s.requests| && s.requests[p].phase == Start
    ensures |Exec(s, trace).requests| == |s.requests|
    ensures Exec(s, trace).requests[p].phase.Failed? <==> exists k :: GoneAt(s, trace, p, k)
  {
    if trace != [] {
      var n := |trace| - 1;
      FailsIff(s, trace[..n], p);
      GoneAtPrefix(s, trace, p);
      hide GoneAt;
      StepFailsIff(Exec(s, trace[..n]), trace[n], p);
      hide Exec, Act, RowIsGone;
    }
  }

  lemma StepFailsIff(s: State, action: Action, p: nat)
    requires p < |s.requests|
    ensures |Act(s, action).requests| == |s.requests|
    ensures Act(s, action).requests[p].phase.Failed?
       <==> s.requests[p].phase.Failed? || (action == Turn(p) && RowIsGone(s, p))
  {
    hide Lookup;
  }

  lemma GoneAtPrefix(s: State, trace: seq<Action>, p: nat)
    requires trace != []
    ensures var n := |trace| - 1;
            (exists k :: GoneAt(s, trace, p, k))
            <==> (exists k :: GoneAt(s, trace[..n], p, k)) || GoneAt(s, trace, p, n)
  {
    var n := |trace| - 1;
    forall k: nat | k < n ensures GoneAt(s, trace[..n], p, k) <==> GoneAt(s, trace, p, k) {
      assert trace[..n][..k] == trace[..k];
    }
    assert forall k: nat :: k > n ==> !GoneAt(s, trace, p, k);
    assert forall k: nat :: k >= n ==> !GoneAt(s, trace[..n], p, k);
    hide GoneAt;
  }

  /** At step `d` a row with this key is deleted. */
  ghost predicate DeletesAt(s: State, trace: seq<Action>, key: Key, d: nat) {
    && d < |trace| && trace[d].Delete?
    && trace[d].row in Exec(s, trace[..d]).rows && Exec(s, trace[..d]).rows[trace[d].row] == key
  }

  /** The row request `p` has found, run into or stored is there. */
  ghost predicate RowIsThere(s: State, p: nat)
    requires p < |s.requests|
  {
    match s.requests[p].phase
    case Conflicted => Has(s.rows, s.requests[p].key)
    case Found(id) => id in s.rows && s.rows[id] == s.requests[p].key
    case Refetched(id) => id in s.rows && s.rows[id] == s.requests[p].key
    case Stored(id, _) => id in s.rows && s.rows[id] == s.requests[p].key
    case _ => true
  }

  /** Ids are not used twice: a row in hand is the request's own, or gone for good. */
  ghost predicate HoldsOwn(s: State, p: nat)
    requires p < |s.requests|
  {
    var r := s.requests[p];
    r.phase.HasId() ==> r.phase.id < s.nextId && (r.phase.id in s.rows ==> s.rows[r.phase.id] == r.key)
  }

  /** A row is only ever missing because it was deleted after the request's last turn. */
  lemma {:induction false} GoneWasDeleted(s: State, trace: seq<Action>, p: nat) returns (j: nat, d: nat)
    requires Unique(s) && p < |s.requests| && s.requests[p].phase == Start
    ensures |Exec(s, trace).requests| == |s.requests| && Exec(s, trace).requests[p].key == s.requests[p].key
    ensures HoldsOwn(Exec(s, trace), p)
    ensures !RowIsThere(Exec(s, trace), p) ==>
              j < d < |trace| && trace[j] == Turn(p) && DeletesAt(s, trace, s.requests[p].key, d)
              && forall k :: j < k < |trace| ==> trace[k] != Turn(p)
  {
    j, d := 0, 0;
    if trace != [] {
      var n := |trace| - 1;
      var before := Exec(s, trace[..n]);
      j, d := GoneWasDeleted(s, trace[..n], p);
      OneRowPerKey(s, trace[..n]);
      if DeletesAt(s, trace[..n], s.requests[p].key, d) {
        assert trace[..n][..d] == trace[..d] && trace[..n][d] == trace[d];
      }
      StepKeepsRow(before, trace[n], p);
      assert Exec(s, trace) == Act(before, trace[n]);
      assert trace[n].Delete? && trace[n].row in before.rows && before.rows[trace[n].row] == s.requests[p].key ==>
          DeletesAt(s, trace, s.requests[p].key, n);
      assert forall k :: 0 <= k < n ==> trace[..n][k] == trace[k];
      hide Exec, Act, RowIsThere, Unique, DeletesAt, HoldsOwn;
      if RowIsThere(before, p) && !RowIsThere(Act(before, trace[n]), p) {
        d := n;
        j := LastTurn(s, trace[..n], p);
      }
    }
  }

  lemma StepKeepsRow(s: State, action: Action, p: nat)
    requires Unique(s) && p < |s.requests| && HoldsOwn(s, p)
    ensures |Act(s, action).requests| == |s.requests| && Act(s, action).requests[p].key == s.requests[p].key
    ensures HoldsOwn(Act(s, action), p)
    ensures action == Turn(p) ==> RowIsThere(Act(s, action), p)
    ensures action.Turn? && action != Turn(p) && RowIsThere(s, p) ==> RowIsThere(Act(s, action), p)
    ensures action.Delete? && RowIsThere(s, p) && !RowIsThere(Act(s, action), p) ==>
              action.row in s.rows && s.rows[action.row] == s.requests[p].key && s.requests[p].phase != Start
    ensures !action.Turn? || action.request != p ==> Act(s, action).requests[p] == s.requests[p]
  {
    hide Lookup;
    var after := Act(s, action);
    if s.requests[p].phase.Conflicted? && action != Turn(p) && Has(s.rows, s.requests[p].key) {
      var id :| id in s.rows && s.rows[id] == s.requests[p].key;
      if id in after.rows {
        assert after.rows[id] == s.requests[p].key;
      }
    }
  }

  /** A request past its start has had a turn. */
  lemma {:induction false} LastTurn(s: State, trace: seq<Action>, p: nat) returns (j: nat)
    requires p < |s.requests| && s.requests[p].phase == Start
    requires |Exec(s, trace).requests| == |s.requests| && Exec(s, trace).requests[p].phase != Start
    ensures j < |trace| && trace[j] == Turn(p)
    ensures forall k :: j < k < |trace| ==> trace[k] != Turn(p)
  {
    var n := |trace| - 1;
    if trace[n] == Turn(p) {
      j := n;
    } else {
      FailsIff(s, trace[..n], p);
      j := LastTurn(s, trace[..n], p);
    }
  }

  /** A failed request lost its row to a delete between two of its turns. */
  lemma FailureNeedsDelete(s: State, trace: seq<Action>, p: nat) returns (j: nat, d: nat, k: nat)
    requires Unique(s) && p < |s.requests| && s.requests[p].phase == Start
    requires |Exec(s, trace).requests| == |s.requests| && Exec(s, trace).requests[p].phase.Failed?
    ensures j < d < k < |trace| && trace[j] == trace[k] == Turn(p)
    ensures DeletesAt(s, trace, s.requests[p].key, d)
    ensures forall i :: j < i < k ==> trace[i] != Turn(p)
  {
    FailsIff(s, trace, p);
    k :| GoneAt(s, trace, p, k);
    j, d := GoneWasDeleted(s, trace[..k], p);
    assert trace[..k][..d] == trace[..d] && trace[..k][d] == trace[d];
    assert forall i :: 0 <= i < k ==> trace[..k][i] == trace[i];
    hide Exec;
  }

  /** Such a run: a delete between the commit and the read-back of a new row. */
  lemma DeleteCanFailACreation()
    ensures var key := Key(1, "ada@example.com");
            var s := State(map[], 0, [Request(key, Start)]);
            var trace := [Turn(0), Turn(0), Delete(0), Turn(0)];
            Initial(s) && |Exec(s, trace).requests| == 1 && Exec(s, trace).requests[0].phase == Failed
  {
    var key := Key(1, "ada@example.com");
    var s := State(map[], 0, [Request(key, Start)]);
    assert !Has(s.rows, key);
    var s1 := Act(s, Turn(0));
    var s2 := Act(s1, Turn(0));
    assert s1.requests == [Request(key, Missed)] && s2.requests == [Request(key, Stored(0, true))];
    ExecSnoc(s, [], Turn(0));
    ExecSnoc(s, [Turn(0)], Turn(0));
    ExecSnoc(s, [Turn(0), Turn(0)], Delete(0));
    ExecSnoc(s, [Turn(0), Turn(0), Delete(0)], Turn(0));
    assert [] + [Turn(0)] == [Turn(0)] && [Turn(0)] + [Turn(0)] == [Turn(0), Turn(0)];
    assert [Turn(0), Turn(0)] + [Delete(0)] == [Turn(0), Turn(0), Delete(0)];
    assert [Turn(0), Turn(0), Delete(0)] + [Turn(0)] == [Turn(0), Turn(0), Delete(0), Turn(0)];
  }

  /** And one between the conflict and the second lookup. */
  lemma DeleteCanFailARequest()
    ensures var key := Key(1, "ada@example.com");
            var s := State(map[], 0, [Request(key, Start), Request(key, Start)]);
            var trace := [Turn(0), Turn(1), Turn(1), Turn(0), Delete(0), Turn(0)];
            && Initial(s)
            && |Exec(s, trace).requests| == 2 && Exec(s, trace).requests[0].phase == Failed
  {
    var key := Key(1, "ada@example.com");
    var s := State(map[], 0, [Request(key, Start), Request(key, Start)]);
    assert !Has(s.rows, key);
    var s1, s2, s3 := Act(s, Turn(0)), Act(Act(s, Turn(0)), Turn(1)), Act(Act(Act(s, Turn(0)), Turn(1)), Turn(1));
    assert s1.requests == [Request(key, Missed), Request(key, Start)] && s2.requests[1].phase == Missed;
    assert s3.rows[0] == key && Has(s3.rows, key);
    var s4 := Act(s3, Turn(0));
    assert s4.requests[0].phase == Conflicted;
    var s5 := Act(s4, Delete(0));
    assert !Has(s5.rows, key);
    assert s3.requests == [Request(key, Missed), Request(key, Stored(0, true))];
    assert s5.requests == [Request(key, Conflicted), Request(key, Stored(0, true))];
    var t3 := [Turn(0), Turn(1), Turn(1)];
    assert Exec(s, t3) == s3 by {
      ExecSnoc(s, [], Turn(0));
      ExecSnoc(s, [Turn(0)], Turn(1));
      ExecSnoc(s, [Turn(0), Turn(1)], Turn(1));
      assert [] + [Turn(0)] == [Turn(0)];
      assert [Turn(0)] + [Turn(1)] == [Turn(0), Turn(1)];
      assert [Turn(0), Turn(1)] + [Turn(1)] == t3;
    }
    ExecSnoc(s, t3, Turn(0));
    ExecSnoc(s, t3 + [Turn(0)], Delete(0));
    ExecSnoc(s, t3 + [Turn(0)] + [Delete(0)], Turn(0));
    assert t3 + [Turn(0)] + [Delete(0)] + [Turn(0)] == [Turn(0), Turn(1), Turn(1), Turn(0), Delete(0), Turn(0)];
  }

  lemma ExecSnoc(s: State, trace: seq<Action>, action: Action)
    ensures Exec(s, trace + [action]) == Act(Exec(s, trace), action)
  {
    assert (trace + [action])[..|trace|] == trace;
  }
}
