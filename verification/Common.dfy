/** Shared small types, and the work lists and counts over a table's rows. */
module Common {

  datatype Option<+T> = None | Some(value: T)

  /** An instant in microseconds, the resolution of the source's timestamps. */
  type Instant = int

  /** The first `limit` rows from `from` on that are wanted, oldest first. */
  function ListWhere<T>(rows: seq<T>, wanted: T -> bool, from: nat, limit: nat): (ids: seq<nat>)
    requires from <= |rows|
    ensures |ids| <= limit && forall k :: 0 <= k < |ids| ==> from <= ids[k] < |rows|
    decreases |rows| - from
  {
    if from == |rows| || limit == 0 then []
    else if wanted(rows[from]) then [from] + ListWhere(rows, wanted, from + 1, limit - 1)
    else ListWhere(rows, wanted, from + 1, limit)
  }

  /** Distinct rows, all wanted. */
  ghost predicate Listed<T>(rows: seq<T>, wanted: T -> bool, ids: seq<nat>) {
    && (forall k :: 0 <= k < |ids| ==> ids[k] < |rows| && wanted(rows[ids[k]]))
    && forall j, k :: 0 <= j < k < |ids| ==> ids[j] < ids[k]
  }

  lemma {:induction false} ListIsListed<T>(rows: seq<T>, wanted: T -> bool, from: nat, limit: nat)
    requires from <= |rows|
    ensures Listed(rows, wanted, ListWhere(rows, wanted, from, limit))
    decreases |rows| - from
  {
    if from < |rows| && limit > 0 {
      ListIsListed(rows, wanted, from + 1, if wanted(rows[from]) then limit - 1 else limit);
    }
  }

  /** Oldest first: a wanted row that is left out comes after `limit` listed ones. */
  lemma {:induction false} OldestFirst<T>(rows: seq<T>, wanted: T -> bool, from: nat, limit: nat, i: nat)
    requires from <= i < |rows| && wanted(rows[i]) && i !in ListWhere(rows, wanted, from, limit)
    ensures var ids := ListWhere(rows, wanted, from, limit);
            |ids| == limit && forall k :: 0 <= k < |ids| ==> ids[k] < i
    decreases |rows| - from
  {
    if limit > 0 {
      var rest := ListWhere(rows, wanted, from + 1, if wanted(rows[from]) then limit - 1 else limit);
      assert ListWhere(rows, wanted, from, limit) == if wanted(rows[from]) then [from] + rest else rest;
      OldestFirst(rows, wanted, from + 1, if wanted(rows[from]) then limit - 1 else limit, i);
    }
  }

  function CountWhere<T>(rows: seq<T>, wanted: T -> bool): nat {
    if rows == [] then 0
    else CountWhere(rows[..|rows| - 1], wanted) + if wanted(rows[|rows| - 1]) then 1 else 0
  }

  lemma {:induction false} CountReplaced<T>(rows: seq<T>, wanted: T -> bool, id: nat, row: T)
    requires id < |rows|
    ensures CountWhere(rows[id := row], wanted)
         == CountWhere(rows, wanted) + (if wanted(row) then 1 else 0) - (if wanted(rows[id]) then 1 else 0)
  {
    var n := |rows| - 1;
    if id < n {
      CountReplaced(rows[..n], wanted, id, row);
      assert rows[id := row][..n] == rows[..n][id := row];
    } else {
      assert rows[id := row][..n] == rows[..n];
    }
  }

  lemma {:induction false} CountAll<T>(rows: seq<T>, more: seq<T>, wanted: T -> bool)
    ensures CountWhere(rows + more, wanted) == CountWhere(rows, wanted) + CountWhere(more, wanted)
  {
    if more == [] {
      assert rows + more == rows;
    } else {
      CountAll(rows, more[..|more| - 1], wanted);
      assert (rows + more)[..|rows + more| - 1] == rows + more[..|more| - 1];
    }
  }

  /** With everything wanted within the limit, everything wanted is listed. */
  lemma {:induction false} BacklogIsListed<T>(rows: seq<T>, wanted: T -> bool, from: nat, limit: nat, i: nat)
    requires from <= i < |rows| && wanted(rows[i])
    requires CountWhere(rows[from..], wanted) <= limit
    ensures i in ListWhere(rows, wanted, from, limit)
    decreases |rows| - from
  {
    assert rows[from..] == [rows[from]] + rows[from + 1..];
    CountAll([rows[from]], rows[from + 1..], wanted);
    assert CountWhere([rows[from]], wanted) == if wanted(rows[from]) then 1 else 0;
    if from < i {
      assert limit > 0 || !wanted(rows[from]);
      if limit == 0 {
        SomeWanted(rows, wanted, from + 1, i);
      } else {
        BacklogIsListed(rows, wanted, from + 1, if wanted(rows[from]) then limit - 1 else limit, i);
      }
    }
  }

  lemma {:induction false} SomeWanted<T>(rows: seq<T>, wanted: T -> bool, from: nat, i: nat)
    requires from <= i < |rows| && wanted(rows[i])
    ensures CountWhere(rows[from..], wanted) > 0
  {
    var tail := rows[from..];
    assert tail == tail[..i - from + 1] + tail[i - from + 1..];
    CountAll(tail[..i - from + 1], tail[i - from + 1..], wanted);
    assert tail[..i - from + 1][i - from] == rows[i];
  }
}
