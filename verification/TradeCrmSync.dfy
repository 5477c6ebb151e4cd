/** Pushing Trade participants to the CRM (app/services/trade_crm_sync.py). */
module TradeCrmSync {
  import opened Common
  import opened TradeRepo

  /** One attempt to push a row: what it sent, whether the row was approved and the
      program gated at that moment, and whether the CRM took it. */
  datatype Push = Push(row: nat, email: string, gated: bool, approved: bool, accepted: bool)

  type Programs = map<nat, Program>

  predicate Awaiting(row: Participant) {
    row.crm == CrmPending || row.crm == CrmFailed
  }

  /** May this row be pushed at all? */
  predicate Pushable(row: Participant, program: Program, enabled: bool) {
    && enabled && program.crmSyncEnabled
    && (program.requireApproval ==> row.review == ReviewApproved)
    && row.Email() != ""
  }

  function SyncRow(row: Participant, program: Program, enabled: bool, accepted: bool): Participant {
    row.(crm := if !Pushable(row, program, enabled) then CrmSkipped
                else if accepted then CrmSynced
                else CrmFailed)
  }

  function PushOf(id: nat, row: Participant, program: Program, enabled: bool, accepted: bool): seq<Push> {
    if Pushable(row, program, enabled)
    then [Push(id, row.Email(), program.requireApproval, row.review == ReviewApproved, accepted)]
    else []
  }

  datatype State = State(table: Table, pushes: seq<Push>)

  /** `sync_trade_lead` on row `id`. */
  function Sync(s: State, id: nat, program: Program, enabled: bool, accepts: nat -> bool): State
    requires id < |s.table|
  {
    State(s.table[id := SyncRow(s.table[id], program, enabled, accepts(id))],
          s.pushes + PushOf(id, s.table[id], program, enabled, accepts(id)))
  }

  /** One step of the sweep. */
  function SyncId(s: State, programs: Programs, id: nat, accepts: nat -> bool): State
    requires id < |s.table|
  {
    var program := s.table[id].program;
    if program in programs then Sync(s, id, programs[program], true, accepts) else s
  }

  function SyncIds(s: State, programs: Programs, ids: seq<nat>, accepts: nat -> bool): (r: State)
    requires forall k :: 0 <= k < |ids| ==> ids[k] < |s.table|
    ensures |r.table| == |s.table|
  {
    if ids == [] then s
    else SyncId(SyncIds(s, programs, ids[..|ids| - 1], accepts), programs, ids[|ids| - 1], accepts)
  }

  /** `sync_pending_trade`; `accepts(id)` is the CRM's answer for that row. */
  function Sweep(s: State, programs: Programs, enabled: bool, limit: nat, accepts: nat -> bool): State {
    if enabled then SyncIds(s, programs, ListWhere(s.table, Awaiting, 0, limit), accepts) else s
  }

  predicate IsSynced(row: Participant) {
    row.crm == CrmSynced
  }

  lemma SyncIdTouchesOne(s: State, programs: Programs, id: nat, accepts: nat -> bool)
    requires id < |s.table|
    ensures var after := SyncId(s, programs, id, accepts);
            && after.table == s.table[id := after.table[id]]
            && CountWhere(after.table, IsSynced)
               == CountWhere(s.table, IsSynced) + (if after.table[id].crm == CrmSynced then 1 else 0)
                  - (if s.table[id].crm == CrmSynced then 1 else 0)
  {
    hide SyncRow, PushOf, CountWhere;
    CountReplaced(s.table, IsSynced, id, SyncId(s, programs, id, accepts).table[id]);
    assert s.table[id := s.table[id]] == s.table;
  }

  lemma SyncIdsSnoc(s: State, programs: Programs, ids: seq<nat>, i: nat, accepts: nat -> bool)
    requires i < |ids| && forall k :: 0 <= k < |ids| ==> ids[k] < |s.table|
    ensures SyncIds(s, programs, ids[..i + 1], accepts)
         == SyncId(SyncIds(s, programs, ids[..i], accepts), programs, ids[i], accepts)
  {
    assert ids[..i + 1][..i] == ids[..i];
  }

  lemma {:induction false} SyncIdsLeaveOthers(
    s: State, programs: Programs, ids: seq<nat>, accepts: nat -> bool, other: nat)
    requires (forall k :: 0 <= k < |ids| ==> ids[k] < |s.table|) && other < |s.table| && other !in ids
    ensures SyncIds(s, programs, ids, accepts).table[other] == s.table[other]
  {
    if ids != [] {
      SyncIdsLeaveOthers(s, programs, ids[..|ids| - 1], accepts, other);
      assert ids[|ids| - 1] in ids;
      hide SyncRow, PushOf;
    }
  }

  /** A sweep handles each listed row exactly once, as it was when listed. */
  lemma {:induction false} SyncIdsHandleListed(
    s: State, programs: Programs, ids: seq<nat>, accepts: nat -> bool, i: nat)
    requires Listed(s.table, Awaiting, ids) && i in ids
    ensures SyncIds(s, programs, ids, accepts).table[i] == SyncId(s, programs, i, accepts).table[i]
  {
    var n := |ids| - 1;
    hide SyncRow, PushOf;
    if i == ids[n] {
      assert i !in ids[..n];
      SyncIdsLeaveOthers(s, programs, ids[..n], accepts, i);
    } else {
      assert i in ids[..n] by {
        assert ids == ids[..n] + [ids[n]];
      }
      SyncIdsHandleListed(s, programs, ids[..n], accepts, i);
    }
  }

  /** One turn of the sweep, as a step of `SyncIds`. */
  lemma SyncTurn(s: State, programs: Programs, ids: seq<nat>, i: nat, accepts: nat -> bool)
    requires i < |ids| && Listed(s.table, Awaiting, ids)
    ensures var before, after := SyncIds(s, programs, ids[..i], accepts), SyncIds(s, programs, ids[..i + 1], accepts);
            && before.table[ids[i]] == s.table[ids[i]]
            && after == (if s.table[ids[i]].program in programs
                         then Sync(before, ids[i], programs[s.table[ids[i]].program], true, accepts) else before)
            && CountWhere(after.table, IsSynced)
               == CountWhere(before.table, IsSynced) + if after.table[ids[i]].crm == CrmSynced then 1 else 0
  {
    SyncIdsLeaveOthers(s, programs, ids[..i], accepts, ids[i]);
    SyncIdsSnoc(s, programs, ids, i, accepts);
    var before := SyncIds(s, programs, ids[..i], accepts);
    hide SyncIds, SyncId, CountWhere;
    SyncIdTouchesOne(before, programs, ids[i], accepts);
  }

  class TradeSyncService {
    var table: Table
    var pushes: seq<Push>

    function Now(): State
      reads this
    {
      State(table, pushes)
    }

    method SyncTradeLead(id: nat, program: Program, enabled: bool, accepts: nat -> bool)
      requires id < |table|
      modifies this
      ensures Now() == Sync(old(Now()), id, program, enabled, accepts)
    {
      var row := table[id];
      if !enabled || !program.crmSyncEnabled {
        table := table[id := row.(crm := CrmSkipped)];
        return;
      }
      if program.requireApproval && row.review != ReviewApproved {
        table := table[id := row.(crm := CrmSkipped)];
        return;
      }
      if row.Email() == "" {
        table := table[id := row.(crm := CrmSkipped)];
        return;
      }
      var accepted := accepts(id);
      pushes := pushes + [Push(id, row.Email(), program.requireApproval, row.review == ReviewApproved, accepted)];
      table := table[id := row.(crm := if accepted then CrmSynced else CrmFailed)];
    }

    /** Returns how many more rows are synced than before. */
    method SyncPendingTrade(programs: Programs, enabled: bool, limit: nat, accepts: nat -> bool)
      returns (synced: nat)
      modifies this
      ensures Now() == Sweep(old(Now()), programs, enabled, limit, accepts)
      ensures CountWhere(table, IsSynced) == CountWhere(old(table), IsSynced) + synced
    {
      if !enabled {
        return 0;
      }
      ghost var s := Now();
      assert SyncIds(s, programs, [], accepts) == s;
      hide ListWhere, SyncIds, CountWhere, Sync;
      var ids := ListWhere(table, Awaiting, 0, limit);
      ListIsListed(table, Awaiting, 0, limit);
      hide Listed, SyncId, Awaiting, SyncRow, PushOf, Pushable;
      assert ids[..0] == [] && ids[..|ids|] == ids;
      var cache: Programs := map[];
      synced := 0;
      for i := 0 to |ids|
        invariant Now() == SyncIds(s, programs, ids[..i], accepts)
        invariant forall id :: id in cache ==> id in programs && cache[id] == programs[id]
        invariant CountWhere(table, IsSynced) == CountWhere(s.table, IsSynced) + synced
      {
        SyncTurn(s, programs, ids, i, accepts);
        var id := ids[i];
        var named := table[id].program;
        if named !in cache {
          if named !in programs {
            continue;
          }
          cache := cache[named := programs[named]];
        }
        SyncTradeLead(id, cache[named], true, accepts);
        if table[id].crm == CrmSynced {
          synced := synced + 1;
        }
      }
    }
  }

  // What a sweep keeps

  function AcceptedPushes(pushes: seq<Push>, row: nat): nat {
    if pushes == [] then 0
    else
      var p := pushes[|pushes| - 1];
      AcceptedPushes(pushes[..|pushes| - 1], row) + if p.row == row && p.accepted then 1 else 0
  }

  predicate Proper(p: Push) {
    p.email != "" && (p.gated ==> p.approved)
  }

  /** A row has been taken by the CRM once if it is synced, and never otherwise. */
  ghost predicate PushedOnce(s: State) {
    && (forall id: nat :: AcceptedPushes(s.pushes, id)
                          == if id < |s.table| && s.table[id].crm == CrmSynced then 1 else 0)
    && (forall k :: 0 <= k < |s.pushes| ==> Proper(s.pushes[k]))
  }

  lemma AcceptedSnoc(pushes: seq<Push>, push: Push, row: nat)
    ensures AcceptedPushes(pushes + [push], row)
         == AcceptedPushes(pushes, row) + if push.row == row && push.accepted then 1 else 0
  {
    assert (pushes + [push])[..|pushes|] == pushes;
  }

  lemma SyncIdKeeps(s: State, programs: Programs, id: nat, accepts: nat -> bool)
    requires PushedOnce(s) && id < |s.table| && Awaiting(s.table[id])
    ensures PushedOnce(SyncId(s, programs, id, accepts))
  {
    var after := SyncId(s, programs, id, accepts);
    if after.pushes != s.pushes {
      var push := after.pushes[|s.pushes|];
      assert after.pushes == s.pushes + [push] && Proper(push);
      assert push.row == id && (push.accepted <==> after.table[id].crm == CrmSynced);
      hide AcceptedPushes, Proper;
      forall row: nat ensures AcceptedPushes(after.pushes, row)
                           == AcceptedPushes(s.pushes, row) + if push.row == row && push.accepted then 1 else 0 {
        AcceptedSnoc(s.pushes, push, row);
      }
      assert forall k :: 0 <= k < |s.pushes| ==> after.pushes[k] == s.pushes[k];
      assert after.table == s.table[id := after.table[id]];
      hide SyncId;
    } else {
      assert after.table == s.table[id := after.table[id]] && after.table[id].crm != CrmSynced;
      hide AcceptedPushes, Proper, SyncId;
    }
  }

  lemma {:induction false} SyncIdsKeep(s: State, programs: Programs, ids: seq<nat>, accepts: nat -> bool)
    requires PushedOnce(s) && Listed(s.table, Awaiting, ids)
    ensures PushedOnce(SyncIds(s, programs, ids, accepts))
  {
    if ids != [] {
      var n := |ids| - 1;
      hide PushedOnce, SyncId;
      SyncIdsKeep(s, programs, ids[..n], accepts);
      assert ids[n] !in ids[..n];
      SyncIdsLeaveOthers(s, programs, ids[..n], accepts, ids[n]);
      SyncIdKeeps(SyncIds(s, programs, ids[..n], accepts), programs, ids[n], accepts);
    }
  }

  /** A sweep only adds pushes, of rows it lists, and changes nothing else of a row. */
  lemma {:induction false} SyncIdsReach(
    s: State, programs: Programs, ids: seq<nat>, accepts: nat -> bool, i: nat)
    requires (forall k :: 0 <= k < |ids| ==> ids[k] < |s.table|) && i < |s.table|
    ensures var after := SyncIds(s, programs, ids, accepts);
            && after.table[i].(crm := s.table[i].crm) == s.table[i]
            && s.pushes <= after.pushes
            && (i !in ids ==> forall k :: |s.pushes| <= k < |after.pushes| ==> after.pushes[k].row != i)
  {
    if ids != [] {
      SyncIdsReach(s, programs, ids[..|ids| - 1], accepts, i);
      assert ids[|ids| - 1] in ids;
    }
  }

  lemma SweepKeeps(s: State, programs: Programs, enabled: bool, limit: nat, accepts: nat -> bool)
    requires PushedOnce(s)
    ensures var after := Sweep(s, programs, enabled, limit, accepts);
            && PushedOnce(after) && |after.table| == |s.table|
            && forall i :: 0 <= i < |s.table| ==>
                 && after.table[i].(crm := s.table[i].crm) == s.table[i]
                 && (!Awaiting(s.table[i]) ==> after.table[i] == s.table[i])
  {
    hide PushedOnce, SyncIds;
    var ids := ListWhere(s.table, Awaiting, 0, limit);
    ListIsListed(s.table, Awaiting, 0, limit);
    SyncIdsKeep(s, programs, ids, accepts);
    forall i | 0 <= i < |s.table|
      ensures SyncIds(s, programs, ids, accepts).table[i].(crm := s.table[i].crm) == s.table[i]
      ensures !Awaiting(s.table[i]) ==> SyncIds(s, programs, ids, accepts).table[i] == s.table[i]
    {
      SyncIdsReach(s, programs, ids, accepts, i);
      if i !in ids {
        SyncIdsLeaveOthers(s, programs, ids, accepts, i);
      }
    }
    hide Awaiting, ListWhere;
  }

  /** The three outcomes of a push, by the switches, the gate, the email and the answer of
      the CRM, and the one attempt made where nothing stands in its way. */
  lemma SyncOutcome(s: State, id: nat, program: Program, enabled: bool, accepts: nat -> bool)
    requires id < |s.table|
    ensures var after, row := Sync(s, id, program, enabled, accepts), s.table[id];
            var off := || !enabled || !program.crmSyncEnabled || row.person.email == ""
                       || (program.requireApproval && row.review != ReviewApproved);
            var status := if off then CrmSkipped else if accepts(id) then CrmSynced else CrmFailed;
            && after.table == s.table[id := row.(crm := status)]
            && after.pushes == s.pushes + if off then [] else [
                 Push(id, row.person.email, program.requireApproval, row.review == ReviewApproved, accepts(id))]
  {
  }

  /** A row that is skipped or synced is never touched again by a sweep: a row passed over
      for want of approval is not pushed when it is approved later. */
  lemma SweepLeavesSettledRows(s: State, programs: Programs, enabled: bool, limit: nat, accepts: nat -> bool, id: nat)
    requires id < |s.table| && (s.table[id].crm == CrmSkipped || s.table[id].crm == CrmSynced)
    ensures var after := Sweep(s, programs, enabled, limit, accepts);
            && after.table[id] == s.table[id] && s.pushes <= after.pushes
            && forall k :: |s.pushes| <= k < |after.pushes| ==> after.pushes[k].row != id
  {
    var ids := ListWhere(s.table, Awaiting, 0, limit);
    ListIsListed(s.table, Awaiting, 0, limit);
    assert id !in ids;
    SyncIdsLeaveOthers(s, programs, ids, accepts, id);
    SyncIdsReach(s, programs, ids, accepts, id);
    hide SyncIds;
  }

  /** With the backlog within the limit, a sweep leaves a row synced exactly when it was, or
      when it was waiting, may be pushed and is taken: waiting, not approval alone, decides. */
  lemma SweptIsSyncedIff(s: State, programs: Programs, enabled: bool, limit: nat, accepts: nat -> bool, id: nat)
    requires id < |s.table| && CountWhere(s.table, Awaiting) <= limit
    ensures var row := s.table[id];
            Sweep(s, programs, enabled, limit, accepts).table[id].crm == CrmSynced
            <==> || row.crm == CrmSynced
                 || (&& enabled && (row.crm == CrmPending || row.crm == CrmFailed)
                     && row.program in programs && programs[row.program].crmSyncEnabled
                     && (programs[row.program].requireApproval ==> row.review == ReviewApproved)
                     && row.person.email != "" && accepts(id))
  {
    var ids := ListWhere(s.table, Awaiting, 0, limit);
    ListIsListed(s.table, Awaiting, 0, limit);
    assert s.table[0..] == s.table;
    if Awaiting(s.table[id]) {
      BacklogIsListed(s.table, Awaiting, 0, limit, id);
      SyncIdsHandleListed(s, programs, ids, accepts, id);
    } else {
      assert id !in ids;
      SyncIdsLeaveOthers(s, programs, ids, accepts, id);
    }
    hide SyncIds, ListWhere, CountWhere, Listed;
  }
}
