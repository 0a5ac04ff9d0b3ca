/**
  UpdateStatus of internal/db/campaigns.go, and RecoverStuckCampaigns of
  internal/engine/engine.go over all campaigns.
 */
module CampaignStores {
  import opened CampaignLifecycle

  type Id = string

  /** The page size of the recovery. */
  const PAGE := 10000

  function Having(statuses: map<Id, Status>, status: Status): set<Id> {
    set id | id in statuses && statuses[id] == status
  }

  /** Campaigns change only from one status to STOPPED. */
  ghost predicate OnlyStops(before: map<Id, Status>, after: map<Id, Status>, from: Status) {
    && after.Keys == before.Keys
    && forall id | id in before :: after[id] == before[id] || (before[id] == from && after[id] == Stopped)
  }

  lemma OthersStay(before: map<Id, Status>, after: map<Id, Status>, from: Status, other: Status)
    requires OnlyStops(before, after, from) && other != from && other != Stopped
    ensures Having(after, other) == Having(before, other)
  {
  }

  /** How many of n campaigns a page leaves out. */
  function Beyond(n: nat): nat {
    if n > PAGE then n - PAGE else 0
  }

  class CampaignStore {
    var statuses: map<Id, Status>

    constructor ()
      ensures statuses == map[]
    {
      statuses := map[];
    }

    method UpdateStatus(id: Id, from: Status, to: Status) returns (ok: bool)
      modifies this
      ensures ok <==> id in old(statuses) && old(statuses)[id] == from
      ensures id in old(statuses) ==> statuses == old(statuses)[id := Cas(old(statuses)[id], from, to, false).0]
      ensures statuses == if ok then old(statuses)[id := to] else old(statuses)
    {
      ok := id in statuses && statuses[id] == from;
      if ok {
        statuses := statuses[id := to];
      } else if id in statuses {
        assert statuses[id := statuses[id]] == statuses;
      }
    }

    /** The first campaigns with a status, at most a page of them. */
    method List(status: Status) returns (ids: seq<Id>)
      ensures forall i, j | 0 <= i < j < |ids| :: ids[i] != ids[j]
      ensures forall id | id in ids :: id in statuses && statuses[id] == status
      ensures |ids| == |Having(statuses, status)| - Beyond(|Having(statuses, status)|)
    {
      ids := [];
      var rest := Having(statuses, status);
      while rest != {} && |ids| < PAGE
        invariant rest <= Having(statuses, status) && |ids| <= PAGE
        invariant forall i, j | 0 <= i < j < |ids| :: ids[i] != ids[j]
        invariant forall id | id in ids :: id in statuses && statuses[id] == status && id !in rest
        invariant |ids| + |rest| == |Having(statuses, status)|
        decreases rest
      {
        var id :| id in rest;
        ids, rest := ids + [id], rest - {id};
      }
    }

    /** The recovery from one status. */
    method RecoverFrom(status: Status)
      requires status != Stopped
      modifies this
      ensures OnlyStops(old(statuses), statuses, status)
      ensures |Having(statuses, status)| == Beyond(|Having(old(statuses), status)|)
    {
      var ids := List(status);
      for i := 0 to |ids|
        invariant OnlyStops(old(statuses), statuses, status)
        invariant forall j | i <= j < |ids| :: ids[j] in statuses && statuses[ids[j]] == status
        invariant |Having(statuses, status)| + i == |Having(old(statuses), status)|
      {
        ghost var before := statuses;
        var _ := UpdateStatus(ids[i], status, Stopped);
        assert Having(statuses, status) == Having(before, status) - {ids[i]};
      }
    }

    /**
      At a restart, every campaign in STARTING, RUNNING or STOPPING becomes STOPPED, up to
      one page of each; no other campaign changes.
     */
    method RecoverStuckCampaigns()
      modifies this
      ensures statuses.Keys == old(statuses).Keys
      ensures forall id | id in statuses ::
        statuses[id] == old(statuses)[id] || (!Startable(old(statuses)[id]) && statuses[id] == Stopped)
      ensures forall status | !Startable(status) ::
        |Having(statuses, status)| == Beyond(|Having(old(statuses), status)|)
      ensures forall status | status in {Starting, Running, Stopping} ::
        var n := |Having(old(statuses), status)|;
        |Having(statuses, status)| == if n > 10000 then n - 10000 else 0
      ensures forall id | id in statuses && old(statuses)[id] in {Created, Stopped, Finished, Failed} ::
        statuses[id] == old(statuses)[id]
    {
      ghost var s0 := statuses;
      RecoverFrom(Starting);
      ghost var s1 := statuses;
      RecoverFrom(Running);
      ghost var s2 := statuses;
      RecoverFrom(Stopping);
      OthersStay(s0, s1, Starting, Running);
      OthersStay(s0, s1, Starting, Stopping);
      OthersStay(s1, s2, Running, Starting);
      OthersStay(s1, s2, Running, Stopping);
      OthersStay(s2, statuses, Stopping, Starting);
      OthersStay(s2, statuses, Stopping, Running);
    }
  }

  /** The recovery leaves nothing stuck if and only if each status fits on one page. */
  lemma RecoveredAll(before: map<Id, Status>, after: map<Id, Status>)
    requires forall status | !Startable(status) :: |Having(after, status)| == Beyond(|Having(before, status)|)
    ensures (forall id | id in after :: Startable(after[id]))
      <==> forall status | status in {Starting, Running, Stopping} :: |Having(before, status)| <= 10000
  {
    if forall id | id in after :: Startable(after[id]) {
      forall status | status in {Starting, Running, Stopping} ensures |Having(before, status)| <= 10000 {
        assert Having(after, status) == {};
      }
    }
    forall id | id in after && !Startable(after[id]) ensures |Having(before, after[id])| > PAGE {
      assert id in Having(after, after[id]);
    }
  }
}
