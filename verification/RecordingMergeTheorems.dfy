/**
  When MergeRecordings commits, and when it conserves the paths, in all orders of its groups.
 */
module RecordingMergeTheorems {
  import opened Endpoints
  import opened Options
  import opened RecordingTables
  import opened RecordingMerge
  import opened RecordingMergePlans

  // ---- When a merge commits ----

  /**
    Some order of the groups deletes r: its path changes, and another recording is at the
    new path or moves there too.
   */
  ghost predicate Deletable(db: Db, request: MergeRequest, r: Id) {
    && Affected(db, request, r) && db.recordings[r].target.path != NewPath(db, request, r)
    && exists s :: s != r && JoinsAt(db, request, s, NewPath(db, request, r))
  }

  ghost predicate JoinsAt(db: Db, request: MergeRequest, s: Id, path: string) {
    && s in db.recordings
    && (db.recordings[s].target == Target(request.origin, path)
        || (Affected(db, request, s) && NewPath(db, request, s) == path))
  }

  /** Nothing that some order deletes is referenced. */
  ghost predicate AlwaysCommits(db: Db, request: MergeRequest) {
    forall r :: Deletable(db, request, r) ==> r !in db.referenced
  }

  ghost predicate Commits(db: Db, request: MergeRequest, plan: seq<Group>) {
    IsPlan(db, request, plan) ==> MergeAll(db, request.origin, plan).Some?
  }

  /** A recording that is left of a group is at its new path. */
  lemma {:induction false} PlannedTargets(db: Db, request: MergeRequest, ledger: Ledger, plan: seq<Group>, r: Id)
    requires Books(db, ledger) && Counted(db, ledger) && PartOfPlan(db, request, plan)
    requires MergeAll(db, request.origin, plan).Some?
    requires InPlan(plan, r) && r in MergeAll(db, request.origin, plan).value.recordings && r in db.recordings
    ensures MergeAll(db, request.origin, plan).value.recordings[r].target ==
      Target(request.origin, NewPath(db, request, r))
    decreases |plan|
  {
    var init, b, g, keeper, d := LastGroup(db, request, ledger, plan);
    assert LeftButKeeper(b.recordings, d.recordings, keeper, g.ids, r);
    if r !in g.ids {
      PlannedTargets(db, request, ledger, init, r);
    }
  }

  /** What stands at the new path of a group when its turn comes stood there from the start. */
  lemma FoundStoodThere(db: Db, request: MergeRequest, ledger: Ledger, init: seq<Group>, g: Group, k: Id)
    requires Books(db, ledger) && Counted(db, ledger) && PartOfPlan(db, request, init)
    requires MergeAll(db, request.origin, init).Some? && forall a | 0 <= a < |init| :: init[a].path != g.path
    requires StoodThere(MergeAll(db, request.origin, init).value.recordings, Target(request.origin, g.path), k)
    ensures StoodThere(db.recordings, Target(request.origin, g.path), k)
  {
    var after := PlanKeeps(db, request, ledger, init);
    assert k in after && k in db.recordings by {
      assert Leads(ledger, after, k);
    }
    if InPlan(init, k) {
      PlannedTargets(db, request, ledger, init, k);
      InPlanAffected(db, request, init, k, g.path);
    } else {
      assert Stays(db, MergeAll(db, request.origin, init).value, k);
    }
  }

  lemma {:induction false} SourcesSucceed(db: Db, keeper: Id, ids: seq<Id>)
    requires forall r :: r in ids && r != keeper ==> r !in db.referenced
    ensures MergeSources(db, keeper, ids).Some? && MergeSources(db, keeper, ids).value.referenced == db.referenced
  {
    if ids != [] {
      SourcesSucceed(db, keeper, ids[..|ids| - 1]);
    }
  }

  /** The keeper of a group: what is found at the new path, or else the first one. */
  ghost function KeeperOf(db: Db, origin: Origin, g: Group): Id
    requires g.ids != []
  {
    var found := Lookup(db.recordings, Target(origin, g.path));
    if found.Some? then found.value else g.ids[0]
  }

  lemma GroupSucceeds(b: Db, origin: Origin, g: Group)
    requires g.ids != [] && forall r :: r in g.ids && r != KeeperOf(b, origin, g) ==> r !in b.referenced
    ensures MergeGroup(b, origin, g).Some? && MergeGroup(b, origin, g).value.referenced == b.referenced
  {
    var keeper := KeeperOf(b, origin, g);
    if Lookup(b.recordings, Target(origin, g.path)).Some? {
      SourcesSucceed(b, keeper, g.ids);
    } else {
      SourcesSucceed(Rename(b, keeper, g.path), keeper, g.ids[1..]);
    }
  }

  /** Whatever a group deletes in some order is deletable. */
  lemma SourceIsDeletable(db: Db, request: MergeRequest, ledger: Ledger, init: seq<Group>, b: Db, g: Group, r: Id)
    requires Books(db, ledger) && Counted(db, ledger) && PartOfPlan(db, request, init)
    requires MergeAll(db, request.origin, init) == Some(b) && forall a | 0 <= a < |init| :: init[a].path != g.path
    requires GoodGroup(db, request, g) && Unplanned(init, g.ids) && r in g.ids && r != KeeperOf(b, request.origin, g)
    ensures Deletable(db, request, r)
  {
    var _ := PlanKeeps(db, request, ledger, init);
    assert Stays(db, b, r);
    var keeper := KeeperOf(b, request.origin, g);
    if Lookup(b.recordings, Target(request.origin, g.path)).Some? {
      FoundStoodThere(db, request, ledger, init, g, keeper);
    } else {
      assert keeper in g.ids;
    }
    assert JoinsAt(db, request, keeper, g.path);
  }

  lemma NextCommits(db: Db, request: MergeRequest, init: seq<Group>, b: Db, g: Group)
    requires Dense(db) && AlwaysCommits(db, request) && PartOfPlan(db, request, init)
    requires MergeAll(db, request.origin, init) == Some(b) && b.referenced == db.referenced
    requires GoodGroup(db, request, g) && Unplanned(init, g.ids) && forall a | 0 <= a < |init| :: init[a].path != g.path
    ensures MergeGroup(b, request.origin, g).Some? && MergeGroup(b, request.origin, g).value.referenced == db.referenced
  {
    var ledger :| Books(db, ledger) && Counted(db, ledger);
    forall r | r in g.ids && r != KeeperOf(b, request.origin, g) ensures r !in b.referenced {
      SourceIsDeletable(db, request, ledger, init, b, g, r);
    }
    GroupSucceeds(b, request.origin, g);
  }

  /** If nothing deletable is referenced, every order can be carried out. */
  lemma {:induction false} PartCommits(db: Db, request: MergeRequest, plan: seq<Group>)
    requires Dense(db) && AlwaysCommits(db, request) && PartOfPlan(db, request, plan)
    ensures MergeAll(db, request.origin, plan).Some?
      && MergeAll(db, request.origin, plan).value.referenced == db.referenced
  {
    if plan != [] {
      var n := |plan| - 1;
      PartOfPlanInit(db, request, plan);
      PartCommits(db, request, plan[..n]);
      assert GoodGroup(db, request, plan[n]);
      NextCommits(db, request, plan[..n], MergeAll(db, request.origin, plan[..n]).value, plan[n]);
    }
  }

  lemma {:induction false} SourcesFail(db: Db, keeper: Id, ids: seq<Id>, r: Id)
    requires r in ids && r != keeper && r in db.referenced
    ensures MergeSources(db, keeper, ids) == None
  {
    var n := |ids| - 1;
    assert ids == ids[..n] + [ids[n]];
    if r in ids[..n] {
      SourcesFail(db, keeper, ids[..n], r);
    } else if MergeSources(db, keeper, ids[..n]).Some? {
      SourcesKeepReferences(db, keeper, ids[..n]);
    }
  }

  lemma {:induction false} SourcesKeepReferences(db: Db, keeper: Id, ids: seq<Id>)
    requires MergeSources(db, keeper, ids).Some?
    ensures MergeSources(db, keeper, ids).value.referenced == db.referenced
  {
    if ids != [] {
      SourcesKeepReferences(db, keeper, ids[..|ids| - 1]);
    }
  }

  lemma {:induction false} FailureRemains(db: Db, origin: Origin, plan: seq<Group>, n: nat)
    requires n <= |plan| && (forall g :: g in plan ==> g.ids != []) && MergeAll(db, origin, plan[..n]) == None
    ensures MergeAll(db, origin, plan) == None
    decreases |plan|
  {
    if n == |plan| {
      assert plan[..n] == plan;
    } else {
      var init := plan[..|plan| - 1];
      assert init[..n] == plan[..n];
      FailureRemains(db, origin, init, n);
    }
  }

  /** The group of a referenced deletable recording, coming first with that recording at its end, fails. */
  lemma FirstGroupFails(db: Db, request: MergeRequest, g: Group, r: Id)
    requires Deletable(db, request, r) && r in db.referenced && UniqueTargets(db.recordings)
    requires GoodGroup(db, request, g) && g.path == NewPath(db, request, r) && g.ids[|g.ids| - 1] == r
    requires forall s :: s in g.ids <==> s in MovingTo(db, request, g.path)
    ensures MergeGroup(db, request.origin, g) == None
  {
    var s :| s != r && JoinsAt(db, request, s, NewPath(db, request, r));
    var found := Lookup(db.recordings, Target(request.origin, g.path));
    assert r in g.ids;
    if found.Some? {
      SourcesFail(db, found.value, g.ids, r);
    } else {
      assert s in g.ids;
      var i :| 0 <= i < |g.ids| && g.ids[i] == s;
      assert g.ids[1..][|g.ids| - 2] == r && r in g.ids[1..];
      assert g.ids[0] != r;
      SourcesFail(Rename(db, g.ids[0], g.path), g.ids[0], g.ids[1..], r);
    }
  }

  lemma SomeOrderFails(db: Db, request: MergeRequest, r: Id)
    requires Deletable(db, request, r) && r in db.referenced && UniqueTargets(db.recordings)
    ensures exists plan :: !Commits(db, request, plan)
  {
    var g := MakeGroup(db, request, r);
    var rest := PlanStartingWith(db, request, g);
    var plan := [g] + rest;
    assert plan[..1] == [g] && [g][..0] == [];
    FirstGroupFails(db, request, g, r);
    forall h | h in plan ensures h.ids != [] {
      var a :| 0 <= a < |plan| && plan[a] == h;
      assert GoodGroup(db, request, plan[a]);
    }
    assert MergeAll(db, request.origin, [g]) == None;
    FailureRemains(db, request.origin, plan, 1);
    assert !Commits(db, request, plan);
  }

  /** A merge commits in every order of its groups if and only if no recording that some order deletes is referenced. */
  lemma CommitTheorem(db: Db, request: MergeRequest)
    requires Dense(db)
    ensures AlwaysCommits(db, request) <==> forall plan :: Commits(db, request, plan)
  {
    if AlwaysCommits(db, request) {
      forall plan ensures Commits(db, request, plan) {
        if IsPlan(db, request, plan) { PartCommits(db, request, plan); }
      }
    } else {
      var r :| Deletable(db, request, r) && r in db.referenced;
      SomeOrderFails(db, request, r);
    }
  }

  // ---- When a merge conserves the paths ----

  /** Row i stands at its destination, in a recording that now moves on. */
  lemma MovesOn(db: Db, request: MergeRequest, b: Db, d: Db, h: Group, keeper: Id, i: nat, s: Id)
    requires i < |db.rows| && Affected(db, request, db.rows[i].recordingID) && ArrivesAt(db, request, b, i)
    requires UniqueTargets(b.recordings) && Stays(db, b, s) && Affected(db, request, s)
    requires db.recordings[s].target.path == NewPath(db, request, db.rows[i].recordingID)
    requires Grouped(b, d, request.origin, h, keeper) && s in h.ids
    ensures At(d, i, Target(request.origin, h.path))
  {
    assert b.rows[i].recordingID == s;
    assert MovedRow(b.rows[i], d.rows[i], keeper, h.ids);
  }

  /** The rows of the last group of a plan have arrived. */
  lemma LastArrives(db: Db, request: MergeRequest, ledger: Ledger, plan: seq<Group>, i: nat)
    requires Books(db, ledger) && Counted(db, ledger) && PartOfPlan(db, request, plan) && plan != []
    requires MergeAll(db, request.origin, plan).Some?
    requires i < |db.rows| && db.rows[i].recordingID in plan[|plan| - 1].ids
    ensures ArrivesAt(db, request, MergeAll(db, request.origin, plan).value, i)
  {
    var init, b, g, keeper, d := LastGroup(db, request, ledger, plan);
    RowArrives(db, request, b, d, init, g, keeper, i);
  }

  /** If the group of r comes second to last and that of s last, the rows of r end up with s. */
  lemma CrossingMisplaces(db: Db, request: MergeRequest, plan: seq<Group>, r: Id, s: Id, i: nat)
    requires Dense(db) && IsPlan(db, request, plan) && MergeAll(db, request.origin, plan).Some? && |plan| >= 2
    requires r in plan[|plan| - 2].ids && s in plan[|plan| - 1].ids && Crossing(db, request, r, s)
    requires i < |db.rows| && db.rows[i].recordingID == r
    ensures At(MergeAll(db, request.origin, plan).value, i, Target(request.origin, NewPath(db, request, s)))
  {
    var ledger :| Books(db, ledger) && Counted(db, ledger);
    var init, b, h, last, d := LastGroup(db, request, ledger, plan);
    LastArrives(db, request, ledger, init, i);
    assert Stays(db, b, s);
    MovesOn(db, request, b, d, h, last, i, s);
  }

  ghost predicate RowLands(db: Db, request: MergeRequest, plan: seq<Group>, i: nat, target: Target) {
    IsPlan(db, request, plan) ==>
      MergeAll(db, request.origin, plan).Some? && At(MergeAll(db, request.origin, plan).value, i, target)
  }

  /** A crossed row ends up at two places in two orders. */
  lemma CrossedRowWanders(db: Db, request: MergeRequest, r: Id, s: Id, i: nat, target: Target)
    requires Dense(db) && Crossing(db, request, r, s) && i < |db.rows| && db.rows[i].recordingID == r
    ensures exists plan :: !RowLands(db, request, plan, i, target)
  {
    var there := PlanEndingWith(db, request, r, s);
    var here := PlanEndingWith(db, request, s, r);
    if RowLands(db, request, there, i, target) && RowLands(db, request, here, i, target) {
      CrossingMisplaces(db, request, there, r, s, i);
      var ledger :| Books(db, ledger) && Counted(db, ledger);
      LastArrives(db, request, ledger, here, i);
    }
  }

  /**
    In every order row i ends up at the target if and only if the merge always commits, the
    target is its destination, and its recording is not crossed.
   */
  lemma RowTheorem(db: Db, request: MergeRequest, i: nat, target: Target)
    requires Dense(db) && i < |db.rows| && db.rows[i].recordingID in db.recordings
    ensures (forall plan :: RowLands(db, request, plan, i, target)) <==>
      && AlwaysCommits(db, request) && Destination(db, request, i) == target
      && Uncrossed(db, request, db.rows[i].recordingID)
  {
    var r := db.rows[i].recordingID;
    CommitTheorem(db, request);
    if forall plan :: RowLands(db, request, plan, i, target) {
      forall plan ensures Commits(db, request, plan) {
        assert RowLands(db, request, plan, i, target);
      }
      if s :| Crossing(db, request, r, s) {
        CrossedRowWanders(db, request, r, s, i, target);
      } else {
        var plan := MakePlan(db, request, AllAffected(db, request));
        assert RowLands(db, request, plan, i, target);
        UncrossedArrives(db, request, plan, i);
      }
    }
    if AlwaysCommits(db, request) && Destination(db, request, i) == target && Uncrossed(db, request, r) {
      forall plan ensures RowLands(db, request, plan, i, target) {
        assert Commits(db, request, plan);
        if IsPlan(db, request, plan) { UncrossedArrives(db, request, plan, i); }
      }
    }
  }

  ghost predicate Lands(db: Db, request: MergeRequest, plan: seq<Group>) {
    IsPlan(db, request, plan) ==>
      MergeAll(db, request.origin, plan).Some? && AllArrive(db, request, MergeAll(db, request.origin, plan).value)
  }

  lemma LandsOrNot(db: Db, request: MergeRequest, plan: seq<Group>, r: Id, s: Id)
    requires Dense(db) && Crossing(db, request, r, s) && IsPlan(db, request, plan) && |plan| >= 2
    requires r in plan[|plan| - 2].ids && s in plan[|plan| - 1].ids
    ensures !Lands(db, request, plan)
  {
    if MergeAll(db, request.origin, plan).Some? {
      var i :| i in RowsOf(db.rows, r);
      CrossingMisplaces(db, request, plan, r, s, i);
      assert !ArrivesAt(db, request, MergeAll(db, request.origin, plan).value, i);
    }
  }

  /**
    Every order of the groups commits and conserves the exchanges and their rewritten
    paths if and only if nothing deletable is referenced, and no affected recording with
    rows has the old path of another affected recording as its new path while that one
    moves on.
   */
  lemma MergeTheorem(db: Db, request: MergeRequest)
    requires Dense(db)
    ensures NoCrossing(db, request) && AlwaysCommits(db, request) <==> forall plan :: Lands(db, request, plan)
  {
    CommitTheorem(db, request);
    if NoCrossing(db, request) && AlwaysCommits(db, request) {
      forall plan ensures Lands(db, request, plan) {
        assert Commits(db, request, plan);
        if IsPlan(db, request, plan) { NoCrossingArrives(db, request, plan); }
      }
    }
    if forall plan :: Lands(db, request, plan) {
      forall plan ensures Commits(db, request, plan) {
        assert Lands(db, request, plan);
      }
      forall r, s ensures !Crossing(db, request, r, s) {
        if Crossing(db, request, r, s) {
          var plan := PlanEndingWith(db, request, r, s);
          LandsOrNot(db, request, plan, r, s);
        }
      }
    }
  }
}
