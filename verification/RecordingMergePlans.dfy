/**
  What MergeRecordings does to the tables as a whole, in every order of its groups.
 */
module RecordingMergePlans {
  import opened Endpoints
  import opened NameLists
  import opened Options
  import opened RecordingTables
  import opened RecordingMerge

  // ---- Plans ----

  ghost predicate GoodGroup(db: Db, request: MergeRequest, g: Group) {
    && g.ids != [] && Distinct(g.ids)
    && forall r :: r in g.ids ==> Affected(db, request, r) && NewPath(db, request, r) == g.path
  }

  predicate InPlan(plan: seq<Group>, r: Id) {
    exists a :: 0 <= a < |plan| && r in plan[a].ids
  }

  /** Some of the groups of affected recordings, in some order. */
  ghost predicate PartOfPlan(db: Db, request: MergeRequest, plan: seq<Group>) {
    && (forall a | 0 <= a < |plan| :: GoodGroup(db, request, plan[a]))
    && (forall a, b | 0 <= a < b < |plan| :: plan[a].path != plan[b].path)
  }

  /** All groups, in some order. */
  ghost predicate IsPlan(db: Db, request: MergeRequest, plan: seq<Group>) {
    PartOfPlan(db, request, plan) && forall r | Affected(db, request, r) :: InPlan(plan, r)
  }

  predicate Unplanned(plan: seq<Group>, ids: seq<Id>) {
    forall r :: r in ids ==> !InPlan(plan, r)
  }

  // ---- What stays ----

  /** A recording whose group has not come up yet is where it was, with its rows. */
  ghost predicate Stays(db: Db, d: Db, r: Id) {
    && r in db.recordings && r in d.recordings && d.recordings[r].target == db.recordings[r].target
    && forall i | 0 <= i < |db.rows| && i < |d.rows| :: db.rows[i].recordingID == r ==> d.rows[i].recordingID == r
  }

  ghost predicate SameContents(before: seq<Row>, after: seq<Row>) {
    |after| == |before| && forall i | 0 <= i < |before| :: after[i].exchange == before[i].exchange
  }

  ghost predicate Outside(db: Db, d: Db, plan: seq<Group>) {
    forall r | r in db.recordings && !InPlan(plan, r) :: Stays(db, d, r)
  }

  lemma StaysOneMore(db: Db, b: Db, c: Db, origin: Origin, g: Group, keeper: Id, r: Id)
    requires Stays(db, b, r) && Grouped(b, c, origin, g, keeper) && r !in g.ids
    requires SameContents(db.rows, b.rows)
    ensures Stays(db, c, r)
  {
    assert LeftButKeeper(b.recordings, c.recordings, keeper, g.ids, r);
    forall i | 0 <= i < |db.rows| && db.rows[i].recordingID == r ensures c.rows[i].recordingID == r {
      assert MovedRow(b.rows[i], c.rows[i], keeper, g.ids);
    }
  }

  lemma SameContentsOneMore(a: seq<Row>, b: seq<Row>, c: seq<Row>, keeper: Id, ids: seq<Id>)
    requires SameContents(a, b) && Gathered(b, c, keeper, ids)
    ensures SameContents(a, c)
  {
    forall i | 0 <= i < |a| ensures c[i].exchange == a[i].exchange {
      assert MovedRow(b[i], c[i], keeper, ids);
    }
  }

  lemma PartOfPlanInit(db: Db, request: MergeRequest, plan: seq<Group>)
    requires PartOfPlan(db, request, plan) && plan != []
    ensures PartOfPlan(db, request, plan[..|plan| - 1])
    ensures Unplanned(plan[..|plan| - 1], plan[|plan| - 1].ids)
    ensures forall r :: InPlan(plan, r) <==> InPlan(plan[..|plan| - 1], r) || r in plan[|plan| - 1].ids
  {
    var n := |plan| - 1;
    var init := plan[..n];
    forall a | 0 <= a < n ensures GoodGroup(db, request, init[a]) && init[a] == plan[a] {
      assert GoodGroup(db, request, plan[a]);
    }
    forall r | r in plan[n].ids ensures !InPlan(init, r) {
      assert GoodGroup(db, request, plan[n]);
      forall a | 0 <= a < |init| ensures r !in init[a].ids {
        assert GoodGroup(db, request, plan[a]);
      }
    }
    forall r ensures InPlan(plan, r) <==> InPlan(init, r) || r in plan[n].ids {
      if InPlan(plan, r) {
        var a :| 0 <= a < |plan| && r in plan[a].ids;
        assert a < n ==> r in init[a].ids;
      }
      if InPlan(init, r) {
        var a :| 0 <= a < n && r in init[a].ids;
        assert r in plan[a].ids;
      }
    }
  }

  lemma GroupReady(db: Db, request: MergeRequest, d: Db, ledger: Ledger, plan: seq<Group>, g: Group)
    requires GoodGroup(db, request, g) && Outside(db, d, plan) && Books(d, ledger)
    requires Unplanned(plan, g.ids)
    ensures forall r | r in g.ids :: r in ledger && d.recordings[r].target.origin == request.origin
  {
    forall r | r in g.ids ensures r in ledger && d.recordings[r].target.origin == request.origin {
      assert Stays(db, d, r);
    }
  }

  /** The books stay in order, and only what the plan names is touched. */
  lemma {:induction false} PlanKeeps(db: Db, request: MergeRequest, ledger: Ledger, plan: seq<Group>)
    returns (after: Ledger)
    requires Books(db, ledger) && Counted(db, ledger) && PartOfPlan(db, request, plan)
    requires MergeAll(db, request.origin, plan).Some?
    ensures var d := MergeAll(db, request.origin, plan).value;
      Books(d, after) && Counted(d, after) && Outside(db, d, plan) && SameContents(db.rows, d.rows)
    ensures Extends(ledger, after)
  {
    if plan == [] {
      after := ledger;
      ExtendsSelf(ledger);
    } else {
      var n := |plan| - 1;
      var init, g := plan[..n], plan[n];
      PartOfPlanInit(db, request, plan);
      var b := MergeAll(db, request.origin, init).value;
      var middle := PlanKeeps(db, request, ledger, init);
      assert GoodGroup(db, request, g);
      GroupReady(db, request, b, middle, init, g);
      var keeper;
      keeper, after := MergeGroupKeeps(b, middle, request.origin, g);
      var d := MergeGroup(b, request.origin, g).value;
      ExtendsTransitive(ledger, middle, after);
      SameContentsOneMore(db.rows, b.rows, d.rows, keeper, g.ids);
      forall r | r in db.recordings && !InPlan(plan, r) ensures Stays(db, d, r) {
        StaysOneMore(db, b, d, request.origin, g, keeper, r);
      }
    }
  }

  // ---- Where the rows end up ----

  ghost predicate At(d: Db, i: nat, target: Target) {
    i < |d.rows| && d.rows[i].recordingID in d.recordings && d.recordings[d.rows[i].recordingID].target == target
  }

  /** r has rows, and s stands at the new path of r but has to go elsewhere. */
  ghost predicate Crossing(db: Db, request: MergeRequest, r: Id, s: Id) {
    && Affected(db, request, r) && Affected(db, request, s) && RowsOf(db.rows, r) != {}
    && db.recordings[s].target.path == NewPath(db, request, r) != NewPath(db, request, s)
  }

  /** Nothing that moves on stands where the rows of r have to go. */
  ghost predicate Uncrossed(db: Db, request: MergeRequest, r: Id) {
    forall s :: !Crossing(db, request, r, s)
  }

  ghost predicate NoCrossing(db: Db, request: MergeRequest) {
    forall r :: Uncrossed(db, request, r)
  }

  /** The endpoint that row i belongs to after the collapse. */
  ghost function Destination(db: Db, request: MergeRequest, i: nat): Target
    requires i < |db.rows| && db.rows[i].recordingID in db.recordings
  {
    var r := db.rows[i].recordingID;
    if Affected(db, request, r) then Target(request.origin, NewPath(db, request, r)) else db.recordings[r].target
  }

  ghost predicate ArrivesAt(db: Db, request: MergeRequest, d: Db, i: nat) {
    i < |db.rows| && db.rows[i].recordingID in db.recordings ==> At(d, i, Destination(db, request, i))
  }

  /** Every exchange is still there, and at the rewritten path of the recording it was in. */
  ghost predicate AllArrive(db: Db, request: MergeRequest, d: Db) {
    SameContents(db.rows, d.rows) && forall i: nat :: ArrivesAt(db, request, d, i)
  }

  lemma RowCounts(db: Db, i: nat)
    requires i < |db.rows|
    ensures RowsOf(db.rows, db.rows[i].recordingID) != {}
  {
    assert i in RowsOf(db.rows, db.rows[i].recordingID);
  }

  /** A row that has arrived is not taken away by a later group. */
  lemma RowStays(db: Db, request: MergeRequest, b: Db, c: Db, init: seq<Group>, g: Group, keeper: Id, i: nat)
    requires Outside(db, b, init) && SameContents(db.rows, b.rows)
    requires GoodGroup(db, request, g) && Unplanned(init, g.ids)
    requires Grouped(b, c, request.origin, g, keeper)
    requires i < |db.rows| && Affected(db, request, db.rows[i].recordingID)
    requires Uncrossed(db, request, db.rows[i].recordingID)
    requires ArrivesAt(db, request, b, i) && NewPath(db, request, db.rows[i].recordingID) != g.path
    ensures ArrivesAt(db, request, c, i)
  {
    var r, x := db.rows[i].recordingID, b.rows[i].recordingID;
    RowCounts(db, i);
    if x in g.ids {
      assert Stays(db, b, x);
      assert Crossing(db, request, r, x);
    }
    assert MovedRow(b.rows[i], c.rows[i], keeper, g.ids);
    assert LeftButKeeper(b.recordings, c.recordings, keeper, g.ids, x);
  }

  lemma RowArrives(db: Db, request: MergeRequest, b: Db, c: Db, init: seq<Group>, g: Group, keeper: Id, i: nat)
    requires Outside(db, b, init) && SameContents(db.rows, b.rows) && GoodGroup(db, request, g)
    requires Grouped(b, c, request.origin, g, keeper)
    requires i < |db.rows| && db.rows[i].recordingID in g.ids && !InPlan(init, db.rows[i].recordingID)
    ensures ArrivesAt(db, request, c, i)
  {
    assert Stays(db, b, db.rows[i].recordingID);
    assert MovedRow(b.rows[i], c.rows[i], keeper, g.ids);
  }

  lemma InPlanAffected(db: Db, request: MergeRequest, plan: seq<Group>, r: Id, path: string)
    requires PartOfPlan(db, request, plan) && InPlan(plan, r) && forall a | 0 <= a < |plan| :: plan[a].path != path
    ensures Affected(db, request, r) && NewPath(db, request, r) != path
  {
    var a :| 0 <= a < |plan| && r in plan[a].ids;
    assert GoodGroup(db, request, plan[a]);
  }

  /** The last group of a plan, between the tables before and after it. */
  lemma LastGroup(db: Db, request: MergeRequest, ledger: Ledger, plan: seq<Group>)
    returns (init: seq<Group>, b: Db, g: Group, keeper: Id, d: Db)
    requires Books(db, ledger) && Counted(db, ledger) && PartOfPlan(db, request, plan) && plan != []
    requires MergeAll(db, request.origin, plan).Some?
    ensures init == plan[..|plan| - 1] && g == plan[|plan| - 1] && PartOfPlan(db, request, init)
    ensures MergeAll(db, request.origin, init) == Some(b) && MergeAll(db, request.origin, plan) == Some(d)
    ensures Outside(db, b, init) && SameContents(db.rows, b.rows)
    ensures GoodGroup(db, request, g) && Unplanned(init, g.ids) && Grouped(b, d, request.origin, g, keeper)
    ensures forall r :: InPlan(plan, r) <==> InPlan(init, r) || r in g.ids
    ensures forall a | 0 <= a < |init| :: init[a].path != g.path
    ensures UniqueTargets(b.recordings)
  {
    var n := |plan| - 1;
    init, g := plan[..n], plan[n];
    PartOfPlanInit(db, request, plan);
    b := MergeAll(db, request.origin, init).value;
    var middle := PlanKeeps(db, request, ledger, init);
    assert GoodGroup(db, request, g);
    GroupReady(db, request, b, middle, init, g);
    var after;
    keeper, after := MergeGroupKeeps(b, middle, request.origin, g);
    d := MergeGroup(b, request.origin, g).value;
  }

  /** A row of an uncrossed recording arrives with the group of that recording, and stays. */
  lemma {:induction false} PlannedRowArrives(db: Db, request: MergeRequest, ledger: Ledger, plan: seq<Group>, i: nat)
    requires Books(db, ledger) && Counted(db, ledger) && PartOfPlan(db, request, plan)
    requires MergeAll(db, request.origin, plan).Some?
    requires i < |db.rows| && InPlan(plan, db.rows[i].recordingID) && Uncrossed(db, request, db.rows[i].recordingID)
    ensures ArrivesAt(db, request, MergeAll(db, request.origin, plan).value, i)
    decreases |plan|
  {
    var init, b, g, keeper, d := LastGroup(db, request, ledger, plan);
    var r := db.rows[i].recordingID;
    if r in g.ids {
      RowArrives(db, request, b, d, init, g, keeper, i);
    } else {
      InPlanAffected(db, request, init, r, g.path);
      PlannedRowArrives(db, request, ledger, init, i);
      RowStays(db, request, b, d, init, g, keeper, i);
    }
  }

  lemma PlannedIsAffected(db: Db, request: MergeRequest, plan: seq<Group>, r: Id)
    requires PartOfPlan(db, request, plan) && InPlan(plan, r)
    ensures Affected(db, request, r)
  {
    var a :| 0 <= a < |plan| && r in plan[a].ids;
    assert GoodGroup(db, request, plan[a]);
  }

  /** A recording that the request does not affect, such as one of an active campaign, stays as it is, with its rows. */
  lemma UnaffectedStay(db: Db, request: MergeRequest, plan: seq<Group>)
    requires Dense(db) && IsPlan(db, request, plan) && MergeAll(db, request.origin, plan).Some?
    ensures forall r | r in db.recordings && !Affected(db, request, r) ::
      Stays(db, MergeAll(db, request.origin, plan).value, r)
  {
    var ledger :| Books(db, ledger) && Counted(db, ledger);
    var _ := PlanKeeps(db, request, ledger, plan);
    forall r | r in db.recordings && !Affected(db, request, r) ensures !InPlan(plan, r) {
      if InPlan(plan, r) { PlannedIsAffected(db, request, plan, r); }
    }
  }

  /** A row of an uncrossed recording arrives, whatever the order of the groups. */
  lemma UncrossedArrives(db: Db, request: MergeRequest, plan: seq<Group>, i: nat)
    requires Dense(db) && IsPlan(db, request, plan) && MergeAll(db, request.origin, plan).Some?
    requires i < |db.rows| && Uncrossed(db, request, db.rows[i].recordingID)
    ensures ArrivesAt(db, request, MergeAll(db, request.origin, plan).value, i)
  {
    var ledger :| Books(db, ledger) && Counted(db, ledger);
    var r := db.rows[i].recordingID;
    if Affected(db, request, r) {
      PlannedRowArrives(db, request, ledger, plan, i);
    } else {
      UnaffectedStay(db, request, plan);
      assert Stays(db, MergeAll(db, request.origin, plan).value, r);
      var _ := PlanKeeps(db, request, ledger, plan);
    }
  }

  /** Without crossing recordings every exchange arrives, whatever the order of the groups. */
  lemma NoCrossingArrives(db: Db, request: MergeRequest, plan: seq<Group>)
    requires Dense(db) && IsPlan(db, request, plan) && MergeAll(db, request.origin, plan).Some?
    requires NoCrossing(db, request)
    ensures AllArrive(db, request, MergeAll(db, request.origin, plan).value)
  {
    var ledger :| Books(db, ledger) && Counted(db, ledger);
    var _ := PlanKeeps(db, request, ledger, plan);
    forall i: nat ensures ArrivesAt(db, request, MergeAll(db, request.origin, plan).value, i) {
      if i < |db.rows| {
        assert Uncrossed(db, request, db.rows[i].recordingID);
        UncrossedArrives(db, request, plan, i);
      }
    }
  }

  /**
    A merge keeps the sequence numbers dense; the rows of a recording stay together and in
    order, those of a keeper in front.
   */
  lemma MergeKeepsOrder(db: Db, request: MergeRequest, plan: seq<Group>, ledger: Ledger) returns (after: Ledger)
    requires Books(db, ledger) && Counted(db, ledger) && IsPlan(db, request, plan)
    requires MergeAll(db, request.origin, plan).Some?
    ensures var d := MergeAll(db, request.origin, plan).value;
      Books(d, after) && Counted(d, after) && SameContents(db.rows, d.rows)
    ensures Extends(ledger, after)
  {
    after := PlanKeeps(db, request, ledger, plan);
  }

  // ---- Recordings whose path does not change ----

  /** Every recording that is left was there, with the same time of creation. */
  ghost predicate KeepsCreation(db: Db, d: Db) {
    forall r | r in d.recordings :: r in db.recordings && d.recordings[r].createdAt == db.recordings[r].createdAt
  }

  lemma {:induction false} SourcesKeepCreation(db: Db, keeper: Id, ids: seq<Id>)
    requires MergeSources(db, keeper, ids).Some?
    ensures KeepsCreation(db, MergeSources(db, keeper, ids).value)
  {
    if ids != [] {
      SourcesKeepCreation(db, keeper, ids[..|ids| - 1]);
    }
  }

  lemma GroupKeepsCreation(db: Db, origin: Origin, g: Group)
    requires g.ids != [] && MergeGroup(db, origin, g).Some?
    ensures KeepsCreation(db, MergeGroup(db, origin, g).value)
  {
    var found := Lookup(db.recordings, Target(origin, g.path));
    if found.Some? {
      SourcesKeepCreation(db, found.value, g.ids);
    } else {
      SourcesKeepCreation(Rename(db, g.ids[0], g.path), g.ids[0], g.ids[1..]);
    }
  }

  /** A merge creates no recording, and changes no time of creation. */
  lemma {:induction false} MergeKeepsCreation(db: Db, origin: Origin, plan: seq<Group>)
    requires (forall g :: g in plan ==> g.ids != []) && MergeAll(db, origin, plan).Some?
    ensures KeepsCreation(db, MergeAll(db, origin, plan).value)
    decreases |plan|
  {
    if plan != [] {
      var n := |plan| - 1;
      MergeKeepsCreation(db, origin, plan[..n]);
      GroupKeepsCreation(MergeAll(db, origin, plan[..n]).value, origin, plan[n]);
    }
  }

  lemma {:induction false} SamePathStaysIn(db: Db, request: MergeRequest, ledger: Ledger, plan: seq<Group>, r: Id)
    requires Books(db, ledger) && Counted(db, ledger) && PartOfPlan(db, request, plan)
    requires MergeAll(db, request.origin, plan).Some?
    requires r in db.recordings && db.recordings[r].target == Target(request.origin, NewPath(db, request, r))
    ensures Stays(db, MergeAll(db, request.origin, plan).value, r)
    decreases |plan|
  {
    if plan != [] {
      var init, b, g, keeper, d := LastGroup(db, request, ledger, plan);
      SamePathStaysIn(db, request, ledger, init, r);
      if r in g.ids {
        assert StoodThere(b.recordings, Target(request.origin, g.path), r);
        KeeperStays(db, b, d, request.origin, g, r);
      } else {
        StaysOneMore(db, b, d, request.origin, g, keeper, r);
      }
    }
  }

  lemma KeeperStays(db: Db, b: Db, c: Db, origin: Origin, g: Group, r: Id)
    requires Stays(db, b, r) && Grouped(b, c, origin, g, r) && r in g.ids && SameContents(db.rows, b.rows)
    requires db.recordings[r].target == Target(origin, g.path)
    ensures Stays(db, c, r)
  {
    forall i | 0 <= i < |db.rows| && db.rows[i].recordingID == r ensures c.rows[i].recordingID == r {
      assert MovedRow(b.rows[i], c.rows[i], r, g.ids);
    }
  }

  /** A recording that is selected although no source prefix starts its path keeps its path and its rows. */
  lemma SamePathStays(db: Db, request: MergeRequest, plan: seq<Group>, r: Id)
    requires Dense(db) && IsPlan(db, request, plan) && MergeAll(db, request.origin, plan).Some?
    requires r in db.recordings && db.recordings[r].target.origin == request.origin
    requires forall i | 0 <= i < |request.sourcePrefixes| ::
      !(request.sourcePrefixes[i] <= db.recordings[r].target.path)
    ensures Stays(db, MergeAll(db, request.origin, plan).value, r)
  {
    var ledger :| Books(db, ledger) && Counted(db, ledger);
    NothingToRewrite(db.recordings[r].target.path, request.sourcePrefixes, request.targetPrefix);
    SamePathStaysIn(db, request, ledger, plan, r);
  }

  lemma {:induction false} NothingToRewrite(path: string, sources: seq<string>, target: string)
    requires forall i | 0 <= i < |sources| :: !(sources[i] <= path)
    ensures RewriteTargetPath(path, sources, target) == path
  {
    if sources != [] {
      NothingToRewrite(path, sources[1..], target);
    }
  }

  // ---- Plans in a given order ----

  lemma {:induction false} Listing(s: set<Id>) returns (ids: seq<Id>)
    ensures Distinct(ids) && forall r :: r in ids <==> r in s
    decreases |s|
  {
    if s == {} {
      ids := [];
    } else {
      var r :| r in s;
      var rest := Listing(s - {r});
      ids := rest + [r];
    }
  }

  ghost function MovingTo(db: Db, request: MergeRequest, path: string): set<Id> {
    set r | r in db.recordings && Affected(db, request, r) && NewPath(db, request, r) == path
  }

  /** The group of r, with r at its end. */
  lemma MakeGroup(db: Db, request: MergeRequest, r: Id) returns (g: Group)
    requires Affected(db, request, r)
    ensures GoodGroup(db, request, g) && g.path == NewPath(db, request, r)
    ensures g.ids[|g.ids| - 1] == r
    ensures forall s :: s in g.ids <==> s in MovingTo(db, request, g.path)
  {
    var path := NewPath(db, request, r);
    var ids := Listing(MovingTo(db, request, path) - {r});
    g := Group(path, ids + [r]);
  }

  /** Groups apart from another one, in front of it or behind it. */
  lemma AddGroup(db: Db, request: MergeRequest, front: seq<Group>, g: Group, rest: seq<Group>)
    requires PartOfPlan(db, request, front + rest) && GoodGroup(db, request, g)
    requires forall r :: InPlan(front + rest, r) ==> r !in MovingTo(db, request, g.path)
    ensures PartOfPlan(db, request, front + [g] + rest)
    ensures forall r :: InPlan(front + [g] + rest, r) <==> InPlan(front + rest, r) || r in g.ids
  {
    var plan, more := front + rest, front + [g] + rest;
    forall a | 0 <= a < |plan|
      ensures plan[a].path != g.path && more[if a < |front| then a else a + 1] == plan[a]
    {
      assert GoodGroup(db, request, plan[a]);
      var r := plan[a].ids[0];
      assert r in plan[a].ids && InPlan(plan, r);
    }
    forall a | 0 <= a < |more| && a != |front| ensures more[a] == plan[if a < |front| then a else a - 1] {
    }
    forall r ensures InPlan(more, r) <==> InPlan(plan, r) || r in g.ids {
      if InPlan(plan, r) {
        var a :| 0 <= a < |plan| && r in plan[a].ids;
        assert r in more[if a < |front| then a else a + 1].ids;
      }
      if r in g.ids {
        assert r in more[|front|].ids;
      }
    }
  }

  lemma {:induction false} MakePlan(db: Db, request: MergeRequest, s: set<Id>) returns (plan: seq<Group>)
    requires forall r | r in s :: Affected(db, request, r)
    requires forall r, t | r in s && Affected(db, request, r) && Affected(db, request, t) ::
      NewPath(db, request, t) == NewPath(db, request, r) ==> t in s
    ensures PartOfPlan(db, request, plan) && forall r :: InPlan(plan, r) <==> r in s
    decreases |s|
  {
    if s == {} {
      plan := [];
    } else {
      var r :| r in s;
      var g := MakeGroup(db, request, r);
      var group := MovingTo(db, request, g.path);
      assert r in group && group <= s;
      var rest := MakePlan(db, request, s - group);
      assert rest + [] == rest && rest + [g] + [] == rest + [g];
      AddGroup(db, request, rest, g, []);
      plan := rest + [g];
    }
  }

  ghost function AllAffected(db: Db, request: MergeRequest): set<Id> {
    set r | r in db.recordings && Affected(db, request, r)
  }

  lemma CoversAll(db: Db, request: MergeRequest, plan: seq<Group>)
    requires PartOfPlan(db, request, plan) && forall r :: r in AllAffected(db, request) ==> InPlan(plan, r)
    ensures IsPlan(db, request, plan)
  {
    forall r | Affected(db, request, r) ensures InPlan(plan, r) {
      assert r in AllAffected(db, request);
    }
  }

  /** The group of a recording in front of all others. */
  lemma PlanStartingWith(db: Db, request: MergeRequest, g: Group) returns (rest: seq<Group>)
    requires GoodGroup(db, request, g) && forall s :: s in g.ids <==> s in MovingTo(db, request, g.path)
    ensures IsPlan(db, request, [g] + rest)
  {
    var group := MovingTo(db, request, g.path);
    rest := MakePlan(db, request, AllAffected(db, request) - group);
    assert [] + rest == rest && [] + [g] + rest == [g] + rest;
    AddGroup(db, request, [], g, rest);
    forall r | r in AllAffected(db, request) ensures InPlan([g] + rest, r) {
      assert r in group || r in AllAffected(db, request) - group;
    }
    CoversAll(db, request, [g] + rest);
  }

  /** A plan whose last groups are those of r and s. */
  lemma PlanEndingWith(db: Db, request: MergeRequest, r: Id, s: Id) returns (plan: seq<Group>)
    requires Affected(db, request, r) && Affected(db, request, s) && NewPath(db, request, r) != NewPath(db, request, s)
    ensures IsPlan(db, request, plan) && |plan| >= 2
    ensures r in plan[|plan| - 2].ids && s in plan[|plan| - 1].ids
  {
    var g := MakeGroup(db, request, r);
    var h := MakeGroup(db, request, s);
    var others := AllAffected(db, request) - MovingTo(db, request, g.path) - MovingTo(db, request, h.path);
    var rest := MakePlan(db, request, others);
    assert rest + [] == rest && rest + [g] + [] == rest + [g];
    AddGroup(db, request, rest, g, []);
    assert rest + [g] + [h] + [] == rest + [g] + [h];
    AddGroup(db, request, rest + [g], h, []);
    plan := rest + [g] + [h];
    assert plan[|plan| - 2] == g && plan[|plan| - 1] == h;
  }
}
