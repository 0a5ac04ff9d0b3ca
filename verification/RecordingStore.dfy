/**
  The recording store of internal/db/recordings.go: its transactions, statement by
  statement, on the two tables.
 */
module RecordingStores {
  import opened Endpoints
  import opened NameLists
  import opened Options
  import opened RecordingTables
  import opened RecordingReads
  import opened RecordingMerge
  import opened RecordingMergePlans
  import opened RecordingMergeTheorems

  datatype Outcome = Inserted | Skipped | Failed

  ghost predicate FiledUnderNewPath(db: Db, request: MergeRequest, groups: map<string, seq<Id>>, r: Id) {
    r in db.recordings && NewPath(db, request, r) in groups && r in groups[NewPath(db, request, r)]
  }

  predicate Among(ids: seq<Id>, all: seq<Id>) {
    forall r :: r in ids ==> r in all
  }

  lemma OneMoreMember(db: Db, request: MergeRequest, path: string, ids: seq<Id>, r: Id)
    requires ids != [] ==> GoodGroup(db, request, Group(path, ids))
    requires Affected(db, request, r) && NewPath(db, request, r) == path && r !in ids
    ensures GoodGroup(db, request, Group(path, ids + [r]))
  {
  }

  /** The first n of the affected recordings are grouped. */
  ghost predicate GroupedUpTo(db: Db, request: MergeRequest, groups: map<string, seq<Id>>, affected: seq<Id>, n: nat) {
    && n <= |affected|
    && (forall path | path in groups :: GoodGroup(db, request, Group(path, groups[path])))
    && (forall path | path in groups :: Among(groups[path], affected[..n]))
    && (forall j | 0 <= j < n :: FiledUnderNewPath(db, request, groups, affected[j]))
  }

  lemma OneMoreGrouped(db: Db, request: MergeRequest, groups: map<string, seq<Id>>, affected: seq<Id>, n: nat,
                       ids: seq<Id>)
    requires GroupedUpTo(db, request, groups, affected, n) && n < |affected| && Distinct(affected)
    requires Affected(db, request, affected[n])
    requires var path := NewPath(db, request, affected[n]); ids == if path in groups then groups[path] else []
    ensures var path := NewPath(db, request, affected[n]);
      GroupedUpTo(db, request, groups[path := ids + [affected[n]]], affected, n + 1)
  {
    var r, path := affected[n], NewPath(db, request, affected[n]);
    assert affected[..n + 1] == affected[..n] + [r];
    assert r !in affected[..n];
    assert path in groups ==> GoodGroup(db, request, Group(path, ids)) && Among(ids, affected[..n]);
    OneMoreMember(db, request, path, ids, r);
    var more := groups[path := ids + [r]];
    forall j | 0 <= j < n ensures FiledUnderNewPath(db, request, more, affected[j]) {
      assert FiledUnderNewPath(db, request, groups, affected[j]);
    }
  }

  /** The plan has worked off exactly the recordings whose new path is done. */
  ghost predicate WorkedOff(db: Db, request: MergeRequest, plan: seq<Group>, done: set<string>) {
    forall r :: InPlan(plan, r) <==> Affected(db, request, r) && NewPath(db, request, r) in done
  }

  ghost predicate GroupsOf(db: Db, request: MergeRequest, groups: map<string, seq<Id>>) {
    && (forall path | path in groups :: GoodGroup(db, request, Group(path, groups[path])))
    && (forall r | Affected(db, request, r) :: FiledUnderNewPath(db, request, groups, r))
  }

  lemma WorkedOffOneMore(db: Db, request: MergeRequest, groups: map<string, seq<Id>>, plan: seq<Group>,
                         done: set<string>, path: string)
    requires GroupsOf(db, request, groups) && path in groups && path !in done
    requires PartOfPlan(db, request, plan) && WorkedOff(db, request, plan, done)
    ensures var more := plan + [Group(path, groups[path])];
      PartOfPlan(db, request, more) && WorkedOff(db, request, more, done + {path})
  {
    var g := Group(path, groups[path]);
    assert GoodGroup(db, request, g);
    forall r | InPlan(plan, r) ensures r !in MovingTo(db, request, path) {
    }
    assert plan + [] == plan && plan + [g] + [] == plan + [g];
    AddGroup(db, request, plan, g, []);
    forall r ensures InPlan(plan + [g], r) <==> Affected(db, request, r) && NewPath(db, request, r) in done + {path} {
      if Affected(db, request, r) && NewPath(db, request, r) == path {
        assert FiledUnderNewPath(db, request, groups, r);
      }
    }
  }

  /** The next group is still in place when its turn comes. */
  lemma NextGroupReady(db: Db, request: MergeRequest, plan: seq<Group>, d: Db, g: Group, done: set<string>)
    requires Dense(db) && PartOfPlan(db, request, plan) && MergeAll(db, request.origin, plan) == Some(d)
    requires GoodGroup(db, request, g) && WorkedOff(db, request, plan, done) && g.path !in done
    ensures UniqueTargets(d.recordings) && forall r :: r in g.ids ==> r in d.recordings
  {
    var ledger :| Books(db, ledger) && Counted(db, ledger);
    var after := PlanKeeps(db, request, ledger, plan);
    GroupReady(db, request, d, after, plan, g);
  }

  lemma MergeAllSnoc(db: Db, origin: Origin, plan: seq<Group>, g: Group, d: Db)
    requires (forall h :: h in plan ==> h.ids != []) && g.ids != [] && MergeAll(db, origin, plan) == Some(d)
    ensures MergeAll(db, origin, plan + [g]) == MergeGroup(d, origin, g)
  {
    assert (plan + [g])[..|plan|] == plan;
  }

  /** Some groups are done, and the tables are what they lead to. */
  ghost predicate Progress(db: Db, request: MergeRequest, plan: seq<Group>, done: set<string>, d: Db) {
    && Dense(db) && PartOfPlan(db, request, plan) && WorkedOff(db, request, plan, done)
    && MergeAll(db, request.origin, plan) == Some(d)
  }

  ghost predicate NextProgress(db: Db, request: MergeRequest, plan: seq<Group>, done: set<string>, d: Db, g: Group)
    requires g.ids != []
  {
    MergeGroup(d, request.origin, g).Some? ==>
      Progress(db, request, plan + [g], done + {g.path}, MergeGroup(d, request.origin, g).value)
  }

  /** The next group can be processed, and what comes of it. */
  lemma NextGroup(db: Db, request: MergeRequest, groups: map<string, seq<Id>>, plan: seq<Group>, done: set<string>,
                  d: Db, path: string)
    requires Progress(db, request, plan, done, d) && GroupsOf(db, request, groups) && path in groups && path !in done
    ensures var g := Group(path, groups[path]);
      && g.ids != [] && Distinct(g.ids) && UniqueTargets(d.recordings)
      && (forall r :: r in g.ids ==> r in d.recordings)
      && NextProgress(db, request, plan, done, d, g)
      && FailureStaysWith(db, request, plan, done, d, g)
  {
    var g := Group(path, groups[path]);
    assert GoodGroup(db, request, g);
    NextGroupReady(db, request, plan, d, g, done);
    MergeAllSnoc(db, request.origin, plan, g, d);
    WorkedOffOneMore(db, request, groups, plan, done, path);
  }

  /** A group that fails makes every plan fail that starts with these groups. */
  ghost predicate FailureStaysWith(db: Db, request: MergeRequest, plan: seq<Group>, done: set<string>, d: Db, g: Group)
    requires g.ids != []
  {
    MergeGroup(d, request.origin, g) == None ==> FailsAt(db, request, plan + [g], done + {g.path})
  }

  ghost predicate FailsAt(db: Db, request: MergeRequest, plan: seq<Group>, done: set<string>) {
    && PartOfPlan(db, request, plan) && WorkedOff(db, request, plan, done)
    && (forall h :: h in plan ==> h.ids != []) && MergeAll(db, request.origin, plan) == None
  }

  ghost function Undone(db: Db, request: MergeRequest, done: set<string>): set<Id> {
    set r | r in db.recordings && Affected(db, request, r) && NewPath(db, request, r) !in done
  }

  /** Groups can be added to a part until it is a plan. */
  lemma {:induction false} Complete(db: Db, request: MergeRequest, part: seq<Group>, done: set<string>)
    returns (plan: seq<Group>)
    requires PartOfPlan(db, request, part) && WorkedOff(db, request, part, done)
    ensures IsPlan(db, request, plan) && part <= plan
    decreases |Undone(db, request, done)|
  {
    if Undone(db, request, done) == {} {
      plan := part;
      forall r | Affected(db, request, r) ensures InPlan(part, r) {
        assert r !in Undone(db, request, done);
      }
    } else {
      var r :| r in Undone(db, request, done);
      var g := MakeGroup(db, request, r);
      OneMoreGroup(db, request, part, done, g);
      FewerUndone(db, request, done, g.path, r);
      plan := Complete(db, request, part + [g], done + {g.path});
    }
  }

  lemma OneMoreGroup(db: Db, request: MergeRequest, part: seq<Group>, done: set<string>, g: Group)
    requires PartOfPlan(db, request, part) && WorkedOff(db, request, part, done)
    requires GoodGroup(db, request, g) && g.path !in done
    requires forall s :: s in g.ids <==> s in MovingTo(db, request, g.path)
    ensures PartOfPlan(db, request, part + [g]) && WorkedOff(db, request, part + [g], done + {g.path})
  {
    assert part + [] == part && part + [g] + [] == part + [g];
    AddGroup(db, request, part, g, []);
  }

  lemma FewerUndone(db: Db, request: MergeRequest, done: set<string>, path: string, r: Id)
    requires r in Undone(db, request, done) && NewPath(db, request, r) == path
    ensures |Undone(db, request, done + {path})| < |Undone(db, request, done)|
  {
    var fewer, all := Undone(db, request, done + {path}), Undone(db, request, done);
    assert fewer <= all - {r};
    SmallerSize(fewer, all - {r});
  }

  lemma {:induction false} SmallerSize(a: set<Id>, b: set<Id>)
    requires a <= b
    ensures |a| <= |b|
  {
    if a != {} {
      var x :| x in a;
      SmallerSize(a - {x}, b - {x});
    }
  }

  /** A failure while some groups are done is a failure of a whole plan. */
  lemma FailedPlan(db: Db, request: MergeRequest, part: seq<Group>, done: set<string>) returns (plan: seq<Group>)
    requires FailsAt(db, request, part, done)
    ensures IsPlan(db, request, plan) && MergeAll(db, request.origin, plan) == None
  {
    plan := Complete(db, request, part, done);
    forall h | h in plan ensures h.ids != [] {
      var a :| 0 <= a < |plan| && plan[a] == h;
      assert GoodGroup(db, request, plan[a]);
    }
    assert plan[..|part|] == part;
    FailureRemains(db, request.origin, plan, |part|);
  }

  lemma PlanIsComplete(db: Db, request: MergeRequest, groups: map<string, seq<Id>>, plan: seq<Group>)
    requires GroupsOf(db, request, groups) && PartOfPlan(db, request, plan) && WorkedOff(db, request, plan, groups.Keys)
    ensures IsPlan(db, request, plan)
  {
    forall r | Affected(db, request, r) ensures InPlan(plan, r) {
      assert FiledUnderNewPath(db, request, groups, r);
    }
  }

  /** What every completed merge gives. */
  lemma MergeOutcome(db: Db, request: MergeRequest, plan: seq<Group>, d: Db)
    requires Dense(db) && IsPlan(db, request, plan) && MergeAll(db, request.origin, plan) == Some(d)
    ensures Dense(d)
    ensures NoCrossing(db, request) ==> AllArrive(db, request, d)
    ensures forall r | r in db.active && r in db.recordings :: Stays(db, d, r)
  {
    var ledger :| Books(db, ledger) && Counted(db, ledger);
    var after := MergeKeepsOrder(db, request, plan, ledger);
    UnaffectedStay(db, request, plan);
    if NoCrossing(db, request) {
      NoCrossingArrives(db, request, plan);
    }
  }

  lemma NothingToMerge(db: Db, request: MergeRequest)
    requires Dense(db) && forall r :: !Affected(db, request, r)
    ensures IsPlan(db, request, []) && MergeAll(db, request.origin, []) == Some(db)
  {
  }

  lemma AppendIsDense(db: Db, id: Id, session: Session)
    requires Dense(db) && id in db.recordings
    ensures Dense(Append(db, id, session))
  {
    var ledger :| Books(db, ledger) && Counted(db, ledger);
    AppendKeepsBooks(db, ledger, id, session);
    HaveBooks(Append(db, id, session), ledger[id := ledger[id] + Range(|db.rows|, |session.entries|)]);
  }

  lemma HaveBooks(db: Db, ledger: Ledger)
    requires Books(db, ledger) && Counted(db, ledger)
    ensures Dense(db)
  {
  }

  lemma {:induction false} SourcesFailOn(db: Db, keeper: Id, ids: seq<Id>, n: nat)
    requires n <= |ids| && MergeSources(db, keeper, ids[..n]) == None
    ensures MergeSources(db, keeper, ids) == None
    decreases |ids|
  {
    if n == |ids| {
      assert ids[..n] == ids;
    } else {
      assert ids[..|ids| - 1][..n] == ids[..n];
      SourcesFailOn(db, keeper, ids[..|ids| - 1], n);
    }
  }

  class RecordingStore {
    var recordings: map<Id, Recording>
    var rows: seq<Row>
    var active: set<Id>
    var referenced: set<Id>

    ghost function Tables(): Db
      reads this
    {
      Db(recordings, rows, active, referenced)
    }

    ghost predicate Valid()
      reads this
    {
      Dense(Tables())
    }

    constructor ()
      ensures Valid() && Tables() == Db(map[], [], {}, {})
    {
      recordings, rows, active, referenced := map[], [], {}, {};
      new;
      assert Books(Tables(), map[]);
    }

    method InsertExchanges(id: Id, entries: seq<Exchange>, start: nat)
      modifies this`rows
      ensures rows == Insert(old(rows), id, entries, start)
    {
      for i := 0 to |entries|
        invariant rows == Insert(old(rows), id, entries[..i], start)
      {
        rows := rows + [Row(id, entries[i], start + i)];
      }
      assert entries[..|entries|] == entries;
    }

    /** A new recording with its exchanges. */
    method CreateRecording(id: Id, session: Session)
      requires Valid() && id !in recordings && Lookup(recordings, session.target) == None
      modifies this`recordings, this`rows
      ensures Valid() && Some(Tables()) == Create(old(Tables()), id, session)
    {
      ghost var ledger :| Books(Tables(), ledger) && Counted(Tables(), ledger);
      CreateKeepsBooks(Tables(), ledger, id, session);
      recordings := recordings[id := Recording(session.target, session.createdAt, |session.entries|)];
      InsertExchanges(id, session.entries, 0);
    }

    /** More exchanges at the end of a recording. */
    method AppendTo(id: Id, session: Session)
      requires Valid() && id in recordings
      modifies this`recordings, this`rows
      ensures Valid() && Tables() == Append(old(Tables()), id, session)
    {
      ghost var db := Tables();
      var was := recordings[id];
      InsertExchanges(id, session.entries, was.entryCount);
      var created := if session.createdAt > was.createdAt then session.createdAt else was.createdAt;
      recordings := recordings[id := was.(entryCount := was.entryCount + |session.entries|, createdAt := created)];
      assert Tables() == Append(db, id, session);
      AppendIsDense(db, id, session);
    }

    /** Inserts a session whose id is new; fails if its endpoint is taken by another recording. */
    method Upsert(session: Session) returns (outcome: Outcome)
      requires Valid()
      modifies this`recordings, this`rows
      ensures Valid()
      ensures outcome == Skipped <==> session.id in old(recordings)
      ensures outcome == Inserted ==> Create(old(Tables()), session.id, session) == Some(Tables())
      ensures outcome == Failed <==>
        && session.id !in old(recordings)
        && exists r :: r in old(recordings) && old(recordings)[r].target == session.target
      ensures outcome == Inserted ==>
        recordings == old(recordings)[session.id := Recording(session.target, session.createdAt, |session.entries|)]
      ensures outcome == Inserted ==>
        Reads(rows, session.id, session.entries) && Gains(old(rows), rows, session.id, session.entries)
      ensures outcome != Inserted ==> Tables() == old(Tables())
    {
      if session.id in recordings {
        return Skipped;
      }
      var found := Find(session.target);
      if found.Some? {
        return Failed;
      }
      CreateGains(Tables(), session.id, session);
      CreateRecording(session.id, session);
      outcome := Inserted;
    }

    /** SELECT ... FOR UPDATE by the endpoint key, which is unique. */
    method Find(target: Target) returns (found: Option<Id>)
      requires UniqueTargets(recordings)
      ensures found == Lookup(recordings, target)
    {
      if r :| r in recordings && recordings[r].target == target {
        found := Some(r);
      } else {
        found := None;
      }
    }

    /** Appends to the recording of the endpoint, or creates it under a new id; fails if that id is taken. */
    method FindOrAppend(session: Session, newID: Id) returns (result: Option<(Id, bool)>)
      requires Valid()
      modifies this`recordings, this`rows
      ensures Valid()
      ensures var found := Lookup(old(recordings), session.target);
        if found.Some? then
          result == Some((found.value, false)) && Tables() == Append(old(Tables()), found.value, session)
        else if newID in old(recordings) then
          result == None && Tables() == old(Tables())
        else
          result == Some((newID, true)) && Some(Tables()) == Create(old(Tables()), newID, session)
      ensures result.Some? ==> Gains(old(rows), rows, result.value.0, session.entries)
      ensures result.Some? && !result.value.1 ==>
        var id := result.value.0;
        && id in old(recordings) && old(recordings)[id].target == session.target
        && recordings.Keys == old(recordings).Keys && recordings[id].target == session.target
        && recordings[id].entryCount == old(recordings)[id].entryCount + |session.entries|
        && recordings[id].createdAt >= old(recordings)[id].createdAt && recordings[id].createdAt >= session.createdAt
        && recordings[id].createdAt in {old(recordings)[id].createdAt, session.createdAt}
        && forall s | s in old(recordings) && s != id :: recordings[s] == old(recordings)[s]
      ensures result.Some? && result.value.1 ==>
        && Reads(rows, newID, session.entries)
        && recordings == old(recordings)[newID := Recording(session.target, session.createdAt, |session.entries|)]
    {
      var found := Find(session.target);
      if found == None {
        if newID in recordings {
          return None;
        }
        CreateGains(Tables(), newID, session);
        CreateRecording(newID, session);
        return Some((newID, true));
      }
      AppendGains(Tables(), found.value, session);
      AppendTo(found.value, session);
      result := Some((found.value, false));
    }

    // ---- MergeRecordings ----

    /** The affected recordings, in the order in which the database returns them. */
    method SelectAffected(request: MergeRequest) returns (affected: seq<Id>)
      ensures Distinct(affected) && forall r :: r in affected <==> Affected(Tables(), request, r)
    {
      affected := [];
      var rest := recordings.Keys;
      while rest != {}
        invariant rest <= recordings.Keys && Distinct(affected)
        invariant forall r :: r in affected <==> r !in rest && Affected(Tables(), request, r)
      {
        var r :| r in rest;
        var target := recordings[r].target;
        if target.origin == request.origin && Matches(target.path, request.sourcePrefixes) && r !in active {
          affected := affected + [r];
        }
        rest := rest - {r};
      }
    }

    /** Groups recordings by their new path. */
    method GroupByPath(request: MergeRequest, affected: seq<Id>) returns (groups: map<string, seq<Id>>)
      requires Distinct(affected) && forall r :: r in affected ==> Affected(Tables(), request, r)
      ensures forall path | path in groups :: GoodGroup(Tables(), request, Group(path, groups[path]))
      ensures forall r | r in affected :: FiledUnderNewPath(Tables(), request, groups, r)
    {
      groups := map[];
      ghost var db := Tables();
      for i := 0 to |affected|
        invariant GroupedUpTo(db, request, groups, affected, i)
      {
        var r := affected[i];
        assert r in affected;
        var path := RewriteTargetPath(recordings[r].target.path, request.sourcePrefixes, request.targetPrefix);
        var ids := if path in groups then groups[path] else [];
        OneMoreGrouped(db, request, groups, affected, i, ids);
        groups := groups[path := ids + [r]];
      }
    }

    /** Moves the rows of a source to the keeper and deletes the source; fails on a reference to it. */
    method MoveAndDelete(keeper: Id, source: Id) returns (ok: bool)
      requires source != keeper
      modifies this`recordings, this`rows
      ensures if ok then Some(Tables()) == MergeSource(old(Tables()), keeper, source)
        else MergeSource(old(Tables()), keeper, source) == None
    {
      var base := NextSeq(rows, keeper);
      rows := Move(rows, source, keeper, base);
      if source in referenced {
        return false;
      }
      recordings := recordings - {source};
      rows := RowsWithout(rows, source);
      ok := true;
    }

    method MergeInto(keeper: Id, ids: seq<Id>) returns (ok: bool, merged: nat)
      requires Distinct(ids) && keeper in recordings && forall r :: r in ids ==> r in recordings
      modifies this`recordings, this`rows
      ensures MergeSources(old(Tables()), keeper, ids) == if ok then Some(Tables()) else None
      ensures ok ==> keeper in recordings && merged == |old(recordings)| - |recordings|
    {
      merged := 0;
      for i := 0 to |ids|
        invariant Some(Tables()) == MergeSources(old(Tables()), keeper, ids[..i])
        invariant keeper in recordings && forall j | i <= j < |ids| :: ids[j] in recordings
        invariant merged == |old(recordings)| - |recordings|
      {
        assert ids[..i + 1][..i] == ids[..i];
        if ids[i] == keeper {
          continue;
        }
        assert ids[i] in recordings;
        ghost var before := recordings;
        var moved := MoveAndDelete(keeper, ids[i]);
        if !moved {
          SourcesFailOn(old(Tables()), keeper, ids, i + 1);
          return false, merged;
        }
        assert recordings == before - {ids[i]};
        assert |recordings| == |before| - 1 by {
          assert recordings.Keys == before.Keys - {ids[i]};
        }
        merged := merged + 1;
      }
      assert ids[..|ids|] == ids;
      ok := true;
    }

    method MergeOneGroup(origin: Origin, g: Group) returns (ok: bool, merged: nat)
      requires UniqueTargets(recordings)
      requires g.ids != [] && Distinct(g.ids) && forall r :: r in g.ids ==> r in recordings
      modifies this`recordings, this`rows
      ensures MergeGroup(old(Tables()), origin, g) == if ok then Some(Tables()) else None
      ensures ok ==> merged == |old(recordings)| - |recordings|
    {
      var keeper, ids := g.ids[0], g.ids;
      var found := Find(Target(origin, g.path));
      if found.Some? {
        keeper := found.value;
      } else {
        ids := g.ids[1..];
        recordings := recordings[keeper := recordings[keeper].(target := recordings[keeper].target.(path := g.path))];
      }
      assert forall r :: r in ids ==> r in g.ids;
      ok, merged := MergeInto(keeper, ids);
      if ok {
        recordings := recordings[keeper := recordings[keeper].(entryCount := |RowsOf(rows, keeper)|)];
      }
    }

    /** Processes the group of one path, which is not done yet. */
    method MergeNextGroup(request: MergeRequest, groups: map<string, seq<Id>>, path: string,
                          ghost db: Db, ghost plan: seq<Group>, ghost done: set<string>)
      returns (ok: bool, merged: nat)
      requires path in groups && path !in done && GroupsOf(db, request, groups)
      requires Progress(db, request, plan, done, Tables())
      modifies this`recordings, this`rows
      ensures var more := plan + [Group(path, groups[path])];
        if ok then Progress(db, request, more, done + {path}, Tables())
        else FailsAt(db, request, more, done + {path})
      ensures ok ==> merged == |old(recordings)| - |recordings|
    {
      var g := Group(path, groups[path]);
      NextGroup(db, request, groups, plan, done, Tables(), path);
      ok, merged := MergeOneGroup(request.origin, g);
    }

    /** Processes the groups in map order. */
    method MergeGroups(request: MergeRequest, groups: map<string, seq<Id>>)
      returns (ok: bool, merged: nat, ghost plan: seq<Group>)
      requires Valid() && GroupsOf(Tables(), request, groups)
      modifies this`recordings, this`rows
      ensures IsPlan(old(Tables()), request, plan)
      ensures MergeAll(old(Tables()), request.origin, plan) == if ok then Some(Tables()) else None
      ensures ok ==> merged == |old(recordings)| - |recordings|
    {
      merged, plan := 0, [];
      ghost var db, done := Tables(), {};
      var todo := groups.Keys;
      while todo != {}
        invariant todo + done == groups.Keys && todo !! done
        invariant Progress(db, request, plan, done, Tables())
        invariant merged == |old(recordings)| - |recordings|
        decreases todo
      {
        var path :| path in todo;
        ghost var more := plan + [Group(path, groups[path])];
        var n;
        ok, n := MergeNextGroup(request, groups, path, db, plan, done);
        todo, done := todo - {path}, done + {path};
        if !ok {
          plan := FailedPlan(db, request, more, done);
          return;
        }
        merged, plan := merged + n, more;
      }
      assert done == groups.Keys;
      PlanIsComplete(db, request, groups, plan);
      ok := true;
    }

    /** Merges the recordings of a collapse, or rolls back. */
    method MergeRecordings(request: MergeRequest) returns (merged: Option<nat>, ghost plan: seq<Group>)
      requires Valid()
      modifies this`recordings, this`rows
      ensures Valid() && IsPlan(old(Tables()), request, plan)
      ensures MergeAll(old(Tables()), request.origin, plan) == if merged.Some? then Some(Tables()) else None
      ensures merged.Some? ==> merged.value == |old(recordings)| - |recordings|
      ensures merged == None ==> Tables() == old(Tables()) && !AlwaysCommits(Tables(), request)
      ensures merged.Some? && NoCrossing(old(Tables()), request) ==> AllArrive(old(Tables()), request, Tables())
      ensures forall r | r in active && r in old(recordings) :: Stays(old(Tables()), Tables(), r)
    {
      if |request.sourcePrefixes| == 0 {
        NothingToMerge(Tables(), request);
        MergeOutcome(Tables(), request, [], Tables());
        return Some(0), [];
      }
      var affected := SelectAffected(request);
      if |affected| == 0 {
        NothingToMerge(Tables(), request);
        MergeOutcome(Tables(), request, [], Tables());
        return Some(0), [];
      }
      var groups := GroupByPath(request, affected);
      var savedRecordings, savedRows := recordings, rows;
      var ok, n;
      ok, n, plan := MergeGroups(request, groups);
      if !ok {
        recordings, rows := savedRecordings, savedRows;
        assert !Commits(Tables(), request, plan);
        CommitTheorem(Tables(), request);
        return None, plan;
      }
      MergeOutcome(old(Tables()), request, plan, Tables());
      merged := Some(n);
    }
  }
}
