/**
  MergeRecordings of internal/db/recordings.go as a function on the tables.

  The recordings that a request affects come in groups with a common new path.  The
  source ranges over the groups in map order, so every statement here is about all
  orders.  An existing recording at the new path is looked up while the groups are
  being processed, which is what makes the order matter at all.
 */
module RecordingMerge {
  import opened Endpoints
  import opened NameLists
  import opened Options
  import opened SqlLike
  import opened RecordingTables

  /** The first source prefix of the path, replaced by the target prefix. */
  function RewriteTargetPath(path: string, sources: seq<string>, target: string): string {
    if sources == [] then path
    else if sources[0] <= path then target + path[|sources[0]|..]
    else RewriteTargetPath(path, sources[1..], target)
  }

  /** The source prefixes are used as patterns without being escaped. */
  predicate Matches(path: string, sources: seq<string>) {
    exists i :: 0 <= i < |sources| && Like(sources[i] + "%", path)
  }

  predicate Affected(db: Db, request: MergeRequest, r: Id) {
    && r in db.recordings && db.recordings[r].target.origin == request.origin
    && Matches(db.recordings[r].target.path, request.sourcePrefixes)
    && r !in db.active
  }

  function NewPath(db: Db, request: MergeRequest, r: Id): string
    requires r in db.recordings
  {
    RewriteTargetPath(db.recordings[r].target.path, request.sourcePrefixes, request.targetPrefix)
  }

  // ---- The statements of the transaction ----

  /** Moves the rows of a source recording and deletes it; fails if the source is referenced. */
  function MergeSource(db: Db, keeper: Id, source: Id): Option<Db> {
    if source == keeper then Some(db)
    else if source in db.referenced then None
    else Some(Delete(db.(rows := Move(db.rows, source, keeper, NextSeq(db.rows, keeper))), source))
  }

  function MergeSources(db: Db, keeper: Id, ids: seq<Id>): Option<Db> {
    if ids == [] then Some(db)
    else
      match MergeSources(db, keeper, ids[..|ids| - 1])
      case None => None
      case Some(d) => MergeSource(d, keeper, ids[|ids| - 1])
  }

  /** UPDATE recordings SET target_path = path WHERE id = r. */
  function Rename(db: Db, r: Id, path: string): Db {
    if r !in db.recordings then db
    else
      var recording := db.recordings[r];
      db.(recordings := db.recordings[r := recording.(target := recording.target.(path := path))])
  }

  /** UPDATE recordings SET entry_count = (SELECT COUNT(*) ...) WHERE id = r. */
  function Recount(db: Db, r: Id): Db {
    if r !in db.recordings then db
    else db.(recordings := db.recordings[r := db.recordings[r].(entryCount := |RowsOf(db.rows, r)|)])
  }

  /** The affected recordings with a common new path. */
  datatype Group = Group(path: string, ids: seq<Id>)

  ghost function MergeGroup(db: Db, origin: Origin, g: Group): Option<Db>
    requires g.ids != []
  {
    var found := Lookup(db.recordings, Target(origin, g.path));
    var keeper := if found.Some? then found.value else g.ids[0];
    var merged :=
      if found.Some? then MergeSources(db, keeper, g.ids)
      else MergeSources(Rename(db, keeper, g.path), keeper, g.ids[1..]);
    if merged == None then None else Some(Recount(merged.value, keeper))
  }

  ghost function MergeAll(db: Db, origin: Origin, plan: seq<Group>): Option<Db>
    requires forall g :: g in plan ==> g.ids != []
  {
    if plan == [] then Some(db)
    else
      match MergeAll(db, origin, plan[..|plan| - 1])
      case None => None
      case Some(d) => MergeGroup(d, origin, plan[|plan| - 1])
  }

  // ---- Ledgers only grow ----

  predicate InsideAt(part: seq<nat>, whole: seq<nat>, k: nat) {
    k + |part| <= |whole| && whole[k..k + |part|] == part
  }

  ghost predicate Inside(part: seq<nat>, whole: seq<nat>) {
    exists k: nat :: InsideAt(part, whole, k)
  }

  ghost predicate Holds(after: Ledger, part: seq<nat>) {
    exists r :: r in after && Inside(part, after[r])
  }

  ghost predicate Leads(before: Ledger, after: Ledger, r: Id) {
    r in after ==> r in before && before[r] <= after[r]
  }

  ghost predicate Survives(before: Ledger, after: Ledger, r: Id) {
    r in before ==> Holds(after, before[r])
  }

  /** A recording that is left has its own rows in front; the rows of every recording stay together, in order. */
  ghost predicate Extends(before: Ledger, after: Ledger) {
    && (forall r :: Leads(before, after, r))
    && (forall r :: Survives(before, after, r))
  }

  lemma InsideTransitive(a: seq<nat>, b: seq<nat>, c: seq<nat>)
    requires Inside(a, b) && Inside(b, c)
    ensures Inside(a, c)
  {
    var k: nat :| InsideAt(a, b, k);
    var m: nat :| InsideAt(b, c, m);
    forall j | 0 <= j < |a| ensures c[m + k + j] == a[j] {
      assert b[k..k + |a|][j] == a[j] && c[m..m + |b|][k + j] == b[k + j];
    }
    assert InsideAt(a, c, m + k);
  }

  lemma HoldsTransitive(a: Ledger, b: Ledger, part: seq<nat>)
    requires Holds(a, part) && forall r :: Survives(a, b, r)
    ensures Holds(b, part)
  {
    var r :| r in a && Inside(part, a[r]);
    assert Survives(a, b, r);
    var s :| s in b && Inside(a[r], b[s]);
    InsideTransitive(part, a[r], b[s]);
  }

  lemma ExtendsTransitive(a: Ledger, b: Ledger, c: Ledger)
    requires Extends(a, b) && Extends(b, c)
    ensures Extends(a, c)
  {
    forall r ensures Leads(a, c, r) {
      assert Leads(a, b, r) && Leads(b, c, r);
    }
    forall r ensures Survives(a, c, r) {
      if r in a {
        assert Survives(a, b, r);
        HoldsTransitive(b, c, a[r]);
      }
    }
  }

  lemma HoldsSelf(ledger: Ledger, r: Id, part: seq<nat>)
    requires r in ledger && part <= ledger[r]
    ensures Holds(ledger, part)
  {
    assert InsideAt(part, ledger[r], 0);
  }

  lemma ExtendsSelf(ledger: Ledger)
    ensures Extends(ledger, ledger)
  {
    forall r ensures Survives(ledger, ledger, r) {
      if r in ledger {
        HoldsSelf(ledger, r, ledger[r]);
      }
    }
  }

  // ---- One source ----

  function Joined(ledger: Ledger, keeper: Id, source: Id): Ledger
    requires keeper in ledger && source in ledger
  {
    ledger[keeper := ledger[keeper] + ledger[source]] - {source}
  }

  lemma JoinedExtends(ledger: Ledger, keeper: Id, source: Id)
    requires keeper in ledger && source in ledger && keeper != source
    ensures Extends(ledger, Joined(ledger, keeper, source))
  {
    var after := Joined(ledger, keeper, source);
    forall r ensures Survives(ledger, after, r) {
      if r == source {
        assert InsideAt(ledger[source], after[keeper], |ledger[keeper]|);
        assert keeper in after;
      } else if r in ledger {
        HoldsSelf(after, r, ledger[r]);
      }
    }
  }

  lemma MoveLists(rows: seq<Row>, source: Id, keeper: Id, kept: seq<nat>, moved: seq<nat>)
    requires source != keeper && Lists(rows, keeper, kept) && Lists(rows, source, moved)
    ensures Lists(Move(rows, source, keeper, |kept|), keeper, kept + moved)
  {
  }

  lemma MoveListsOthers(rows: seq<Row>, source: Id, keeper: Id, base: nat, r: Id, order: seq<nat>)
    requires r != source && r != keeper && Lists(rows, r, order)
    ensures Lists(Move(rows, source, keeper, base), r, order)
  {
  }

  /** Once the rows are moved, the cascading delete finds none. */
  lemma MergeSourceMoves(db: Db, ledger: Ledger, keeper: Id, source: Id)
    requires Books(db, ledger) && keeper in ledger && source != keeper && MergeSource(db, keeper, source).Some?
    ensures MergeSource(db, keeper, source).value ==
      db.(recordings := db.recordings - {source}, rows := Move(db.rows, source, keeper, |ledger[keeper]|))
  {
    NextSeqOfList(db.rows, keeper, ledger[keeper]);
    NothingToDelete(Move(db.rows, source, keeper, |ledger[keeper]|), source);
  }

  lemma MoveListsAll(db: Db, ledger: Ledger, keeper: Id, source: Id)
    requires Books(db, ledger) && keeper in ledger && source in ledger && source != keeper
    ensures forall r | r in Joined(ledger, keeper, source) ::
      Lists(Move(db.rows, source, keeper, |ledger[keeper]|), r, Joined(ledger, keeper, source)[r])
  {
    var rows, after := Move(db.rows, source, keeper, |ledger[keeper]|), Joined(ledger, keeper, source);
    forall r | r in after ensures Lists(rows, r, after[r]) {
      if r == keeper {
        MoveLists(db.rows, source, keeper, ledger[keeper], ledger[source]);
      } else {
        MoveListsOthers(db.rows, source, keeper, |ledger[keeper]|, r, ledger[r]);
      }
    }
  }

  lemma MoveKeepsBooks(db: Db, ledger: Ledger, keeper: Id, source: Id)
    requires Books(db, ledger) && keeper in ledger && source in ledger && source != keeper
    ensures var rows := Move(db.rows, source, keeper, |ledger[keeper]|);
      var moved := db.(recordings := db.recordings - {source}, rows := rows);
      Books(moved, Joined(ledger, keeper, source))
  {
    MoveListsAll(db, ledger, keeper, source);
  }

  // ---- The sources of a group ----

  predicate MovedRow(before: Row, after: Row, keeper: Id, ids: seq<Id>) {
    && after.exchange == before.exchange
    && after.recordingID == if before.recordingID in ids then keeper else before.recordingID
  }

  /** All rows keep their content; those of the given recordings are now the keeper's. */
  ghost predicate Gathered(before: seq<Row>, after: seq<Row>, keeper: Id, ids: seq<Id>) {
    |after| == |before| && forall i | 0 <= i < |before| :: MovedRow(before[i], after[i], keeper, ids)
  }

  ghost predicate Left(before: map<Id, Recording>, after: map<Id, Recording>, keeper: Id, ids: seq<Id>, r: Id) {
    && (r in after <==> r in before && (r == keeper || r !in ids))
    && (r in after ==> after[r] == before[r])
  }

  /** What merging sources into a keeper comes to. */
  ghost predicate Merged(db: Db, d: Db, keeper: Id, ids: seq<Id>) {
    && (forall r :: Left(db.recordings, d.recordings, keeper, ids, r))
    && d.active == db.active && d.referenced == db.referenced
    && Gathered(db.rows, d.rows, keeper, ids)
  }

  ghost predicate SameBut(before: Ledger, after: Ledger, keeper: Id) {
    forall r | r in after && r != keeper :: r in before && after[r] == before[r]
  }

  lemma MergedCompose(a: Db, b: Db, c: Db, keeper: Id, ids: seq<Id>, source: Id)
    requires Merged(a, b, keeper, ids) && Merged(b, c, keeper, [source])
    ensures Merged(a, c, keeper, ids + [source])
  {
    forall r ensures Left(a.recordings, c.recordings, keeper, ids + [source], r) {
      assert Left(a.recordings, b.recordings, keeper, ids, r) && Left(b.recordings, c.recordings, keeper, [source], r);
    }
    forall i | 0 <= i < |a.rows| ensures MovedRow(a.rows[i], c.rows[i], keeper, ids + [source]) {
      assert MovedRow(a.rows[i], b.rows[i], keeper, ids) && MovedRow(b.rows[i], c.rows[i], keeper, [source]);
    }
  }

  lemma MoveMerges(db: Db, d: Db, keeper: Id, source: Id, base: nat)
    requires source != keeper
    requires d == db.(recordings := db.recordings - {source}, rows := Move(db.rows, source, keeper, base))
    ensures Merged(db, d, keeper, [source])
  {
    forall i | 0 <= i < |db.rows| ensures MovedRow(db.rows[i], d.rows[i], keeper, [source]) {
      assert d.rows[i] == Move(db.rows, source, keeper, base)[i];
    }
  }

  lemma MergeSourceKeeps(db: Db, ledger: Ledger, keeper: Id, source: Id) returns (after: Ledger)
    requires Books(db, ledger) && keeper in ledger && source in ledger
    requires MergeSource(db, keeper, source).Some?
    ensures Books(MergeSource(db, keeper, source).value, after)
    ensures Merged(db, MergeSource(db, keeper, source).value, keeper, [source])
    ensures Extends(ledger, after) && SameBut(ledger, after, keeper)
  {
    if source == keeper {
      after := ledger;
      ExtendsSelf(ledger);
    } else {
      after := Joined(ledger, keeper, source);
      MergeSourceMoves(db, ledger, keeper, source);
      MoveKeepsBooks(db, ledger, keeper, source);
      MoveMerges(db, MergeSource(db, keeper, source).value, keeper, source, |ledger[keeper]|);
      JoinedExtends(ledger, keeper, source);
    }
  }

  lemma {:induction false} MergeSourcesKeep(db: Db, ledger: Ledger, keeper: Id, ids: seq<Id>) returns (after: Ledger)
    requires Books(db, ledger) && keeper in ledger && Distinct(ids) && forall r | r in ids :: r in ledger
    requires MergeSources(db, keeper, ids).Some?
    ensures Books(MergeSources(db, keeper, ids).value, after)
    ensures Merged(db, MergeSources(db, keeper, ids).value, keeper, ids)
    ensures Extends(ledger, after) && SameBut(ledger, after, keeper)
  {
    if ids == [] {
      after := ledger;
      ExtendsSelf(ledger);
    } else {
      var n := |ids| - 1;
      var init, source := ids[..n], ids[n];
      assert ids == init + [source];
      var d := MergeSources(db, keeper, init).value;
      var middle := MergeSourcesKeep(db, ledger, keeper, init);
      assert source !in init && source in ledger;
      assert Left(db.recordings, d.recordings, keeper, init, source);
      assert Left(db.recordings, d.recordings, keeper, init, keeper);
      after := MergeSourceKeeps(d, middle, keeper, source);
      MergedCompose(db, d, MergeSources(db, keeper, ids).value, keeper, init, source);
      ExtendsTransitive(ledger, middle, after);
    }
  }

  // ---- A group ----

  ghost predicate LeftButKeeper(before: map<Id, Recording>, after: map<Id, Recording>, keeper: Id, ids: seq<Id>,
                                r: Id) {
    && (r in after <==> r in before && (r == keeper || r !in ids))
    && (r in after && r != keeper ==> after[r] == before[r])
  }

  ghost predicate StoodThere(recordings: map<Id, Recording>, target: Target, r: Id) {
    r in recordings && recordings[r].target == target
  }

  /** What processing a group comes to: its recordings are now one, at the new path. */
  ghost predicate Grouped(db: Db, d: Db, origin: Origin, g: Group, keeper: Id) {
    && keeper in db.recordings
    && keeper in d.recordings && d.recordings[keeper].target == Target(origin, g.path)
    && (keeper in g.ids || db.recordings[keeper].target == Target(origin, g.path))
    && (forall r :: StoodThere(db.recordings, Target(origin, g.path), r) ==> r == keeper)
    && (forall r :: LeftButKeeper(db.recordings, d.recordings, keeper, g.ids, r))
    && d.active == db.active && d.referenced == db.referenced
    && Gathered(db.rows, d.rows, keeper, g.ids)
  }

  lemma RecountKeeps(db: Db, before: Db, was: Ledger, ledger: Ledger, keeper: Id, ids: seq<Id>)
    requires Books(db, ledger) && keeper in ledger
    requires Merged(before, db, keeper, ids) && Counted(before, was) && SameBut(was, ledger, keeper)
    ensures Books(Recount(db, keeper), ledger) && Counted(Recount(db, keeper), ledger)
  {
    CountOfList(db.rows, keeper, ledger[keeper]);
    var d := Recount(db, keeper);
    forall r | r in d.recordings && r in ledger ensures d.recordings[r].entryCount == |ledger[r]| {
      assert Left(before.recordings, db.recordings, keeper, ids, r);
    }
  }

  lemma RenameKeeps(db: Db, ledger: Ledger, origin: Origin, keeper: Id, path: string)
    requires Books(db, ledger) && Counted(db, ledger) && keeper in ledger
      && db.recordings[keeper].target.origin == origin
    requires Lookup(db.recordings, Target(origin, path)) == None
    ensures Books(Rename(db, keeper, path), ledger) && Counted(Rename(db, keeper, path), ledger)
  {
  }

  lemma GroupedFound(db: Db, d: Db, origin: Origin, g: Group, keeper: Id)
    requires keeper in db.recordings && db.recordings[keeper].target == Target(origin, g.path)
    requires Merged(db, d, keeper, g.ids) && UniqueTargets(db.recordings)
    ensures Grouped(db, Recount(d, keeper), origin, g, keeper)
  {
    var e := Recount(d, keeper);
    forall r ensures LeftButKeeper(db.recordings, e.recordings, keeper, g.ids, r) {
      assert Left(db.recordings, d.recordings, keeper, g.ids, r);
    }
    assert Left(db.recordings, d.recordings, keeper, g.ids, keeper);
  }

  lemma GroupedRenamed(db: Db, d: Db, origin: Origin, g: Group)
    requires g.ids != [] && g.ids[0] in db.recordings && db.recordings[g.ids[0]].target.origin == origin
    requires Lookup(db.recordings, Target(origin, g.path)) == None
    requires Merged(Rename(db, g.ids[0], g.path), d, g.ids[0], g.ids[1..])
    ensures Grouped(db, Recount(d, g.ids[0]), origin, g, g.ids[0])
  {
    var keeper, rest := g.ids[0], g.ids[1..];
    var e, renamed := Recount(d, keeper), Rename(db, keeper, g.path);
    assert g.ids == [keeper] + rest;
    forall r ensures LeftButKeeper(db.recordings, e.recordings, keeper, g.ids, r) {
      assert Left(renamed.recordings, d.recordings, keeper, rest, r);
    }
    assert Left(renamed.recordings, d.recordings, keeper, rest, keeper);
    forall i | 0 <= i < |db.rows| ensures MovedRow(db.rows[i], e.rows[i], keeper, g.ids) {
      assert MovedRow(renamed.rows[i], d.rows[i], keeper, rest);
    }
  }

  lemma MergeGroupKeeps(db: Db, ledger: Ledger, origin: Origin, g: Group) returns (keeper: Id, after: Ledger)
    requires Books(db, ledger) && Counted(db, ledger)
    requires g.ids != [] && Distinct(g.ids)
    requires forall r | r in g.ids :: r in ledger && db.recordings[r].target.origin == origin
    requires MergeGroup(db, origin, g).Some?
    ensures var d := MergeGroup(db, origin, g).value;
      Books(d, after) && Counted(d, after) && Grouped(db, d, origin, g, keeper)
    ensures Extends(ledger, after)
  {
    var found := Lookup(db.recordings, Target(origin, g.path));
    if found.Some? {
      keeper := found.value;
      var d := MergeSources(db, keeper, g.ids).value;
      after := MergeSourcesKeep(db, ledger, keeper, g.ids);
      assert Left(db.recordings, d.recordings, keeper, g.ids, keeper);
      RecountKeeps(d, db, ledger, after, keeper, g.ids);
      GroupedFound(db, d, origin, g, keeper);
    } else {
      keeper := g.ids[0];
      RenameKeeps(db, ledger, origin, keeper, g.path);
      var renamed, rest := Rename(db, keeper, g.path), g.ids[1..];
      var d := MergeSources(renamed, keeper, rest).value;
      after := MergeSourcesKeep(renamed, ledger, keeper, rest);
      assert Left(renamed.recordings, d.recordings, keeper, rest, keeper);
      RecountKeeps(d, renamed, ledger, after, keeper, rest);
      GroupedRenamed(db, d, origin, g);
    }
  }
}
