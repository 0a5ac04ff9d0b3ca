/**
  A collapse in the store, end to end: where MergeRecordings of internal/db/recordings.go
  takes an exchange, against the segments that the trie gives its endpoint.
 */
module MergeEndToEnd {
  import opened Endpoints
  import opened PathTrieSpec
  import opened EndpointPaths
  import opened SqlLike
  import opened RecordingTables
  import opened RecordingMerge
  import opened RecordingMergePlans
  import opened RecordingMergeTheorems
  import opened MergePatterns

  function CollapseRequest(origin: Origin, parent: Path, keys: seq<string>): MergeRequest {
    MergeRequest(origin, Sources(parent, keys), ParentPath(parent) + PLACEHOLDER)
  }

  // ---- Where a merge leaves a recording ----

  /** If the merge affects the recording, the two rewritings agree on its path; if not, the trie keeps it too. */
  predicate StoreAgrees(db: Db, request: MergeRequest, r: Id, parent: Path, keys: seq<string>)
    requires r in db.recordings
  {
    var path := db.recordings[r].target.path;
    if Affected(db, request, r) then AgreesOn(path, parent, keys) else !TrieRewrites(path, parent, keys)
  }

  /** The segments that the trie gives the endpoint of a recording. */
  function TrieSegments(db: Db, r: Id, parent: Path, keys: seq<string>): Path
    requires r in db.recordings
  {
    Rewrite(Segments(db.recordings[r].target.path), parent, KeySet(keys))
  }

  lemma DestinationAgrees(db: Db, origin: Origin, parent: Path, keys: seq<string>, i: nat)
    requires i < |db.rows| && db.rows[i].recordingID in db.recordings
    requires IsSegmentList(parent) && AreKeys(keys)
    ensures var request, r := CollapseRequest(origin, parent, keys), db.rows[i].recordingID;
      Segments(Destination(db, request, i).path) == TrieSegments(db, r, parent, keys)
      <==> StoreAgrees(db, request, r, parent, keys)
  {
    var path := db.recordings[db.rows[i].recordingID].target.path;
    RewritingsAgree(path, parent, keys);
    RewriteChanges(Segments(path), parent, keys);
  }

  /** Row i is in a recording of the origin whose path has these segments. */
  ghost predicate HasSegments(d: Db, i: nat, origin: Origin, segments: Path) {
    exists path :: Segments(path) == segments && At(d, i, Target(origin, path))
  }

  ghost predicate LandsAs(db: Db, request: MergeRequest, plan: seq<Group>, i: nat, segments: Path) {
    IsPlan(db, request, plan) ==>
      && MergeAll(db, request.origin, plan).Some?
      && HasSegments(MergeAll(db, request.origin, plan).value, i, request.origin, segments)
  }

  lemma OnePlace(d: Db, i: nat, target: Target, origin: Origin, segments: Path)
    requires At(d, i, target) && HasSegments(d, i, origin, segments)
    ensures target.origin == origin && Segments(target.path) == segments
  {
  }

  /** A crossed row ends up with two lists of segments in two orders. */
  lemma CrossedRowDiffers(db: Db, origin: Origin, parent: Path, keys: seq<string>, r: Id, s: Id, i: nat, segments: Path)
    requires Dense(db) && IsSegmentList(parent) && AreKeys(keys)
    requires Crossing(db, CollapseRequest(origin, parent, keys), r, s)
    requires i < |db.rows| && db.rows[i].recordingID == r
    ensures exists plan :: !LandsAs(db, CollapseRequest(origin, parent, keys), plan, i, segments)
  {
    var request := CollapseRequest(origin, parent, keys);
    var there := PlanEndingWith(db, request, r, s);
    var here := PlanEndingWith(db, request, s, r);
    if LandsAs(db, request, there, i, segments) && LandsAs(db, request, here, i, segments) {
      CrossingMisplaces(db, request, there, r, s, i);
      var ledger :| Books(db, ledger) && Counted(db, ledger);
      LastArrives(db, request, ledger, here, i);
      RewrittenSegmentsDiffer(db.recordings[s].target.path, parent, keys);
    }
  }

  /**
    Every order of a merge takes an exchange to a path with the segments that the trie
    gives its endpoint, if and only if the merge always commits, the recording is not
    crossed, and its selection and rewriting agree with the trie.
   */
  lemma EndToEnd(db: Db, origin: Origin, parent: Path, keys: seq<string>, i: nat)
    requires Dense(db) && i < |db.rows| && db.rows[i].recordingID in db.recordings
    requires db.recordings[db.rows[i].recordingID].target.origin == origin
    requires IsSegmentList(parent) && AreKeys(keys)
    ensures var request, r := CollapseRequest(origin, parent, keys), db.rows[i].recordingID;
      (forall plan :: LandsAs(db, request, plan, i, TrieSegments(db, r, parent, keys))) <==>
        && AlwaysCommits(db, request) && Uncrossed(db, request, r)
        && StoreAgrees(db, request, r, parent, keys)
  {
    var request, r := CollapseRequest(origin, parent, keys), db.rows[i].recordingID;
    var segments := TrieSegments(db, r, parent, keys);
    DestinationAgrees(db, origin, parent, keys, i);
    if forall plan :: LandsAs(db, request, plan, i, segments) {
      LandingCommits(db, request, i, segments);
      if s :| Crossing(db, request, r, s) {
        CrossedRowDiffers(db, origin, parent, keys, r, s, i, segments);
      } else {
        LandingAtDestination(db, request, i, segments);
      }
    }
    if AlwaysCommits(db, request) && Uncrossed(db, request, r) && StoreAgrees(db, request, r, parent, keys) {
      RowTheorem(db, request, i, Destination(db, request, i));
      forall plan ensures LandsAs(db, request, plan, i, segments) {
        assert RowLands(db, request, plan, i, Destination(db, request, i));
      }
    }
  }

  lemma LandingCommits(db: Db, request: MergeRequest, i: nat, segments: Path)
    requires Dense(db) && forall plan :: LandsAs(db, request, plan, i, segments)
    ensures AlwaysCommits(db, request)
  {
    forall plan ensures Commits(db, request, plan) {
      assert LandsAs(db, request, plan, i, segments);
    }
    CommitTheorem(db, request);
  }

  lemma LandingAtDestination(db: Db, request: MergeRequest, i: nat, segments: Path)
    requires Dense(db) && i < |db.rows| && db.rows[i].recordingID in db.recordings
    requires Uncrossed(db, request, db.rows[i].recordingID)
    requires forall plan :: LandsAs(db, request, plan, i, segments)
    ensures Segments(Destination(db, request, i).path) == segments
  {
    var plan := MakePlan(db, request, AllAffected(db, request));
    assert LandsAs(db, request, plan, i, segments);
    UncrossedArrives(db, request, plan, i);
  }

  // ---- The selection ----

  /** Source prefixes without special characters select exactly what they start. */
  lemma PlainSelection(path: string, sources: seq<string>)
    requires forall i | 0 <= i < |sources| :: Plain(sources[i])
    ensures Matches(path, sources) <==> exists i :: 0 <= i < |sources| && sources[i] <= path
  {
    forall i | 0 <= i < |sources| ensures Like(sources[i] + "%", path) <==> sources[i] <= path {
      RawPatternTheorem(sources[i]);
      assert SelectsByPrefix(sources[i]);
    }
  }

  /** One source prefix without a path above it. */
  lemma OneSource(key: string, path: string)
    requires !Like("/" + key + "%", path)
    ensures !Matches(path, Sources([], [key]))
  {
    var sources := Sources([], [key]);
    SourcesAreKeys([], [key]);
    assert sources[0] == "/" + key;
  }

  lemma WholeKeyAgrees(key: string)
    requires AreKeys([key])
    ensures AgreesOn(PathString([key]), [], [key]) && TrieRewrites(PathString([key]), [], [key])
  {
    assert key in [key];
    PathStringAgrees([key], [], [key]);
    SegmentsOfPathString([key]);
  }

  /** A key with a backslash: the trie rewrites the stored path, and the store does not select it. */
  lemma BackslashIsMissed()
    ensures !Matches(PathString(["\\a"]), Sources([], ["\\a"]))
    ensures AgreesOn(PathString(["\\a"]), [], ["\\a"]) && TrieRewrites(PathString(["\\a"]), [], ["\\a"])
  {
    RawMissesItself();
    assert "/" + "\\a" == "/\\a" == PathString(["\\a"]);
    OneSource("\\a", "/\\a");
    assert |PLACEHOLDER| != |"\\a"|;
    WholeKeyAgrees("\\a");
  }

  /** A doubled slash: the trie rewrites the stored path, and the store does not select it. */
  lemma DoubledSlashIsMissed()
    ensures !Matches("/a//b", Sources(["a"], ["b"])) && TrieRewrites("/a//b", ["a"], ["b"])
  {
    DoubledSlashParts();
    var sources := Sources(["a"], ["b"]);
    assert ParentPath(["a"]) == "/a/" && "/a/" + "b" == "/a/b";
    assert |sources| == 1 && sources[0] == "/a/b" && "/a/b"[3] != "/a//b"[3];
    PlainSelection("/a//b", sources);
    assert "b" in ["b"];
    assert ["a"] < ["a", "b"];
  }

  // ---- Requests whose merges conserve the paths ----

  predicate Comparable(s: string, t: string) {
    s <= t || t <= s
  }

  /** No source prefix is comparable with the target prefix. */
  predicate Safe(request: MergeRequest) {
    forall i | 0 <= i < |request.sourcePrefixes| :: !Comparable(request.sourcePrefixes[i], request.targetPrefix)
  }

  lemma {:induction false} RewriteCases(path: string, sources: seq<string>, target: string)
    ensures RewriteTargetPath(path, sources, target) == path || target <= RewriteTargetPath(path, sources, target)
    ensures RewriteTargetPath(path, sources, target) == path || exists i :: 0 <= i < |sources| && sources[i] <= path
  {
    if sources != [] && !(sources[0] <= path) {
      RewriteCases(path, sources[1..], target);
      if i :| 0 <= i < |sources[1..]| && sources[1..][i] <= path {
        assert sources[i + 1] <= path;
      }
    }
  }

  /** Then no recordings cross, whatever is in the tables. */
  lemma SafeNeverCrosses(db: Db, request: MergeRequest)
    requires Safe(request)
    ensures NoCrossing(db, request)
  {
    forall r, s ensures !Crossing(db, request, r, s) {
      if Affected(db, request, r) && Affected(db, request, s) {
        RewriteCases(db.recordings[r].target.path, request.sourcePrefixes, request.targetPrefix);
        RewriteCases(db.recordings[s].target.path, request.sourcePrefixes, request.targetPrefix);
      }
    }
  }

  lemma {:induction false} SourcesAreKeys(parent: Path, keys: seq<string>)
    ensures |Sources(parent, keys)| == |keys|
    ensures forall i | 0 <= i < |keys| :: Sources(parent, keys)[i] == ParentPath(parent) + keys[i]
  {
    if keys != [] {
      SourcesAreKeys(parent, keys[1..]);
    }
  }

  /** The request of a collapse is safe if no key is comparable with the placeholder. */
  lemma KeysDecideSafety(origin: Origin, parent: Path, keys: seq<string>)
    ensures Safe(CollapseRequest(origin, parent, keys))
      <==> forall i | 0 <= i < |keys| :: !Comparable(keys[i], PLACEHOLDER)
  {
    SourcesAreKeys(parent, keys);
    var front := ParentPath(parent);
    forall i | 0 <= i < |keys|
      ensures Comparable(front + keys[i], front + PLACEHOLDER) <==> Comparable(keys[i], PLACEHOLDER)
    {
      PrefixBehind(front, keys[i], PLACEHOLDER);
      PrefixBehind(front, PLACEHOLDER, keys[i]);
    }
  }
}
