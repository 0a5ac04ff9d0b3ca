/**
  The patterns of a collapse: collapsedPatterns and rewritePath of internal/endpoint
  against rewriteTargetPath of internal/db/recordings.go.

  The trie replaces one segment of a path; the store replaces a prefix of the stored
  string.  A stored string keeps empty parts, which the segments leave out, and a key
  can start a segment without being all of it.  The two agree on some strings only.
 */
module MergePatterns {
  import opened Options
  import opened PathTrieSpec
  import opened EndpointPaths
  import opened RecordingMerge

  function Sources(parent: Path, keys: seq<string>): seq<string> {
    if keys == [] then [] else [ParentPath(parent) + keys[0]] + Sources(parent, keys[1..])
  }

  predicate AreKeys(keys: seq<string>) {
    IsSegmentList(keys) && PLACEHOLDER !in keys
  }

  function KeySet(keys: seq<string>): set<string> {
    set key | key in keys
  }

  // ---- The parts of a path string ----

  /** The parts in front of what follows ParentPath(parent). */
  function Front(parent: Path): seq<string> {
    [""] + parent
  }

  lemma {:induction false} SplitPrepend(k: string, u: string)
    requires '/' !in k
    ensures Split(k + u) == [k + Split(u)[0]] + Split(u)[1..]
  {
    if k == "" {
      assert k + u == u && k + Split(u)[0] == Split(u)[0];
    } else {
      SplitPrepend(k[1..], u);
      assert (k + u)[1..] == k[1..] + u;
      assert [k[0]] + (k[1..] + Split(u)[0]) == k + Split(u)[0];
    }
  }

  lemma FirstPart(s: string)
    ensures Split(s)[0] <= s && '/' !in Split(s)[0]
  {
    JoinSplit(s);
    assert Split(s)[0] in Split(s);
  }

  lemma {:induction false} JoinBehind(parts: seq<string>, rest: seq<string>)
    requires parts != [] && rest != []
    ensures Join(parts + rest) == Join(parts) + "/" + Join(rest)
  {
    assert (parts + rest)[1..] == parts[1..] + rest;
    if |parts| > 1 {
      JoinBehind(parts[1..], rest);
    } else {
      assert parts[1..] + rest == rest;
    }
  }

  lemma FrontString(parent: Path)
    ensures Join(Front(parent)) + "/" == ParentPath(parent)
  {
    assert Front(parent)[1..] == parent;
  }

  /** The parts of a string that starts with ParentPath(parent). */
  lemma PartsBehind(parent: Path, rest: string)
    requires FreeOf(parent)
    ensures Split(ParentPath(parent) + rest) == Front(parent) + Split(rest)
  {
    FrontString(parent);
    SplitConcat(Join(Front(parent)), rest);
    SplitJoin(Front(parent));
  }

  /** A string has these parts in front only if it starts with ParentPath(parent). */
  lemma StringBehind(path: string, parent: Path) returns (rest: string)
    requires FreeOf(parent) && Front(parent) < Split(path)
    ensures path == ParentPath(parent) + rest && Split(path) == Front(parent) + Split(rest)
  {
    var n := |Front(parent)|;
    rest := Join(Split(path)[n..]);
    JoinSplit(path);
    assert Split(path) == Front(parent) + Split(path)[n..];
    JoinBehind(Front(parent), Split(path)[n..]);
    FrontString(parent);
    PartsBehind(parent, rest);
  }

  lemma PrefixBehind<T>(front: seq<T>, s: seq<T>, t: seq<T>)
    ensures front + s <= front + t <==> s <= t
  {
    if front + s <= front + t {
      assert forall i | 0 <= i < |s| :: s[i] == (front + s)[|front| + i] == (front + t)[|front| + i] == t[i];
    }
  }

  // ---- The rewriting of the store ----

  /** The first key that starts a part. */
  function FirstStart(part: string, keys: seq<string>): Option<string> {
    if keys == [] then None
    else if keys[0] <= part then Some(keys[0])
    else FirstStart(part, keys[1..])
  }

  lemma {:induction false} FirstStartIsStart(part: string, keys: seq<string>)
    ensures FirstStart(part, keys).Some? ==>
      FirstStart(part, keys).value in keys && FirstStart(part, keys).value <= part
    ensures FirstStart(part, keys) == None ==> forall key | key in keys :: !(key <= part)
  {
    if keys != [] {
      FirstStartIsStart(part, keys[1..]);
      assert keys == [keys[0]] + keys[1..];
    }
  }

  /** The key starts the part behind the parent. */
  predicate Starts(path: string, parent: Path, key: string) {
    Front(parent) < Split(path) && key <= Split(path)[|parent| + 1]
  }

  /** Some key starts the part behind the parent. */
  predicate StoreRewrites(path: string, parent: Path, keys: seq<string>) {
    Front(parent) < Split(path) && FirstStart(Split(path)[|parent| + 1], keys).Some?
  }

  /** The parts of a path with the first key that starts the part behind the parent replaced there. */
  function RewriteParts(parts: seq<string>, parent: Path, keys: seq<string>): seq<string> {
    if !(Front(parent) < parts) then parts
    else
      var part := parts[|parent| + 1];
      match FirstStart(part, keys)
      case None => parts
      case Some(key) =>
        if |key| <= |part| then parts[|parent| + 1 := PLACEHOLDER + part[|key|..]] else parts
  }

  lemma SourceStarts(path: string, parent: Path, key: string)
    requires FreeOf(parent) && '/' !in key
    ensures ParentPath(parent) + key <= path <==> Starts(path, parent, key)
  {
    var source := ParentPath(parent) + key;
    if source <= path {
      var rest := path[|source|..];
      assert path == source + rest == ParentPath(parent) + (key + rest);
      PartsBehind(parent, key + rest);
      SplitPrepend(key, rest);
    }
    if Starts(path, parent, key) {
      var rest := StringBehind(path, parent);
      FirstPart(rest);
      assert key <= rest;
    }
  }

  lemma PartsOfPrefixed(parent: Path, x: string, rest: string)
    requires FreeOf(parent) && '/' !in x
    ensures Split(ParentPath(parent) + x + rest) == Front(parent) + [x + Split(rest)[0]] + Split(rest)[1..]
  {
    assert ParentPath(parent) + x + rest == ParentPath(parent) + (x + rest);
    PartsBehind(parent, x + rest);
    SplitPrepend(x, rest);
  }

  lemma RewriteOneStart(path: string, parent: Path, key: string)
    requires FreeOf(parent) && '/' !in key
    requires ParentPath(parent) + key <= path && Starts(path, parent, key)
    ensures Split(ParentPath(parent) + PLACEHOLDER + path[|ParentPath(parent) + key|..])
      == Split(path)[|parent| + 1 := PLACEHOLDER + Split(path)[|parent| + 1][|key|..]]
  {
    var rest := path[|ParentPath(parent) + key|..];
    var first := Split(rest)[0];
    assert path == ParentPath(parent) + key + rest;
    PartsOfPrefixed(parent, key, rest);
    PartsOfPrefixed(parent, PLACEHOLDER, rest);
    assert (key + first)[|key|..] == first;
  }

  /** Replacing the prefix is changing that one part, and keeping all others. */
  lemma {:induction false} RewriteTargetPathByParts(path: string, parent: Path, keys: seq<string>)
    requires FreeOf(parent) && FreeOf(keys)
    ensures Split(RewriteTargetPath(path, Sources(parent, keys), ParentPath(parent) + PLACEHOLDER))
      == RewriteParts(Split(path), parent, keys)
  {
    if keys != [] {
      var sources := Sources(parent, keys);
      assert keys[0] in keys;
      SourceStarts(path, parent, keys[0]);
      assert sources[0] == ParentPath(parent) + keys[0] && sources[1..] == Sources(parent, keys[1..]);
      assert forall key :: key in keys[1..] ==> key in keys;
      if Starts(path, parent, keys[0]) {
        RewriteOneStart(path, parent, keys[0]);
      } else {
        RewriteTargetPathByParts(path, parent, keys[1..]);
      }
    }
  }

  // ---- The segments of a path string ----

  /** The segments of a path, by the part behind the parent. */
  lemma SegmentsByPart(parent: Path, part: string, tail: seq<string>)
    requires IsSegmentList(parent)
    ensures NonEmpty(Front(parent) + [part] + tail)
      == parent + (if part == "" then [] else [part]) + NonEmpty(tail)
  {
    NonEmptyAppend(Front(parent) + [part], tail);
    NonEmptyAppend(Front(parent), [part]);
    NonEmptyPrepend(parent);
    NonEmptyOfNonEmpty(parent);
    assert [part][..0] == [] && NonEmpty([]) == [];
  }

  /** The trie replaces the segment behind the parent. */
  predicate TrieRewrites(path: string, parent: Path, keys: seq<string>) {
    parent < Segments(path) && Segments(path)[|parent|] in keys
  }

  /**
    If some key starts the part behind the parent, the first one that does is all of it;
    if none does, the trie does not replace a segment either.
   */
  predicate AgreesOn(path: string, parent: Path, keys: seq<string>) {
    if StoreRewrites(path, parent, keys)
    then FirstStart(Split(path)[|parent| + 1], keys).value == Split(path)[|parent| + 1]
    else !TrieRewrites(path, parent, keys)
  }

  lemma RewriteChanges(segments: Path, parent: Path, keys: seq<string>)
    requires PLACEHOLDER !in keys
    ensures Rewrite(segments, parent, KeySet(keys)) == segments
      <==> !(parent < segments && segments[|parent|] in keys)
  {
    if parent < segments && segments[|parent|] in keys {
      assert segments[|parent|] in KeySet(keys);
      assert segments[|parent| := PLACEHOLDER][|parent|] != segments[|parent|];
    }
  }

  lemma CancelBehind(s: string, t: string, rest: string)
    ensures s + rest == t + rest ==> s == t
  {
    if s + rest == t + rest {
      assert s == (s + rest)[..|s|] == (t + rest)[..|t|] == t;
    }
  }

  /** What the store makes of the segments of a path that it rewrites. */
  lemma StoredSegments(path: string, parent: Path, keys: seq<string>) returns (key: string, part: string, tail: Path)
    requires IsSegmentList(parent) && AreKeys(keys) && StoreRewrites(path, parent, keys)
    ensures part == Split(path)[|parent| + 1] && key in keys && key <= part
    ensures FirstStart(part, keys) == Some(key)
    ensures Segments(path) == parent + [part] + tail
    ensures Segments(RewriteTargetPath(path, Sources(parent, keys), ParentPath(parent) + PLACEHOLDER))
      == parent + [PLACEHOLDER + part[|key|..]] + tail
  {
    var parts, n := Split(path), |parent| + 1;
    part := parts[n];
    key := FirstStart(part, keys).value;
    tail := NonEmpty(parts[n + 1..]);
    FirstStartIsStart(part, keys);
    assert parts == Front(parent) + [part] + parts[n + 1..];
    SegmentsByPart(parent, part, parts[n + 1..]);
    RewriteTargetPathByParts(path, parent, keys);
    var placed := PLACEHOLDER + part[|key|..];
    assert parts[n := placed] == Front(parent) + [placed] + parts[n + 1..];
    SegmentsByPart(parent, placed, parts[n + 1..]);
  }

  /** The new part of a path that the store rewrites. */
  lemma NewPart(key: string, part: string, keys: seq<string>)
    requires AreKeys(keys) && key in keys && key <= part
    ensures PLACEHOLDER + part[|key|..] != part
    ensures PLACEHOLDER + part[|key|..] == PLACEHOLDER <==> key == part
  {
    var rest := part[|key|..];
    assert part == key + rest;
    CancelBehind(PLACEHOLDER, key, rest);
    if PLACEHOLDER + rest == PLACEHOLDER {
      assert |rest| == 0;
    }
  }

  lemma NotRewritten(path: string, parent: Path, keys: seq<string>)
    requires IsSegmentList(parent) && AreKeys(keys) && !StoreRewrites(path, parent, keys)
    ensures RewriteTargetPath(path, Sources(parent, keys), ParentPath(parent) + PLACEHOLDER) == path
  {
    var after := RewriteTargetPath(path, Sources(parent, keys), ParentPath(parent) + PLACEHOLDER);
    RewriteTargetPathByParts(path, parent, keys);
    JoinSplit(path);
    JoinSplit(after);
  }

  /** A path that the store rewrites gets other segments. */
  lemma RewrittenSegmentsDiffer(path: string, parent: Path, keys: seq<string>)
    requires IsSegmentList(parent) && AreKeys(keys)
    ensures var after := RewriteTargetPath(path, Sources(parent, keys), ParentPath(parent) + PLACEHOLDER);
      after != path ==> Segments(after) != Segments(path)
  {
    if StoreRewrites(path, parent, keys) {
      var key, part, tail := StoredSegments(path, parent, keys);
      NewPart(key, part, keys);
      assert (parent + [part] + tail)[|parent|] == part;
    } else {
      NotRewritten(path, parent, keys);
    }
  }

  /**
    On every stored path, replacing the prefix gives the segments that the trie gives
    the endpoint, if and only if the two agree on it.
   */
  lemma RewritingsAgree(path: string, parent: Path, keys: seq<string>)
    requires IsSegmentList(parent) && AreKeys(keys)
    ensures Segments(RewriteTargetPath(path, Sources(parent, keys), ParentPath(parent) + PLACEHOLDER))
      == Rewrite(Segments(path), parent, KeySet(keys))
      <==> AgreesOn(path, parent, keys)
  {
    if StoreRewrites(path, parent, keys) {
      var key, part, tail := StoredSegments(path, parent, keys);
      NewPart(key, part, keys);
      OneSegment(parent, part, PLACEHOLDER + part[|key|..], tail, keys);
      assert part == key ==> part in keys;
    } else {
      NotRewritten(path, parent, keys);
      RewriteChanges(Segments(path), parent, keys);
    }
  }

  /** When another segment is the one that the trie puts there. */
  lemma OneSegment(parent: Path, part: string, placed: string, tail: Path, keys: seq<string>)
    ensures parent + [placed] + tail == Rewrite(parent + [part] + tail, parent, KeySet(keys))
      <==> placed == if part in keys then PLACEHOLDER else part
  {
    var segments := parent + [part] + tail;
    assert parent < segments && segments[|parent|] == part;
    assert part in KeySet(keys) <==> part in keys;
    assert segments[|parent| := PLACEHOLDER] == parent + [PLACEHOLDER] + tail;
    assert (parent + [placed] + tail)[|parent|] == placed;
    assert (parent + [PLACEHOLDER] + tail)[|parent|] == PLACEHOLDER;
  }

  // ---- Paths as the resolver writes them ----

  /** The key that starts the segment first is the segment itself, if any key starts it. */
  predicate WholeSegmentFirst(segments: Path, parent: Path, keys: seq<string>) {
    parent < segments ==>
      var first := FirstStart(segments[|parent|], keys);
      first == None || first == Some(segments[|parent|])
  }

  lemma PartsOfPathString(segments: Path)
    requires IsSegmentList(segments)
    ensures Split(PathString(segments)) == [""] + if segments == [] then [""] else segments
  {
    SplitAtSlash("", Join(segments));
    assert "" + "/" + Join(segments) == PathString(segments);
    if segments != [] {
      SplitJoin(segments);
    }
  }

  lemma ReplacedSegment(segments: Path, n: nat, x: string)
    requires IsSegmentList(segments) && n < |segments| && x != "" && '/' !in x
    ensures IsSegmentList(segments[n := x])
  {
    var after := segments[n := x];
    forall s | s in after ensures s != "" && '/' !in s {
      var i :| 0 <= i < |after| && after[i] == s;
      assert i == n || s in segments;
    }
  }

  lemma PathStringOfParts(path: string, segments: Path)
    requires Split(path) == [""] + segments && segments != []
    ensures path == PathString(segments)
  {
    JoinSplit(path);
    assert ([""] + segments)[1..] == segments;
  }

  lemma PathStringWithPart(path: string, segments: Path, n: nat, placed: string)
    requires IsSegmentList(segments) && n < |segments|
    requires n + 1 < |Split(PathString(segments))| && Split(path) == Split(PathString(segments))[n + 1 := placed]
    ensures path == PathString(segments[n := placed])
  {
    PartsOfPathString(segments);
    assert ([""] + segments)[n + 1 := placed] == [""] + segments[n := placed];
    PathStringOfParts(path, segments[n := placed]);
  }

  /** The store makes a path string of a segment list from one. */
  lemma PathStringStays(segments: Path, parent: Path, keys: seq<string>) returns (after: Path)
    requires IsSegmentList(segments) && IsSegmentList(parent) && AreKeys(keys)
    ensures IsSegmentList(after)
    ensures RewriteTargetPath(PathString(segments), Sources(parent, keys), ParentPath(parent) + PLACEHOLDER)
      == PathString(after)
  {
    var path := PathString(segments);
    after := segments;
    if StoreRewrites(path, parent, keys) {
      var key, part, tail := StoredSegments(path, parent, keys);
      NewPart(key, part, keys);
      SegmentsOfPathString(segments);
      assert segments[|parent|] == part && part in segments;
      var placed := PLACEHOLDER + part[|key|..];
      ReplacedSegment(segments, |parent|, placed);
      after := segments[|parent| := placed];
      RewriteTargetPathByParts(path, parent, keys);
      PathStringWithPart(
        RewriteTargetPath(path, Sources(parent, keys), ParentPath(parent) + PLACEHOLDER), segments, |parent|, placed);
    } else {
      NotRewritten(path, parent, keys);
    }
  }

  /** On a path that the resolver writes, the first key that starts the segment, if any, must be all of it. */
  lemma PathStringAgrees(segments: Path, parent: Path, keys: seq<string>)
    requires IsSegmentList(segments) && IsSegmentList(parent) && AreKeys(keys)
    ensures AgreesOn(PathString(segments), parent, keys) <==> WholeSegmentFirst(segments, parent, keys)
  {
    PartsOfPathString(segments);
    SegmentsOfPathString(segments);
    if segments == [] {
      FirstStartIsStart("", keys);
    } else {
      PrefixBehind([""], parent, segments);
      if parent < segments {
        assert ([""] + segments)[|parent| + 1] == segments[|parent|];
        FirstStartIsStart(segments[|parent|], keys);
      }
    }
  }

  /** There the agreement of the segments is the agreement of the strings. */
  lemma PathStringsAgree(segments: Path, parent: Path, keys: seq<string>)
    requires IsSegmentList(segments) && IsSegmentList(parent) && AreKeys(keys)
    ensures RewriteTargetPath(PathString(segments), Sources(parent, keys), ParentPath(parent) + PLACEHOLDER)
      == PathString(Rewrite(segments, parent, KeySet(keys)))
      <==> WholeSegmentFirst(segments, parent, keys)
  {
    var after := PathStringStays(segments, parent, keys);
    var byTrie := Rewrite(segments, parent, KeySet(keys));
    RewritingsAgree(PathString(segments), parent, keys);
    PathStringAgrees(segments, parent, keys);
    SegmentsOfPathString(segments);
    SegmentsOfPathString(after);
    if parent < segments {
      ReplacedSegment(segments, |parent|, PLACEHOLDER);
    }
    SegmentsOfPathString(byTrie);
  }

  // ---- Paths on which they differ ----

  /** Two keys, in an order in which the shorter one takes the segment of the other. */
  lemma RewritingsDiffer()
    ensures RewriteTargetPath(PathString(["ab"]), Sources([], ["a", "ab"]), ParentPath([]) + PLACEHOLDER) == "/{_}b"
    ensures PathString(Rewrite(["ab"], [], KeySet(["a", "ab"]))) == "/{_}"
  {
    assert ParentPath([]) == "/" && PathString(["ab"]) == "/ab";
    assert Sources([], ["a", "ab"])[0] == "/a" && "/a" <= "/ab";
    assert "/ab"[2..] == "b";
    assert "ab" in ["a", "ab"];
    assert ["ab"][0 := PLACEHOLDER] == [PLACEHOLDER];
  }

  lemma DoubledSlashSplit()
    ensures Split("/a//b") == Front(["a"]) + [""] + ["b"]
  {
    SplitAtSlash("", "b");
    SplitLiteral("b");
    assert "" + "/" + "b" == "/b" && ParentPath(["a"]) + "/b" == "/a//b";
    PartsBehind(["a"], "/b");
  }

  lemma DoubledSlashParts()
    ensures Split("/a//b") == ["", "a", "", "b"] && Segments("/a//b") == ["a", "b"]
  {
    DoubledSlashSplit();
    SegmentsByPart(["a"], "", ["b"]);
    NonEmptyOfNonEmpty(["b"]);
  }

  /** A doubled slash behind the parent: the trie replaces the segment, and the store leaves the path. */
  lemma DoubledSlashDiffers()
    ensures Rewrite(Segments("/a//b"), ["a"], KeySet(["b"])) == ["a", PLACEHOLDER]
    ensures RewriteTargetPath("/a//b", Sources(["a"], ["b"]), ParentPath(["a"]) + PLACEHOLDER) == "/a//b"
    ensures !AgreesOn("/a//b", ["a"], ["b"])
  {
    DoubledSlashParts();
    assert "b" in ["b"];
    assert !("b" <= "");
    assert Split("/a//b")[|["a"]| + 1] == "";
    assert !StoreRewrites("/a//b", ["a"], ["b"]);
    NotRewritten("/a//b", ["a"], ["b"]);
    assert ["a"] < ["a", "b"] && ["a", "b"][1 := PLACEHOLDER] == ["a", PLACEHOLDER];
  }

  /** Without a leading slash the store leaves the path, so they differ if the trie replaces the segment. */
  lemma BarePathDiffers(path: string, parent: Path, keys: seq<string>)
    requires path == "" || path[0] != '/'
    ensures AgreesOn(path, parent, keys) <==> !TrieRewrites(path, parent, keys)
  {
    assert path != "" ==> Split(path)[0] != "";
  }

  // ---- Paths on which they agree ----

  /** If no key starts the part behind the parent properly, the order of the keys does not matter. */
  lemma NoProperStartAgrees(path: string, parent: Path, keys: seq<string>)
    requires IsSegmentList(parent) && Front(parent) < Split(path) && Split(path)[|parent| + 1] != ""
    requires forall key | key in keys :: !(key < Split(path)[|parent| + 1])
    ensures AgreesOn(path, parent, keys)
  {
    var parts, n := Split(path), |parent| + 1;
    FirstStartIsStart(parts[n], keys);
    assert parts == Front(parent) + [parts[n]] + parts[n + 1..];
    SegmentsByPart(parent, parts[n], parts[n + 1..]);
    assert Segments(path)[|parent|] == parts[n];
    if StoreRewrites(path, parent, keys) {
      var key := FirstStart(parts[n], keys).value;
      assert key in keys && !(key < parts[n]);
    }
  }

  /** If no source prefix starts another one, at most one of them starts a path. */
  lemma AtMostOneSource(path: string, sources: seq<string>, i: nat, j: nat)
    requires i < |sources| && j < |sources|
    requires forall a, b | 0 <= a < |sources| && 0 <= b < |sources| && a != b :: !(sources[a] <= sources[b])
    requires sources[i] <= path && sources[j] <= path
    ensures i == j
  {
    assert |sources[i]| <= |sources[j]| ==> sources[i] == path[..|sources[i]|] && sources[i] <= sources[j];
    assert |sources[j]| <= |sources[i]| ==> sources[j] == path[..|sources[j]|] && sources[j] <= sources[i];
  }
}
