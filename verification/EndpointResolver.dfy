/**
  The resolver of internal/endpoint/resolver.go: one trie per origin.

  Each method is one critical section of the mutex.  The invariant Valid holds
  whenever the lock is free: every trie is a proper tree that represents the list
  of paths filed so far, and none of them has anything left to collapse.
 */
module EndpointResolver {
  import opened Endpoints
  import opened Options
  import opened PathTrieSpec
  import opened EndpointPaths
  import opened EndpointTrie
  import opened CollapseTheory
  import opened CollapseRules

  /** The request names the parent of the collapse and exactly its literal children. */
  ghost predicate Asks(request: MergeRequest, origin: Origin, paths: seq<Path>, parent: Path) {
    && request.origin == origin
    && request.targetPrefix == ParentPath(parent) + PLACEHOLDER
    && (forall k :: k in LiteralKids(paths, parent) <==> ParentPath(parent) + k in request.sourcePrefixes)
  }

  ghost predicate SomeAsks(request: MergeRequest, origin: Origin, paths: seq<Path>) {
    exists parent :: Frontier(paths, parent) && Asks(request, origin, paths, parent)
  }

  /** Issues the request for the keys that a collapse returned. */
  method RequestMerge(origin: Origin, parent: Path, keys: seq<string>, ghost paths: seq<Path>)
    returns (request: MergeRequest)
    requires forall k :: k in keys <==> k in LiteralKids(paths, parent)
    ensures Asks(request, origin, paths, parent)
  {
    var sources, target := CollapsedPatterns(parent, keys);
    request := MergeRequest(origin, sources, target);
    forall k ensures k in LiteralKids(paths, parent) <==> ParentPath(parent) + k in sources {
      if k in keys {
        var i :| 0 <= i < |keys| && keys[i] == k;
        assert sources[i] == ParentPath(parent) + k;
      }
      if ParentPath(parent) + k in sources {
        var i :| 0 <= i < |sources| && sources[i] == ParentPath(parent) + k;
        assert (ParentPath(parent) + k)[|ParentPath(parent)|..] == k;
        assert (ParentPath(parent) + keys[i])[|ParentPath(parent)|..] == keys[i];
      }
    }
  }

  /** The segment lists of the stored paths, without the root path. */
  ghost function Observable(paths: seq<string>): seq<Path> {
    if paths == [] then []
    else
      var n := |paths| - 1;
      Observable(paths[..n]) + if Segments(paths[n]) != [] then [Segments(paths[n])] else []
  }

  /** The outcome of a check: a shallowest collapsible node and its literal children, or nothing to collapse. */
  ghost predicate FoundIn(result: CollapseResult, found: bool, keys: seq<string>, paths: seq<Path>) {
    if found then
      && Frontier(paths, result.parentSegments) && result.position == |result.parentSegments|
      && (forall k :: k in keys <==> k in LiteralKids(paths, result.parentSegments))
    else CollapseFree(paths)
  }

  /** Checks a trie and executes the collapse that is found, if any. */
  method CheckAndCollapse(root: TrieNode, ghost at: Labels, ghost paths: seq<Path>)
    returns (result: CollapseResult, found: bool, keys: seq<string>, ghost after: Labels)
    requires Represents(root, at, paths)
    modifies at.Values
    ensures FoundIn(result, found, keys, paths)
    ensures Represents(root, after, if found then Collapse(paths, result.parentSegments) else paths)
    ensures forall n | n in after.Values :: n in at.Values || fresh(n)
  {
    keys, after := [], at;
    result, found := root.CheckCollapse(at, paths);
    if found {
      keys, after := root.Collapse(result.parentSegments, at, paths);
    }
  }

  lemma StepFound(result: CollapseResult, found: bool, keys: seq<string>, paths: seq<Path>, segments: Path)
    requires CollapseFree(paths) && FoundIn(result, found, keys, paths + [segments])
    ensures CollapseFree(Step(paths, segments))
    ensures Step(paths, segments) ==
      if found then Collapse(paths + [segments], result.parentSegments) else paths + [segments]
    ensures found ==> result.position < |segments| && Filed(paths, segments) == segments[result.position := PLACEHOLDER]
    ensures !found ==> Filed(paths, segments) == segments
  {
    if found {
      StepTheorem(paths, segments, result.parentSegments);
    } else {
      StepWithoutCollapse(paths, segments);
    }
  }

  /** The trie represents the filed paths, and nothing in it is left to collapse. */
  ghost predicate Settled(root: TrieNode, at: Labels, paths: seq<Path>)
    reads at.Values
  {
    Represents(root, at, paths) && CollapseFree(paths)
  }

  /** An observation and the collapse that it triggers, on a settled trie. */
  method ObserveTrie(root: TrieNode, segments: Path, ghost at: Labels, ghost paths: seq<Path>)
    returns (result: CollapseResult, found: bool, keys: seq<string>, ghost after: Labels)
    requires Settled(root, at, paths)
    modifies at.Values
    ensures FoundIn(result, found, keys, paths + [segments])
    ensures Settled(root, after, Step(paths, segments))
    ensures forall n | n in after.Values :: n in at.Values || fresh(n)
  {
    ghost var grown := root.Observe(segments, at, paths);
    result, found, keys, after := CheckAndCollapse(root, grown, paths + [segments]);
    StepFound(result, found, keys, paths, segments);
  }

  /** What the caller gets: the path, rewritten at the position of the collapse, and the request to merge. */
  method Answer(origin: Origin, segments: Path, normalizedPath: string, result: CollapseResult, found: bool,
                keys: seq<string>, ghost paths: seq<Path>)
    returns (path: string, merge: Option<MergeRequest>)
    requires CollapseFree(paths) && FoundIn(result, found, keys, paths + [segments])
    requires segments == Segments(normalizedPath) && IsSegmentList(segments)
    ensures FiledAs(origin, paths, segments, normalizedPath, path, merge)
  {
    StepFound(result, found, keys, paths, segments);
    if !found {
      return normalizedPath, None;
    }
    var request := RequestMerge(origin, result.parentSegments, keys, paths + [segments]);
    path := RewritePath(segments, result.position, normalizedPath);
    FiledSegments(paths, segments);
    SegmentsOfPathString(Filed(paths, segments));
    merge := Some(request);
  }

  lemma UpdateSame(m: map<Origin, seq<Path>>, o: Origin)
    requires o in m
    ensures m[o := m[o]] == m
  {
  }

  lemma UpdateTwice(m: map<Origin, seq<Path>>, o: Origin, a: seq<Path>, b: seq<Path>)
    ensures m[o := a][o := b] == m[o := b]
  {
  }

  lemma FiledSegments(paths: seq<Path>, segments: Path)
    requires IsSegmentList(segments)
    ensures IsSegmentList(Filed(paths, segments))
  {
    assert PLACEHOLDER != "" && '/' !in PLACEHOLDER;
    var filed := Filed(paths, segments);
    assert forall i | 0 <= i < |filed| :: filed[i] == PLACEHOLDER || filed[i] == segments[i];
  }

  /** What an observation returns: the path as filed, and the request of its collapse, if any. */
  ghost predicate FiledAs(origin: Origin, paths: seq<Path>, segments: Path, observed: string, path: string,
                          merge: Option<MergeRequest>) {
    && Segments(path) == Filed(paths, segments)
    && (merge == None ==> CollapseFree(paths + [segments]) && path == observed)
    && (merge.Some? ==> SomeAsks(merge.value, origin, paths + [segments]))
  }

  /**
    A merge is requested exactly when the observation leaves a literal node with a
    placeholder child and two literal ones, or with too many literal children for its
    observations; it is for that node, and the path gets the placeholder behind it.
   */
  lemma RequestTheorem(origin: Origin, paths: seq<Path>, segments: Path, observed: string, path: string,
                       merge: Option<MergeRequest>)
    requires CollapseFree(paths) && FiledAs(origin, paths, segments, observed, path, merge)
    ensures merge == None ==> path == observed && forall p :: Literal(p) ==>
      var all := paths + [segments];
      && !(PLACEHOLDER in Kids(all, p) && |LiteralKids(all, p)| >= 2)
      && !(|LiteralKids(all, p)| >= 3 && 10 * |LiteralKids(all, p)| > 3 * Count(all, p))
    ensures merge.Some? ==>
      exists p ::
        (var all := paths + [segments];
         && Literal(p) && p < segments
         && ((PLACEHOLDER in Kids(all, p) && |LiteralKids(all, p)| >= 2)
             || (|LiteralKids(all, p)| >= 3 && 10 * |LiteralKids(all, p)| > 3 * Count(all, p)))
         && Asks(merge.value, origin, all, p) && Segments(path) == segments[|p| := PLACEHOLDER])
  {
    var all := paths + [segments];
    if merge.Some? {
      var p :| Frontier(all, p) && Asks(merge.value, origin, all, p);
      StepTheorem(paths, segments, p);
    } else {
      forall p | Literal(p)
        ensures !(PLACEHOLDER in Kids(all, p) && |LiteralKids(all, p)| >= 2)
        ensures !(|LiteralKids(all, p)| >= 3 && 10 * |LiteralKids(all, p)| > 3 * Count(all, p))
      {
        FreeShape(all, p);
      }
    }
  }

  /** The requests of a drain: one per collapsed node, in order, each for the trie as it then was. */
  ghost predicate AsksAll(merges: seq<MergeRequest>, origin: Origin, paths: seq<Path>, parents: seq<Path>) {
    && |merges| == |parents|
    && forall i {:trigger merges[i]} | 0 <= i < |merges| ::
      Asks(merges[i], origin, Drained(paths, parents[..i]), parents[i])
  }

  lemma AsksOneMore(merges: seq<MergeRequest>, origin: Origin, paths: seq<Path>, parents: seq<Path>,
                    request: MergeRequest, parent: Path)
    requires AsksAll(merges, origin, paths, parents) && Asks(request, origin, Drained(paths, parents), parent)
    ensures AsksAll(merges + [request], origin, paths, parents + [parent])
  {
    var more := parents + [parent];
    forall i {:trigger (merges + [request])[i]} | 0 <= i < |more|
      ensures Asks((merges + [request])[i], origin, Drained(paths, more[..i]), more[i]) {
      if i < |parents| {
        assert merges[i] == (merges + [request])[i];
        assert more[..i] == parents[..i];
      } else {
        assert more[..i] == parents;
      }
    }
  }

  lemma DrainOneMore(paths: seq<Path>, parents: seq<Path>, parent: Path)
    requires CanDrain(paths, parents) && Frontier(Drained(paths, parents), parent)
    ensures CanDrain(paths, parents + [parent])
    ensures Drained(paths, parents + [parent]) == Collapse(Drained(paths, parents), parent)
    ensures LiteralNodes(Drained(paths, parents + [parent])) < LiteralNodes(Drained(paths, parents))
  {
    assert (parents + [parent])[..|parents|] == parents;
    CollapseRemovesLiterals(Drained(paths, parents), parent);
  }

  /** The drain loop: check, collapse, request a merge, until nothing is left to collapse. */
  method Drain(origin: Origin, root: TrieNode, ghost at: Labels, ghost paths: seq<Path>)
    returns (merges: seq<MergeRequest>, ghost after: Labels, ghost parents: seq<Path>)
    requires Represents(root, at, paths)
    modifies at.Values
    ensures CanDrain(paths, parents) && AsksAll(merges, origin, paths, parents)
    ensures Settled(root, after, OnePass(paths)) && Drained(paths, parents) == OnePass(paths)
    ensures CollapseFree(paths) ==> merges == []
    ensures forall n | n in after.Values :: n in at.Values || fresh(n)
  {
    merges, after, parents := [], at, [];
    while true
      invariant CanDrain(paths, parents) && AsksAll(merges, origin, paths, parents)
      invariant Represents(root, after, Drained(paths, parents))
      invariant CollapseFree(paths) ==> parents == []
      invariant forall n | n in after.Values :: n in at.Values || fresh(n)
      decreases LiteralNodes(Drained(paths, parents))
    {
      ghost var current := Drained(paths, parents);
      var result, found, keys;
      result, found, keys, after := CheckAndCollapse(root, after, current);
      if !found {
        break;
      }
      var request := RequestMerge(origin, result.parentSegments, keys, current);
      AsksOneMore(merges, origin, paths, parents, request, result.parentSegments);
      DrainOneMore(paths, parents, result.parentSegments);
      merges, parents := merges + [request], parents + [result.parentSegments];
    }
    DrainTheorem(paths, parents);
    OnePassIsFree(paths);
  }

  /** The requests of a drain that goes on until nothing is left to collapse. */
  ghost predicate AsksForDrain(merges: seq<MergeRequest>, origin: Origin, paths: seq<Path>, parents: seq<Path>) {
    CanDrain(paths, parents) && AsksAll(merges, origin, paths, parents) && Drained(paths, parents) == OnePass(paths)
  }

  lemma ObservableSnoc(paths: seq<string>, path: string)
    ensures Observable(paths + [path]) == Observable(paths) + if Segments(path) == [] then [] else [Segments(path)]
  {
    assert (paths + [path])[..|paths|] == paths;
  }

  /** The stored paths whose segments run through p. */
  ghost function Through(paths: seq<string>, p: Path): set<nat> {
    set i | 0 <= i < |paths| && p <= Segments(paths[i])
  }

  lemma ThroughOneMore(paths: seq<string>, p: Path)
    requires paths != []
    ensures var n := |paths| - 1;
      |Through(paths, p)| == |Through(paths[..n], p)| + if p <= Segments(paths[n]) then 1 else 0
  {
    var n := |paths| - 1;
    var before := Through(paths[..n], p);
    assert n !in before;
    assert Through(paths, p) == before + if p <= Segments(paths[n]) then {n} else {};
  }

  /** Below the root, every node counts the stored paths whose segments run through it. */
  lemma {:induction false} ObservableCount(paths: seq<string>, p: Path)
    requires p != []
    ensures Count(Observable(paths), p) == |Through(paths, p)|
  {
    if paths != [] {
      var n := |paths| - 1;
      ObservableCount(paths[..n], p);
      ThroughOneMore(paths, p);
      assert Observable(paths[..n]) + [] == Observable(paths[..n]);
      if Segments(paths[n]) != [] {
        CountSnoc(Observable(paths[..n]), Segments(paths[n]), p);
      }
    }
  }

  /** Observes one stored path, unless it is the root path. */
  method ObserveStored(root: TrieNode, path: string, ghost at: Labels, ghost paths: seq<string>)
    returns (ghost after: Labels)
    requires Represents(root, at, Observable(paths))
    modifies at.Values
    ensures Represents(root, after, Observable(paths + [path]))
    ensures forall n | n in after.Values :: n in at.Values || fresh(n)
  {
    ObservableSnoc(paths, path);
    after := at;
    var segments := SplitPathSegments(path);
    if |segments| > 0 {
      after := root.Observe(segments, at, Observable(paths));
    } else {
      assert Observable(paths) + [] == Observable(paths);
    }
  }

  /** The trie of stored paths. */
  method ObserveAll(paths: seq<string>) returns (root: TrieNode, ghost at: Labels)
    ensures Represents(root, at, Observable(paths)) && fresh(at.Values)
  {
    root := new TrieNode();
    at := map[[] := root];
    EmptyFree();
    for i := 0 to |paths|
      invariant Represents(root, at, Observable(paths[..i]))
      invariant fresh(at.Values)
    {
      assert paths[..i + 1] == paths[..i] + [paths[i]];
      at := ObserveStored(root, paths[i], at, paths[..i]);
    }
    assert paths[..|paths|] == paths;
  }

  /** A new trie of stored paths, drained. */
  method RebuildTrie(origin: Origin, paths: seq<string>)
    returns (root: TrieNode, merges: seq<MergeRequest>, ghost at: Labels, ghost parents: seq<Path>)
    ensures Settled(root, at, OnePass(Observable(paths))) && fresh(at.Values)
    ensures AsksForDrain(merges, origin, Observable(paths), parents)
  {
    root, at := ObserveAll(paths);
    merges, at, parents := Drain(origin, root, at, Observable(paths));
  }

  /** What is filed for an origin after a rebuild. */
  ghost predicate RebuiltAt(filed: map<Origin, seq<Path>>, was: map<Origin, seq<Path>>, origins: seq<Origin>,
                            listing: map<Origin, seq<string>>, o: Origin)
  {
    if o in origins && o in listing then o in filed && filed[o] == OnePass(Observable(listing[o]))
    else (o in filed <==> o in was) && (o in was ==> filed[o] == was[o])
  }

  ghost predicate AllRebuilt(filed: map<Origin, seq<Path>>, was: map<Origin, seq<Path>>, origins: seq<Origin>,
                             listing: map<Origin, seq<string>>)
  {
    forall o :: RebuiltAt(filed, was, origins, listing, o)
  }

  lemma RebuiltOneMore(before: map<Origin, seq<Path>>, was: map<Origin, seq<Path>>, origins: seq<Origin>,
                       listing: map<Origin, seq<string>>, origin: Origin)
    requires AllRebuilt(before, was, origins, listing)
    ensures
      var after := if origin in listing then before[origin := OnePass(Observable(listing[origin]))] else before;
      AllRebuilt(after, was, origins + [origin], listing)
  {
    var after := if origin in listing then before[origin := OnePass(Observable(listing[origin]))] else before;
    forall o ensures RebuiltAt(after, was, origins + [origin], listing, o) {
      assert RebuiltAt(before, was, origins, listing, o);
    }
  }

  lemma RebuiltAll(filed: map<Origin, seq<Path>>, was: map<Origin, seq<Path>>, origins: seq<Origin>,
                   listing: map<Origin, seq<string>>)
    requires AllRebuilt(filed, was, origins, listing)
    ensures forall o :: o in filed <==> o in was || (o in origins && o in listing)
    ensures forall o | o in origins && o in listing :: filed[o] == OnePass(Observable(listing[o]))
    ensures forall o | o in was && !(o in origins && o in listing) :: filed[o] == was[o]
  {
    forall o
      ensures o in filed <==> o in was || (o in origins && o in listing)
      ensures o in origins && o in listing ==> filed[o] == OnePass(Observable(listing[o]))
      ensures o in was && !(o in origins && o in listing) ==> filed[o] == was[o]
    {
      assert RebuiltAt(filed, was, origins, listing, o);
    }
  }

  /** The requests that a rebuild of one origin adds to those before it. */
  ghost predicate AsksForOrigin(before: seq<MergeRequest>, after: seq<MergeRequest>, o: Origin, paths: seq<Path>) {
    before <= after && exists parents :: AsksForDrain(after[|before|..], o, paths, parents)
  }

  /** The requests of a rebuild: those of the drains of the listed origins, one after the other. */
  ghost predicate AsksForRebuild(merges: seq<MergeRequest>, origins: seq<Origin>, listing: map<Origin, seq<string>>)
    decreases |origins|
  {
    if origins == [] then merges == []
    else
      var o, rest := origins[|origins| - 1], origins[..|origins| - 1];
      if o in listing
      then exists before ::
        AsksForRebuild(before, rest, listing) && AsksForOrigin(before, merges, o, Observable(listing[o]))
      else AsksForRebuild(merges, rest, listing)
  }

  lemma AsksForOneMore(before: seq<MergeRequest>, requests: seq<MergeRequest>, done: seq<Origin>, o: Origin,
                       listing: map<Origin, seq<string>>, parents: seq<Path>)
    requires AsksForRebuild(before, done, listing) && o in listing
    requires AsksForDrain(requests, o, Observable(listing[o]), parents)
    ensures AsksForRebuild(before + requests, done + [o], listing)
  {
    assert (done + [o])[..|done|] == done;
    assert (before + requests)[|before|..] == requests;
    assert AsksForOrigin(before, before + requests, o, Observable(listing[o]));
  }

  lemma AsksForNone(merges: seq<MergeRequest>, done: seq<Origin>, o: Origin, listing: map<Origin, seq<string>>)
    requires AsksForRebuild(merges, done, listing) && o !in listing
    ensures AsksForRebuild(merges, done + [o], listing)
  {
    assert (done + [o])[..|done|] == done;
  }

  /** The requests of a drain from one position to another. */
  ghost predicate AsksBetween(merges: seq<MergeRequest>, a: nat, b: nat, o: Origin, paths: seq<Path>) {
    a <= b <= |merges| && exists parents :: AsksForDrain(merges[a..b], o, paths, parents)
  }

  lemma LastAsks(before: seq<MergeRequest>, merges: seq<MergeRequest>, o: Origin, paths: seq<Path>)
    requires AsksForOrigin(before, merges, o, paths)
    ensures AsksBetween(merges, |before|, |merges|, o, paths)
  {
    assert merges[|before|..|merges|] == merges[|before|..];
  }

  lemma StillAsks(before: seq<MergeRequest>, merges: seq<MergeRequest>, a: nat, b: nat, o: Origin, paths: seq<Path>)
    requires before <= merges && AsksBetween(before, a, b, o, paths)
    ensures AsksBetween(merges, a, b, o, paths)
  {
    assert before[a..b] == merges[a..b];
  }

  /** Each listed origin has its requests among those of a rebuild, in one piece. */
  lemma {:induction false} RebuildAsks(merges: seq<MergeRequest>, origins: seq<Origin>,
                                       listing: map<Origin, seq<string>>, k: nat)
    returns (a: nat, b: nat)
    requires AsksForRebuild(merges, origins, listing) && k < |origins| && origins[k] in listing
    ensures AsksBetween(merges, a, b, origins[k], Observable(listing[origins[k]]))
    decreases |origins|
  {
    var n := |origins| - 1;
    var o, rest := origins[n], origins[..n];
    if o in listing {
      var before :| AsksForRebuild(before, rest, listing) && AsksForOrigin(before, merges, o, Observable(listing[o]));
      if k == n {
        a, b := |before|, |merges|;
        LastAsks(before, merges, o, Observable(listing[o]));
      } else {
        assert rest[k] == origins[k];
        a, b := RebuildAsks(before, rest, listing, k);
        StillAsks(before, merges, a, b, origins[k], Observable(listing[origins[k]]));
      }
    } else {
      assert rest[k] == origins[k];
      a, b := RebuildAsks(merges, rest, listing, k);
    }
  }

  ghost predicate Separate(labels: map<Origin, Labels>, o: Origin, o': Origin) {
    o in labels && o' in labels && o != o' ==> labels[o].Values !! labels[o'].Values
  }

  /** No two tries share a node. */
  ghost predicate AllSeparate(labels: map<Origin, Labels>) {
    forall o, o' :: Separate(labels, o, o')
  }

  lemma SeparateAfter(labels: map<Origin, Labels>, origin: Origin, at: Labels)
    requires AllSeparate(labels)
    requires forall o | o in labels && o != origin :: labels[o].Values !! at.Values
    ensures AllSeparate(labels[origin := at])
  {
    var next := labels[origin := at];
    forall o, o' ensures Separate(next, o, o') {
      assert Separate(labels, o, o');
    }
  }

  /** A settled trie among the nodes of the resolver. */
  ghost predicate Entered(root: TrieNode, at: Labels, paths: seq<Path>, all: set<TrieNode>)
    reads at.Values
  {
    at.Values <= all && Settled(root, at, paths)
  }

  class Resolver {
    var tries: map<Origin, TrieNode>
    ghost var labels: map<Origin, Labels>
    ghost var filed: map<Origin, seq<Path>>
    ghost var Repr: set<TrieNode>

    /** The entries of an origin, whose nodes are apart from those given. */
    ghost predicate Holds(o: Origin, others: set<TrieNode>)
      reads this, if o in labels then labels[o].Values else {}
    {
      && o in tries && o in labels && o in filed
      && labels[o].Values !! others
      && Entered(tries[o], labels[o], filed[o], Repr)
    }

    /** Valid, except for the trie of one origin, whose nodes are given. */
    ghost predicate ValidBut(origin: Origin, mine: set<TrieNode>)
      reads this, set o, p | o in labels && o != origin && p in labels[o] :: labels[o][p]
    {
      && tries.Keys == labels.Keys == filed.Keys
      && (forall o :: o in tries && o != origin ==> Holds(o, mine))
      && AllSeparate(labels)
    }

    ghost predicate Valid()
      reads this, set o, p | o in labels && p in labels[o] :: labels[o][p]
    {
      && tries.Keys == labels.Keys == filed.Keys
      && (forall o :: o in tries ==> Holds(o, {}))
      && AllSeparate(labels)
    }

    /** In every trie of the resolver the literal nodes are as small as after a run of observations. */
    lemma TrieShape(o: Origin, p: Path)
      requires Valid() && o in filed && Literal(p)
      ensures PLACEHOLDER in Kids(filed[o], p) ==> |LiteralKids(filed[o], p)| <= 1
      ensures |LiteralKids(filed[o], p)| >= 3 ==> 10 * |LiteralKids(filed[o], p)| <= 3 * Count(filed[o], p)
    {
      assert Holds(o, {});
      FreeShape(filed[o], p);
    }

    /** What has been filed for an origin. */
    ghost function Filings(o: Origin): seq<Path>
      reads this
    {
      if o in filed then filed[o] else []
    }

    constructor ()
      ensures Valid() && filed == map[] && Repr == {}
    {
      tries, labels, filed, Repr := map[], map[], map[], {};
    }

    /** Enters a collapse-free trie for an origin. */
    method SetTrie(origin: Origin, root: TrieNode, ghost at: Labels, ghost paths: seq<Path>)
      requires ValidBut(origin, at.Values) && Represents(root, at, paths) && CollapseFree(paths)
      modifies this
      ensures Valid() && Repr == old(Repr) + at.Values && filed == old(filed)[origin := paths]
      ensures tries[origin] == root && labels[origin] == at
    {
      ghost var all := Repr + at.Values;
      var roots := tries[origin := root];
      ghost var marks, lists := labels[origin := at], filed[origin := paths];
      forall o | o in roots ensures Entered(roots[o], marks[o], lists[o], all) {
        if o != origin { assert Holds(o, at.Values); }
      }
      SeparateAfterEntry(origin, at);
      tries, labels, filed, Repr := roots, marks, lists, all;
      forall o | o in tries ensures Holds(o, {}) {
        assert Entered(roots[o], marks[o], lists[o], all);
      }
    }

    lemma SeparateAfterEntry(origin: Origin, at: Labels)
      requires ValidBut(origin, at.Values)
      ensures AllSeparate(labels[origin := at])
    {
      forall o | o in labels && o != origin ensures labels[o].Values !! at.Values {
        assert Holds(o, at.Values);
      }
      SeparateAfter(labels, origin, at);
    }

    /** Records a path; at most one collapse follows, and it decides the returned path. */
    method ObservePath(origin: Origin, normalizedPath: string) returns (path: string, merge: Option<MergeRequest>)
      requires Valid()
      modifies this, Repr
      ensures Valid() && forall n | n in Repr :: n in old(Repr) || fresh(n)
      ensures Segments(normalizedPath) == [] ==> path == normalizedPath && merge == None && filed == old(filed)
      ensures Segments(normalizedPath) != [] ==>
        filed == old(filed)[origin := Step(old(Filings(origin)), Segments(normalizedPath))]
      ensures Segments(normalizedPath) != [] ==>
        FiledAs(origin, old(Filings(origin)), Segments(normalizedPath), normalizedPath, path, merge)
    {
      var segments := SplitPathSegments(normalizedPath);
      if |segments| == 0 {
        return normalizedPath, None;
      }
      ghost var before := Filings(origin);
      var result, found, keys := FileSegments(origin, segments);
      path, merge := Answer(origin, segments, normalizedPath, result, found, keys, before);
    }

    /** Observes and collapses in the trie of an origin. */
    method FileSegments(origin: Origin, segments: Path) returns (result: CollapseResult, found: bool, keys: seq<string>)
      requires Valid()
      modifies this, Repr
      ensures Valid() && forall n | n in Repr :: n in old(Repr) || fresh(n)
      ensures CollapseFree(old(Filings(origin))) && FoundIn(result, found, keys, old(Filings(origin)) + [segments])
      ensures filed == old(filed)[origin := Step(old(Filings(origin)), segments)]
    {
      ghost var before := Filings(origin);
      var root; ghost var first;
      root, first := TrieOf(origin);
      assert first.Values <= Repr && CollapseFree(before) by { assert Holds(origin, {}); }
      ghost var at;
      result, found, keys, at := ObserveIn(root, segments, first, before, origin);
      SetTrie(origin, root, at, Step(before, segments));
      UpdateTwice(old(filed), origin, before, Step(before, segments));
    }

    /** The trie of an origin, which is created on demand. */
    method TrieOf(origin: Origin) returns (root: TrieNode, ghost at: Labels)
      requires Valid()
      modifies this
      ensures Valid() && old(Repr) <= Repr && forall n | n in Repr :: n in old(Repr) || fresh(n)
      ensures origin in tries && tries[origin] == root && labels[origin] == at
      ensures filed == old(filed)[origin := old(Filings(origin))]
    {
      if origin !in tries {
        root := new TrieNode();
        at := map[[] := root];
        EmptyFree();
        assert at[[]] == root && root !in Repr;
        forall o | o in tries && o != origin ensures Holds(o, at.Values) {
          assert old(Holds(o, {}));
        }
        SetTrie(origin, root, at, []);
      } else {
        root, at := tries[origin], labels[origin];
        UpdateSame(filed, origin);
      }
    }

    /** The critical section of an observation: the other tries stay as they are. */
    method ObserveIn(root: TrieNode, segments: Path, ghost at: Labels, ghost paths: seq<Path>, ghost origin: Origin)
      returns (result: CollapseResult, found: bool, keys: seq<string>, ghost after: Labels)
      requires Valid() && origin in tries && tries[origin] == root && labels[origin] == at && filed[origin] == paths
      modifies at.Values
      ensures FoundIn(result, found, keys, paths + [segments])
      ensures Settled(root, after, Step(paths, segments)) && ValidBut(origin, after.Values)
      ensures forall n | n in after.Values :: n in at.Values || fresh(n)
    {
      OthersApart(origin);
      assert Holds(origin, {});
      result, found, keys, after := ObserveTrie(root, segments, at, paths);
      forall o | o in tries && o != origin ensures Holds(o, after.Values) {
        assert old(Holds(o, at.Values));
      }
    }

    lemma OthersApart(origin: Origin)
      requires Valid() && origin in tries
      ensures forall o :: o in tries && o != origin ==> Holds(o, labels[origin].Values)
    {
      forall o | o in tries && o != origin ensures Holds(o, labels[origin].Values) {
        assert Holds(o, {}) && Separate(labels, o, origin);
      }
    }

    /** Drains the trie of an origin again after a merge: there is never anything to drain. */
    method DrainCollapses(origin: Origin) returns (merges: seq<MergeRequest>)
      requires Valid()
      modifies this, Repr
      ensures Valid() && merges == [] && filed == old(filed)
      ensures forall n | n in Repr :: n in old(Repr) || fresh(n)
    {
      if origin !in tries {
        return [];
      }
      var root := tries[origin];
      ghost var before, paths := labels[origin], filed[origin];
      assert before.Values <= Repr by { assert Holds(origin, {}); }
      ghost var at;
      merges, at := DrainIn(origin, root, before, paths);
      UpdateSame(filed, origin);
      SetTrie(origin, root, at, paths);
    }

    /** The critical sections of a drain: the other tries stay as they are. */
    method DrainIn(origin: Origin, root: TrieNode, ghost at: Labels, ghost paths: seq<Path>)
      returns (merges: seq<MergeRequest>, ghost after: Labels)
      requires Valid() && origin in tries && tries[origin] == root && labels[origin] == at && filed[origin] == paths
      modifies at.Values
      ensures merges == [] && Settled(root, after, paths) && ValidBut(origin, after.Values)
      ensures forall n | n in after.Values :: n in at.Values || fresh(n)
    {
      OthersApart(origin);
      assert Holds(origin, {});
      ghost var parents;
      merges, after, parents := Drain(origin, root, at, paths);
      OnePassOfFree(paths);
      forall o | o in tries && o != origin ensures Holds(o, after.Values) {
        assert old(Holds(o, at.Values));
      }
    }

    /** Replaces the trie of one origin by the drained trie of its stored paths. */
    method RebuildOrigin(origin: Origin, paths: seq<string>)
      returns (requests: seq<MergeRequest>, ghost parents: seq<Path>)
      requires Valid()
      modifies this
      ensures Valid() && filed == old(filed)[origin := OnePass(Observable(paths))]
      ensures AsksForDrain(requests, origin, Observable(paths), parents)
    {
      var root; ghost var at;
      root, requests, at, parents := RebuildTrie(origin, paths);
      forall o | o in tries && o != origin ensures Holds(o, at.Values) {
        assert Holds(o, {});
      }
      SetTrie(origin, root, at, OnePass(Observable(paths)));
    }

    /** Goes on with the next origin. */
    method RebuildNext(origin: Origin, listing: map<Origin, seq<string>>, merges: seq<MergeRequest>,
                       ghost done: seq<Origin>, ghost was: map<Origin, seq<Path>>)
      returns (more: seq<MergeRequest>)
      requires Valid() && AllRebuilt(filed, was, done, listing) && AsksForRebuild(merges, done, listing)
      modifies this
      ensures Valid() && AllRebuilt(filed, was, done + [origin], listing)
      ensures AsksForRebuild(more, done + [origin], listing)
    {
      RebuiltOneMore(filed, was, done, listing, origin);
      if origin !in listing {
        AsksForNone(merges, done, origin, listing);
        return merges;
      }
      var requests; ghost var parents;
      requests, parents := RebuildOrigin(origin, listing[origin]);
      AsksForOneMore(merges, requests, done, origin, listing, parents);
      more := merges + requests;
    }

    /** Replaces the tries of the stored origins by the drained tries of their stored paths. */
    method RebuildFromDB(origins: seq<Origin>, listing: map<Origin, seq<string>>) returns (merges: seq<MergeRequest>)
      requires Valid()
      modifies this
      ensures Valid() && forall o :: o in filed <==> o in old(filed) || (o in origins && o in listing)
      ensures forall o | o in origins && o in listing :: filed[o] == OnePass(Observable(listing[o]))
      ensures forall o | o in old(filed) && !(o in origins && o in listing) :: filed[o] == old(filed)[o]
      ensures AsksForRebuild(merges, origins, listing)
    {
      merges := [];
      ghost var was := filed;
      for i := 0 to |origins|
        invariant Valid() && AllRebuilt(filed, was, origins[..i], listing)
        invariant AsksForRebuild(merges, origins[..i], listing)
      {
        assert origins[..i + 1] == origins[..i] + [origins[i]];
        merges := RebuildNext(origins[i], listing, merges, origins[..i], was);
      }
      assert origins[..|origins|] == origins;
      RebuiltAll(filed, was, origins, listing);
    }
  }
}
