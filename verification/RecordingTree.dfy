/**
  The endpoint tree of internal/api/recordings.go: buildTree, insert and toTreePathNodes.

  The nodes live on the heap; the ghost labelling gives each node its path, as for the
  trie of the resolver.  The counts of the result are specified on the list of entries.
 */
module RecordingTree {
  import opened Endpoints
  import opened EndpointPaths
  import opened Labelling
  import opened NameLists
  import opened PathTrieSpec
  import opened Sorting
  import opened SortedStrings

  datatype TreeEntry = TreeEntry(origin: Origin, path: string, count: nat)

  datatype TreePathNode = TreePathNode(
    segment: string,
    fullPath: string,
    recordingCount: nat,
    children: seq<TreePathNode>)

  datatype TreeOrigin = TreeOrigin(origin: Origin, recordingCount: nat, paths: seq<TreePathNode>)

  // ---- What is counted ----

  /** The count of the entries whose segments are exactly p. */
  function CountAt(entries: seq<TreeEntry>, p: Path): nat {
    if entries == [] then 0
    else
      var e := entries[|entries| - 1];
      CountAt(entries[..|entries| - 1], p) + if Segments(e.path) == p then e.count else 0
  }

  /** The count of the entries whose segments have the prefix p. */
  function CountUnder(entries: seq<TreeEntry>, p: Path): nat {
    if entries == [] then 0
    else
      var e := entries[|entries| - 1];
      CountUnder(entries[..|entries| - 1], p) + if p <= Segments(e.path) then e.count else 0
  }

  /** The path of the last entry with these segments. */
  function PathAt(entries: seq<TreeEntry>, p: Path): string {
    if entries == [] then ""
    else
      var e := entries[|entries| - 1];
      if Segments(e.path) == p then e.path else PathAt(entries[..|entries| - 1], p)
  }

  /** The path of the last of several entries with the same segments counts. */
  lemma {:induction false} PathAtLast(entries: seq<TreeEntry>, p: Path, i: nat)
    requires i < |entries| && Segments(entries[i].path) == p
    requires forall j | i < j < |entries| :: Segments(entries[j].path) != p
    ensures PathAt(entries, p) == entries[i].path
  {
    var n := |entries| - 1;
    if i < n {
      assert Segments(entries[n].path) != p && entries[..n][i] == entries[i];
      forall j | i < j < n ensures Segments(entries[..n][j].path) != p {
        assert entries[..n][j] == entries[j];
      }
      PathAtLast(entries[..n], p, i);
    }
  }

  lemma {:induction false} PathAtNone(entries: seq<TreeEntry>, p: Path)
    requires forall e | e in entries :: Segments(e.path) != p
    ensures PathAt(entries, p) == ""
  {
    if entries != [] {
      PathAtNone(entries[..|entries| - 1], p);
    }
  }

  predicate RunsThrough(e: TreeEntry, p: Path) {
    p <= Segments(e.path)
  }

  ghost predicate Occurs(entries: seq<TreeEntry>, p: Path) {
    p == [] || exists e :: e in entries && RunsThrough(e, p)
  }

  lemma OccursSnoc(entries: seq<TreeEntry>, e: TreeEntry, p: Path)
    ensures Occurs(entries + [e], p) <==> Occurs(entries, p) || RunsThrough(e, p)
  {
    if Occurs(entries, p) && p != [] {
      var x :| x in entries && RunsThrough(x, p);
      assert x in entries + [e];
    }
    if RunsThrough(e, p) {
      assert e in entries + [e];
    }
  }

  // ---- A node counts itself and its children ----

  function CountKids(entries: seq<TreeEntry>, p: Path, keys: seq<string>): nat {
    if keys == [] then 0
    else CountKids(entries, p, keys[..|keys| - 1]) + CountUnder(entries, Snoc(p, keys[|keys| - 1]))
  }

  lemma CountKidsSnoc(entries: seq<TreeEntry>, p: Path, keys: seq<string>, k: string)
    ensures CountKids(entries, p, keys + [k]) == CountKids(entries, p, keys) + CountUnder(entries, Snoc(p, k))
  {
    assert (keys + [k])[..|keys|] == keys;
  }

  lemma SnocStarts(p: Path, k: string, segments: Path)
    ensures Snoc(p, k) <= segments <==> p < segments && segments[|p|] == k
  {
  }

  lemma {:induction false} CountKidsOneMore(entries: seq<TreeEntry>, p: Path, keys: seq<string>)
    requires entries != [] && Distinct(keys)
    ensures var n, e := |entries| - 1, entries[|entries| - 1];
      CountKids(entries, p, keys) == CountKids(entries[..n], p, keys)
        + if p < Segments(e.path) && Segments(e.path)[|p|] in keys then e.count else 0
  {
    if keys != [] {
      var n, m := |entries| - 1, |keys| - 1;
      assert keys == keys[..m] + [keys[m]];
      CountKidsOneMore(entries, p, keys[..m]);
      CountKidsSnoc(entries, p, keys[..m], keys[m]);
      CountKidsSnoc(entries[..n], p, keys[..m], keys[m]);
      SnocStarts(p, keys[m], Segments(entries[n].path));
    }
  }

  lemma {:induction false} CountKidsNone(p: Path, keys: seq<string>)
    ensures CountKids([], p, keys) == 0
  {
    if keys != [] {
      CountKidsNone(p, keys[..|keys| - 1]);
    }
  }

  ghost predicate AllKids(entries: seq<TreeEntry>, p: Path, keys: seq<string>) {
    forall k :: Occurs(entries, Snoc(p, k)) ==> k in keys
  }

  lemma AllKidsInit(init: seq<TreeEntry>, e: TreeEntry, p: Path, keys: seq<string>)
    requires AllKids(init + [e], p, keys)
    ensures AllKids(init, p, keys)
    ensures p < Segments(e.path) ==> Segments(e.path)[|p|] in keys
  {
    forall k | Occurs(init, Snoc(p, k)) ensures k in keys {
      OccursSnoc(init, e, Snoc(p, k));
    }
    if p < Segments(e.path) {
      var k := Segments(e.path)[|p|];
      assert RunsThrough(e, Snoc(p, k));
      OccursSnoc(init, e, Snoc(p, k));
    }
  }

  /** The entries under p are those at p and those under one of its children. */
  lemma {:induction false} CountSplits(entries: seq<TreeEntry>, p: Path, keys: seq<string>)
    requires Distinct(keys) && AllKids(entries, p, keys)
    ensures CountUnder(entries, p) == CountAt(entries, p) + CountKids(entries, p, keys)
  {
    if entries == [] {
      CountKidsNone(p, keys);
    } else {
      var n := |entries| - 1;
      assert entries == entries[..n] + [entries[n]];
      AllKidsInit(entries[..n], entries[n], p, keys);
      CountSplits(entries[..n], p, keys);
      CountKidsOneMore(entries, p, keys);
    }
  }

  lemma {:induction false} CountTotal(entries: seq<TreeEntry>)
    ensures CountUnder(entries, []) == TotalOf(entries)
  {
    if entries != [] {
      CountTotal(entries[..|entries| - 1]);
    }
  }

  function TotalOf(entries: seq<TreeEntry>): nat {
    if entries == [] then 0 else TotalOf(entries[..|entries| - 1]) + entries[|entries| - 1].count
  }

  // ---- The trie ----

  class PathNode {
    var children: map<string, PathNode>
    var count: nat
    var fullPath: string

    constructor ()
      ensures children == map[] && count == 0 && fullPath == ""
    {
      children, count, fullPath := map[], 0, "";
    }
  }

  type Labels = map<Path, PathNode>

  ghost predicate Linked(at: Labels, p: Path, k: string)
    reads at.Values`children
  {
    && (Snoc(p, k) in at <==> p in at && k in at[p].children)
    && (Snoc(p, k) in at ==> at[Snoc(p, k)] == at[p].children[k])
  }

  ghost predicate IsTree(root: PathNode, at: Labels)
    reads at.Values`children
  {
    && [] in at && at[[]] == root
    && Injective(at)
    && (forall p, k :: Linked(at, p, k))
  }

  /** The node at p holds the count and the path of its entries. */
  ghost predicate Filled(at: Labels, p: Path, count: nat, path: string)
    reads at.Values`count, at.Values`fullPath
  {
    if p in at then at[p].count == count && at[p].fullPath == path else count == 0 && path == ""
  }

  ghost predicate Represents(root: PathNode, at: Labels, entries: seq<TreeEntry>)
    reads at.Values
  {
    && IsTree(root, at)
    && (forall p :: p in at <==> Occurs(entries, p))
    && (forall p :: Filled(at, p, CountAt(entries, p), PathAt(entries, p)))
  }

  lemma LabelsBelow(root: PathNode, at: Labels, p: Path, q: Path)
    requires IsTree(root, at) && q in at && p <= q
    ensures p in at
    decreases |q|
  {
    if p != q {
      var n := |q| - 1;
      assert Snoc(q[..n], q[n]) == q && Linked(at, q[..n], q[n]);
      LabelsBelow(root, at, p, q[..n]);
    }
  }

  lemma AddLeaf(root: PathNode, at: Labels, p: Path, k: string, leaf: PathNode)
    requires [] in at && at[[]] == root && Injective(at)
    requires p in at && k in at[p].children && at[p].children[k] == leaf && leaf !in at.Values && leaf.children == map[]
    requires forall q, l :: Snoc(q, l) != Snoc(p, k) ==> Linked(at, q, l)
    requires forall q | q in at :: !(Snoc(p, k) <= q)
    ensures IsTree(root, at[Snoc(p, k) := leaf])
  {
    var next := Snoc(p, k);
    var grown := at[next := leaf];
    forall q, r ensures Apart(grown, q, r) {
      assert Apart(at, q, r);
    }
    forall q, l ensures Linked(grown, q, l) {
      if Snoc(q, l) == next {
        assert q == Snoc(q, l)[..|q|] == next[..|p|] == p && l == next[|p|];
      } else {
        assert Linked(at, q, l);
        if q == next {
          assert !(next <= Snoc(q, l)) || Snoc(q, l) !in at;
        }
      }
    }
  }

  /** The path to a node, walked or created. */
  method Open(root: PathNode, segments: Path, ghost at: Labels, ghost entries: seq<TreeEntry>)
    returns (node: PathNode, ghost grown: Labels)
    requires Represents(root, at, entries)
    modifies at.Values
    ensures IsTree(root, grown) && segments in grown && grown[segments] == node
    ensures forall p :: p in grown <==> Occurs(entries, p) || p <= segments
    ensures forall p :: Filled(grown, p, CountAt(entries, p), PathAt(entries, p))
    ensures forall n | n in grown.Values :: n in at.Values || fresh(n)
  {
    grown, node := at, root;
    ghost var here: Path := [];
    for i := 0 to |segments|
      invariant here == segments[..i]
      invariant IsTree(root, grown) && here in grown && grown[here] == node
      invariant forall p :: p in grown <==> Occurs(entries, p) || p <= here
      invariant forall p :: Filled(grown, p, CountAt(entries, p), PathAt(entries, p))
      invariant forall n | n in grown.Values :: n in at.Values || fresh(n)
    {
      ghost var next, n := Snoc(here, segments[i]), i + 1;
      assert segments[..n] == next;
      assert Linked(grown, here, segments[i]);
      if segments[i] !in node.children {
        grown := AddChild(root, node, segments[i], here, grown, entries);
      }
      assert Linked(grown, here, segments[i]);
      forall p ensures p in grown <==> Occurs(entries, p) || p <= next {
        assert p <= next <==> p <= here || p == next;
      }
      node, here := node.children[segments[i]], next;
    }
    assert segments[..|segments|] == segments;
  }

  /** A new child of the node at p. */
  method AddChild(root: PathNode, node: PathNode, k: string, ghost p: Path, ghost at: Labels,
                  ghost entries: seq<TreeEntry>)
    returns (ghost grown: Labels)
    requires IsTree(root, at) && p in at && at[p] == node && k !in node.children
    requires forall q :: Filled(at, q, CountAt(entries, q), PathAt(entries, q))
    modifies node`children
    ensures IsTree(root, grown) && forall q :: q in grown <==> q in at || q == Snoc(p, k)
    ensures forall q | q in at :: grown[q] == at[q]
    ensures forall q :: Filled(grown, q, CountAt(entries, q), PathAt(entries, q))
    ensures forall n | n in grown.Values :: n in at.Values || fresh(n)
  {
    ghost var next := Snoc(p, k);
    assert Linked(at, p, k);
    forall q | q in at ensures !(next <= q) {
      if next <= q { LabelsBelow(root, at, next, q); }
    }
    var child := new PathNode();
    node.children := node.children[k := child];
    forall q, l | Snoc(q, l) != next ensures Linked(at, q, l) {
      assert old(Linked(at, q, l)) && Apart(at, q, p);
      assert q == p ==> l != k;
    }
    AddLeaf(root, at, p, k, child);
    grown := at[next := child];
    forall q ensures Filled(grown, q, CountAt(entries, q), PathAt(entries, q)) {
      assert old(Filled(at, q, CountAt(entries, q), PathAt(entries, q)));
    }
  }

  /** Inserts an entry. */
  method Insert(root: PathNode, e: TreeEntry, ghost at: Labels, ghost entries: seq<TreeEntry>)
    returns (ghost grown: Labels)
    requires Represents(root, at, entries)
    modifies at.Values
    ensures Represents(root, grown, entries + [e])
    ensures forall n | n in grown.Values :: n in at.Values || fresh(n)
  {
    var segments := SplitPathSegments(e.path);
    var node;
    node, grown := Open(root, segments, at, entries);
    label walked:
    node.count := node.count + e.count;
    node.fullPath := e.path;
    assert (entries + [e])[..|entries|] == entries;
    forall p ensures Filled(grown, p, CountAt(entries + [e], p), PathAt(entries + [e], p)) {
      assert old@walked(Filled(grown, p, CountAt(entries, p), PathAt(entries, p)));
      assert Apart(grown, p, segments);
    }
    forall p ensures p in grown <==> Occurs(entries + [e], p) {
      OccursSnoc(entries, e, p);
    }
  }

  // ---- The result ----

  function SegmentsOf(nodes: seq<TreePathNode>): seq<string> {
    seq(|nodes|, i requires 0 <= i < |nodes| => nodes[i].segment)
  }

  /** The path that is shown for a node: that of its last entry, or the one it continues. */
  function ShownPath(entries: seq<TreeEntry>, p: Path, parentPath: string, segment: string): string {
    var own := PathAt(entries, Snoc(p, segment));
    if own != "" then own else TrimRight(parentPath, '/') + "/" + segment
  }

  function TrimRight(s: string, c: char): string {
    if s != "" && s[|s| - 1] == c then TrimRight(s[..|s| - 1], c) else s
  }

  lemma {:induction false} PathAtSegments(entries: seq<TreeEntry>, p: Path)
    ensures PathAt(entries, p) != "" ==> Segments(PathAt(entries, p)) == p
  {
    if entries != [] {
      PathAtSegments(entries[..|entries| - 1], p);
    }
  }

  lemma {:induction false} TrimRightSegments(s: string)
    ensures Segments(TrimRight(s, '/')) == Segments(s)
  {
    if s != "" && s[|s| - 1] == '/' {
      var init := s[..|s| - 1];
      TrimRightSegments(init);
      SegmentsConcat(init, "");
      assert init + "/" + "" == s && Segments("") == [];
    }
  }

  /** The path that is shown for a child of p has the segments of the child, if the path of p has those of p. */
  lemma ShownSegments(entries: seq<TreeEntry>, p: Path, parentPath: string, segment: string)
    requires Segments(parentPath) == p && segment != "" && '/' !in segment
    ensures Segments(ShownPath(entries, p, parentPath, segment)) == Snoc(p, segment)
  {
    PathAtSegments(entries, Snoc(p, segment));
    TrimRightSegments(parentPath);
    SegmentsConcat(TrimRight(parentPath, '/'), segment);
    SplitLiteral(segment);
    NonEmptyOfNonEmpty([segment]);
  }

  /** The node shows the child of p with its segment, and counts everything under it. */
  ghost predicate Shows(node: TreePathNode, entries: seq<TreeEntry>, p: Path, parentPath: string)
    decreases node, 0
  {
    && node.recordingCount == CountUnder(entries, Snoc(p, node.segment))
    && node.fullPath == ShownPath(entries, p, parentPath, node.segment)
    && ShowsAll(node.children, entries, Snoc(p, node.segment), node.fullPath)
  }

  /** The nodes show the children of p, each once, in order. */
  ghost predicate ShowsAll(nodes: seq<TreePathNode>, entries: seq<TreeEntry>, p: Path, parentPath: string)
    decreases nodes, 1
  {
    && Increasing(SegmentsOf(nodes)) && (forall k :: k in SegmentsOf(nodes) <==> Occurs(entries, Snoc(p, k)))
    && forall i | 0 <= i < |nodes| :: Shows(nodes[i], entries, p, parentPath)
  }

  /** Without an entry of its own a node continues the path above it, with one slash. */
  lemma ShownBehind(entries: seq<TreeEntry>, p: Path, parentPath: string, segment: string) returns (front: string)
    requires PathAt(entries, Snoc(p, segment)) == ""
    ensures ShownPath(entries, p, parentPath, segment) == front + "/" + segment
    ensures front <= parentPath && (front != "" ==> front[|front| - 1] != '/')
  {
    front := TrimRight(parentPath, '/');
    TrimRightIsPrefix(parentPath);
  }

  lemma {:induction false} TrimRightIsPrefix(s: string)
    ensures TrimRight(s, '/') <= s
    ensures TrimRight(s, '/') != "" ==> TrimRight(s, '/')[|TrimRight(s, '/')| - 1] != '/'
  {
    if s != "" && s[|s| - 1] == '/' {
      TrimRightIsPrefix(s[..|s| - 1]);
    }
  }

  /** Every node of the tree below p shows a path with the segments that lead to it. */
  ghost predicate Located(nodes: seq<TreePathNode>, p: Path)
    decreases nodes
  {
    forall i | 0 <= i < |nodes| ::
      && Segments(nodes[i].fullPath) == Snoc(p, nodes[i].segment)
      && Located(nodes[i].children, Snoc(p, nodes[i].segment))
  }

  lemma SegmentIsClean(entries: seq<TreeEntry>, p: Path, segment: string)
    requires Occurs(entries, Snoc(p, segment))
    ensures segment != "" && '/' !in segment
  {
    var e :| e in entries && RunsThrough(e, Snoc(p, segment));
    JoinSplit(e.path);
    SegmentsAreClean(Split(e.path));
    assert Segments(e.path)[|p|] == segment && segment in Segments(e.path);
  }

  /** The paths that are shown fit their places. */
  lemma {:induction false} ShownPlaces(nodes: seq<TreePathNode>, entries: seq<TreeEntry>, p: Path, parentPath: string)
    requires ShowsAll(nodes, entries, p, parentPath) && Segments(parentPath) == p
    ensures Located(nodes, p)
    decreases nodes
  {
    forall i | 0 <= i < |nodes|
      ensures Segments(nodes[i].fullPath) == Snoc(p, nodes[i].segment)
      ensures Located(nodes[i].children, Snoc(p, nodes[i].segment))
    {
      var node := nodes[i];
      assert Shows(node, entries, p, parentPath);
      assert SegmentsOf(nodes)[i] == node.segment && node.segment in SegmentsOf(nodes);
      SegmentIsClean(entries, p, node.segment);
      ShownSegments(entries, p, parentPath, node.segment);
      ShownPlaces(node.children, entries, Snoc(p, node.segment), node.fullPath);
    }
  }

  ghost predicate EachShows(nodes: seq<TreePathNode>, entries: seq<TreeEntry>, p: Path, parentPath: string) {
    forall i | 0 <= i < |nodes| :: Shows(nodes[i], entries, p, parentPath)
  }

  /** The nodes of the first n keys. */
  ghost predicate ShownUpTo(nodes: seq<TreePathNode>, keys: seq<string>, n: nat, entries: seq<TreeEntry>, p: Path,
                            parentPath: string) {
    n <= |keys| && SegmentsOf(nodes) == keys[..n] && EachShows(nodes, entries, p, parentPath)
  }

  lemma OneMoreShown(nodes: seq<TreePathNode>, more: TreePathNode, keys: seq<string>, n: nat,
                     entries: seq<TreeEntry>, p: Path, parentPath: string)
    requires ShownUpTo(nodes, keys, n, entries, p, parentPath) && n < |keys|
    requires Shows(more, entries, p, parentPath) && more.segment == keys[n]
    ensures ShownUpTo(nodes + [more], keys, n + 1, entries, p, parentPath)
  {
    assert SegmentsOf(nodes + [more]) == SegmentsOf(nodes) + [more.segment];
    assert keys[..n + 1] == keys[..n] + [keys[n]];
  }

  lemma AllShown(nodes: seq<TreePathNode>, keys: seq<string>, entries: seq<TreeEntry>, p: Path, parentPath: string)
    requires ShownUpTo(nodes, keys, |keys|, entries, p, parentPath)
    requires Increasing(keys) && forall k :: k in keys <==> Occurs(entries, Snoc(p, k))
    ensures ShowsAll(nodes, entries, p, parentPath)
  {
    assert keys[..|keys|] == keys;
  }

  lemma ChildrenOccur(root: PathNode, at: Labels, entries: seq<TreeEntry>, p: Path)
    requires Represents(root, at, entries) && p in at
    ensures forall k :: k in at[p].children <==> Occurs(entries, Snoc(p, k))
    ensures forall k | k in at[p].children :: Snoc(p, k) in at && at[Snoc(p, k)] == at[p].children[k]
  {
    forall k ensures k in at[p].children <==> Occurs(entries, Snoc(p, k)) {
      assert Linked(at, p, k);
    }
    forall k | k in at[p].children ensures Snoc(p, k) in at && at[Snoc(p, k)] == at[p].children[k] {
      assert Linked(at, p, k);
    }
  }

  function Total(nodes: seq<TreePathNode>): nat {
    if nodes == [] then 0 else Total(nodes[..|nodes| - 1]) + nodes[|nodes| - 1].recordingCount
  }

  lemma {:induction false} TotalOfNodes(nodes: seq<TreePathNode>, entries: seq<TreeEntry>, p: Path)
    requires forall i | 0 <= i < |nodes| :: nodes[i].recordingCount == CountUnder(entries, Snoc(p, nodes[i].segment))
    ensures Total(nodes) == CountKids(entries, p, SegmentsOf(nodes))
  {
    if nodes != [] {
      var n := |nodes| - 1;
      TotalOfNodes(nodes[..n], entries, p);
      assert SegmentsOf(nodes)[..n] == SegmentsOf(nodes[..n]);
    }
  }

  /** What is shown under p, with what is at p itself, is everything under p. */
  lemma ShownTotal(nodes: seq<TreePathNode>, entries: seq<TreeEntry>, p: Path, parentPath: string)
    requires ShowsAll(nodes, entries, p, parentPath)
    ensures CountAt(entries, p) + Total(nodes) == CountUnder(entries, p)
  {
    forall i | 0 <= i < |nodes| ensures nodes[i].recordingCount == CountUnder(entries, Snoc(p, nodes[i].segment)) {
      assert Shows(nodes[i], entries, p, parentPath);
    }
    TotalOfNodes(nodes, entries, p);
    CountSplits(entries, p, SegmentsOf(nodes));
  }

  /** The tree under a node. */
  method ToTreePathNodes(node: PathNode, parentPath: string,
                         ghost p: Path, ghost root: PathNode, ghost at: Labels, ghost entries: seq<TreeEntry>)
    returns (nodes: seq<TreePathNode>)
    requires Represents(root, at, entries) && p in at && at[p] == node
    ensures ShowsAll(nodes, entries, p, parentPath)
    decreases Under(at, p), 0
  {
    nodes := [];
    var keys := SortedKeys(node.children.Keys);
    ChildrenOccur(root, at, entries, p);
    for i := 0 to |keys|
      invariant ShownUpTo(nodes, keys, i, entries, p, parentPath)
    {
      assert keys[i] in keys;
      SmallerBelow(at, p, keys[i]);
      var shown := ToTreePathNode(node.children[keys[i]], keys[i], parentPath, p, root, at, entries);
      OneMoreShown(nodes, shown, keys, i, entries, p, parentPath);
      nodes := nodes + [shown];
    }
    AllShown(nodes, keys, entries, p, parentPath);
  }

  /** One child, with the tree under it and its total. */
  method ToTreePathNode(child: PathNode, segment: string, parentPath: string,
                        ghost p: Path, ghost root: PathNode, ghost at: Labels, ghost entries: seq<TreeEntry>)
    returns (shown: TreePathNode)
    requires Represents(root, at, entries) && Snoc(p, segment) in at && at[Snoc(p, segment)] == child
    ensures shown.segment == segment && Shows(shown, entries, p, parentPath)
    decreases Under(at, Snoc(p, segment)), 1
  {
    ghost var q := Snoc(p, segment);
    assert Filled(at, q, CountAt(entries, q), PathAt(entries, q));
    var fullPath := TrimRight(parentPath, '/') + "/" + segment;
    if child.fullPath != "" {
      fullPath := child.fullPath;
    }
    var childNodes := ToTreePathNodes(child, fullPath, q, root, at, entries);
    var total := SubtreeTotal(child.count, childNodes);
    ShownTotal(childNodes, entries, q, fullPath);
    shown := TreePathNode(segment, fullPath, total, childNodes);
  }

  method SubtreeTotal(own: nat, nodes: seq<TreePathNode>) returns (total: nat)
    ensures total == own + Total(nodes)
  {
    total := own;
    for i := 0 to |nodes|
      invariant total == own + Total(nodes[..i])
    {
      assert nodes[..i + 1][..i] == nodes[..i];
      total := total + nodes[i].recordingCount;
    }
    assert nodes[..|nodes|] == nodes;
  }

  // ---- Origins ----

  predicate OriginLeq(a: Origin, b: Origin) {
    if a.scheme != b.scheme then Leq(a.scheme, b.scheme)
    else if a.host != b.host then Leq(a.host, b.host)
    else a.port <= b.port
  }

  lemma OriginLeqIsOrder()
    ensures IsOrder(OriginLeq)
  {
    forall a, b ensures (OriginLeq(a, b) || OriginLeq(b, a)) && (OriginLeq(a, b) && OriginLeq(b, a) ==> a == b) {
      LeqTotal(a.scheme, b.scheme);
      LeqTotal(a.host, b.host);
    }
    forall a, b, c | OriginLeq(a, b) && OriginLeq(b, c) ensures OriginLeq(a, c) {
      OriginLeqTransitive(a, b, c);
    }
  }

  lemma OriginLeqTransitive(a: Origin, b: Origin, c: Origin)
    requires OriginLeq(a, b) && OriginLeq(b, c)
    ensures OriginLeq(a, c)
  {
    LeqTotal(a.scheme, b.scheme);
    LeqTotal(b.scheme, c.scheme);
    LeqTotal(a.host, b.host);
    LeqTotal(b.host, c.host);
    if Leq(a.scheme, b.scheme) && Leq(b.scheme, c.scheme) {
      LeqTransitive(a.scheme, b.scheme, c.scheme);
    }
    if Leq(a.host, b.host) && Leq(b.host, c.host) {
      LeqTransitive(a.host, b.host, c.host);
    }
  }

  /** The entries of an origin, in their order. */
  function EntriesOf(entries: seq<TreeEntry>, o: Origin): seq<TreeEntry> {
    if entries == [] then []
    else
      var e := entries[|entries| - 1];
      EntriesOf(entries[..|entries| - 1], o) + if e.origin == o then [e] else []
  }

  /** Every entry is in the list of its origin, as often as it occurs, and in no other. */
  lemma {:induction false} EachInItsOrigin(entries: seq<TreeEntry>, o: Origin, e: TreeEntry)
    ensures multiset(EntriesOf(entries, o))[e] == if e.origin == o then multiset(entries)[e] else 0
  {
    if entries != [] {
      var n := |entries| - 1;
      EachInItsOrigin(entries[..n], o, e);
      assert entries == entries[..n] + [entries[n]];
    }
  }

  /** The group of an origin is the list of its entries, if there are any. */
  ghost predicate GroupFits(groups: map<Origin, seq<TreeEntry>>, entries: seq<TreeEntry>, o: Origin) {
    EntriesOf(entries, o) == if o in groups then groups[o] else []
  }

  lemma EntriesOfSnoc(entries: seq<TreeEntry>, e: TreeEntry, o: Origin)
    ensures EntriesOf(entries + [e], o) == EntriesOf(entries, o) + if e.origin == o then [e] else []
  {
    assert (entries + [e])[..|entries|] == entries;
  }

  method AddToGroup(groups: map<Origin, seq<TreeEntry>>, e: TreeEntry, ghost init: seq<TreeEntry>)
    returns (more: map<Origin, seq<TreeEntry>>)
    requires forall o :: GroupFits(groups, init, o)
    requires forall o | o in groups :: groups[o] != []
    ensures forall o :: GroupFits(more, init + [e], o)
    ensures forall o | o in more :: more[o] != []
  {
    var before := if e.origin in groups then groups[e.origin] else [];
    more := groups[e.origin := before + [e]];
    forall o ensures GroupFits(more, init + [e], o) {
      EntriesOfSnoc(init, e, o);
      assert GroupFits(groups, init, o);
    }
  }

  method GroupByOrigin(entries: seq<TreeEntry>) returns (groups: map<Origin, seq<TreeEntry>>)
    ensures forall o :: o in groups <==> EntriesOf(entries, o) != []
    ensures forall o | o in groups :: groups[o] == EntriesOf(entries, o)
  {
    groups := map[];
    for i := 0 to |entries|
      invariant forall o :: GroupFits(groups, entries[..i], o)
      invariant forall o | o in groups :: groups[o] != []
    {
      assert entries[..i + 1] == entries[..i] + [entries[i]];
      groups := AddToGroup(groups, entries[i], entries[..i]);
    }
    assert entries[..|entries|] == entries;
    forall o
      ensures (o in groups <==> EntriesOf(entries, o) != []) && (o in groups ==> groups[o] == EntriesOf(entries, o))
    {
      assert GroupFits(groups, entries, o);
    }
  }

  /** The tree of one origin counts all its entries: those at the root and those under the nodes that are shown. */
  ghost predicate OriginShown(o: TreeOrigin, entries: seq<TreeEntry>) {
    var own := EntriesOf(entries, o.origin);
    && o.recordingCount == TotalOf(own)
    && o.recordingCount == CountAt(own, []) + Total(o.paths)
    && ShowsAll(o.paths, own, [], "")
  }

  lemma OneMoreOrigin(result: seq<TreeOrigin>, more: TreeOrigin, entries: seq<TreeEntry>)
    requires EachOriginShown(result, entries) && OriginShown(more, entries)
    ensures EachOriginShown(result + [more], entries) && OriginsOf(result + [more]) == OriginsOf(result) + [more.origin]
  {
  }

  function OriginsOf(origins: seq<TreeOrigin>): seq<Origin> {
    seq(|origins|, i requires 0 <= i < |origins| => origins[i].origin)
  }

  ghost predicate EachOriginShown(result: seq<TreeOrigin>, entries: seq<TreeEntry>) {
    forall i | 0 <= i < |result| :: OriginShown(result[i], entries)
  }

  /** The trie of the entries of one origin. */
  method BuildTrie(entries: seq<TreeEntry>) returns (root: PathNode, total: nat, ghost at: Labels)
    ensures Represents(root, at, entries) && total == TotalOf(entries)
  {
    root := new PathNode();
    total := 0;
    at := map[[] := root];
    for i := 0 to |entries|
      invariant Represents(root, at, entries[..i]) && fresh(at.Values)
      invariant total == TotalOf(entries[..i])
    {
      assert entries[..i + 1][..i] == entries[..i] && entries[..i + 1] == entries[..i] + [entries[i]];
      total := total + entries[i].count;
      at := Insert(root, entries[i], at, entries[..i]);
    }
    assert entries[..|entries|] == entries;
  }

  /** The tree of one origin. */
  method BuildOrigin(origin: Origin, entries: seq<TreeEntry>) returns (result: TreeOrigin)
    ensures result.origin == origin && result.recordingCount == TotalOf(entries)
    ensures result.recordingCount == CountAt(entries, []) + Total(result.paths)
    ensures ShowsAll(result.paths, entries, [], "")
  {
    var root, total; ghost var at;
    root, total, at := BuildTrie(entries);
    var paths := ToTreePathNodes(root, "", [], root, at, entries);
    ShownTotal(paths, entries, [], "");
    CountTotal(entries);
    result := TreeOrigin(origin, total, paths);
  }

  /** Origins are sorted by scheme, then by host, then by port. */
  lemma OriginOrder(origins: seq<Origin>, i: nat, j: nat)
    requires Sorted(OriginLeq, origins) && i < j < |origins|
    ensures Leq(origins[i].scheme, origins[j].scheme)
    ensures origins[i].scheme == origins[j].scheme ==> Leq(origins[i].host, origins[j].host)
    ensures origins[i].scheme == origins[j].scheme && origins[i].host == origins[j].host ==>
      origins[i].port < origins[j].port
  {
    LeqTotal(origins[i].scheme, origins[j].scheme);
    LeqTotal(origins[i].host, origins[j].host);
  }

  /** The paths in the tree of an origin fit their places. */
  lemma OriginPlaces(o: TreeOrigin, entries: seq<TreeEntry>)
    requires OriginShown(o, entries)
    ensures Located(o.paths, [])
  {
    assert Segments("") == [] by { assert [""][..0] == []; }
    ShownPlaces(o.paths, EntriesOf(entries, o.origin), [], "");
  }

  /** The origins of the entries in order, each with the tree of its entries. */
  method BuildTree(entries: seq<TreeEntry>) returns (result: seq<TreeOrigin>)
    ensures Sorted(OriginLeq, OriginsOf(result)) && forall o :: o in OriginsOf(result) <==> EntriesOf(entries, o) != []
    ensures EachOriginShown(result, entries)
  {
    var groups := GroupByOrigin(entries);
    OriginLeqIsOrder();
    var order := Sort(OriginLeq, groups.Keys);
    result := [];
    for i := 0 to |order|
      invariant OriginsOf(result) == order[..i] && EachOriginShown(result, entries)
    {
      assert order[i] in order;
      var origin := BuildOrigin(order[i], groups[order[i]]);
      OneMoreOrigin(result, origin, entries);
      result := result + [origin];
      assert order[..i + 1] == order[..i] + [order[i]];
    }
    assert order[..|order|] == order;
  }
}
