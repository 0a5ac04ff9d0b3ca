/**
  The mutable segment trie of internal/endpoint/trie.go.

  A node holds a map of children and a counter.  Ghost maps from paths to nodes
  ("labels") say which node sits where: IsTree makes the heap below a root a
  proper tree, and Represents ties its counters to a list of observed paths.
  The quantified facts range over the small predicates Linked, Apart, Agree and
  Counted, so that a proof names the places it needs.
 */
module EndpointTrie {
  import opened Labelling
  import opened NameLists
  import opened PathTrieSpec

  type Labels = map<Path, TrieNode>

  // ---- Shapes ----

  ghost predicate Linked(at: Labels, p: Path, k: string)
    reads at.Values`children
  {
    && (Snoc(p, k) in at <==> p in at && k in at[p].children)
    && (Snoc(p, k) in at ==> at[Snoc(p, k)] == at[p].children[k])
  }

  /** The labels are exactly the nodes reachable from root, and no node is shared. */
  ghost predicate IsTree(root: TrieNode, at: Labels)
    reads at.Values`children
  {
    && [] in at && at[[]] == root
    && Injective(at)
    && (forall p, k :: Linked(at, p, k))
  }

  /** A tree from which the subtree at path hole has been cut out. */
  ghost predicate IsTreeExcept(root: TrieNode, at: Labels, hole: Path)
    reads at.Values`children
  {
    && [] in at && at[[]] == root
    && Injective(at)
    && (forall p, k :: Snoc(p, k) != hole ==> Linked(at, p, k))
    && Vacant(at, hole)
  }

  ghost predicate Vacant(at: Labels, hole: Path) {
    forall p :: p in at ==> !(hole <= p)
  }

  /** The nodes of the subtrees at the given children of the root. */
  ghost function UnderKeys(at: Labels, keys: set<string>): set<TrieNode> {
    set q | q in at && q != [] && q[0] in keys :: at[q]
  }

  ghost predicate Agree(at: Labels, p: Path, bt: Labels, q: Path) {
    (p in at <==> q in bt) && (p in at ==> at[p] == bt[q])
  }

  ghost predicate SameOutside(at: Labels, bt: Labels, p: Path) {
    forall q :: !(p <= q) ==> Agree(at, q, bt, q)
  }

  /** sub is the subtree of at below p, relabelled from its own root. */
  ghost predicate IsSub(at: Labels, p: Path, sub: Labels) {
    forall r :: Agree(sub, r, at, p + r)
  }

  // ---- Counters ----

  ghost predicate Counted(at: Labels, p: Path, n: nat)
    reads at.Values`observationCount
  {
    (p in at <==> n > 0) && (p in at ==> at[p].observationCount == n)
  }

  /** Below the root, the labels are where f is positive and the counters are f. */
  ghost predicate CountedBelow(at: Labels, f: Path -> nat)
    reads at.Values`observationCount
  {
    forall p: Path :: p != [] ==> Counted(at, p, f(p))
  }

  ghost predicate CountedOutside(at: Labels, f: Path -> nat, hole: Path)
    reads at.Values`observationCount
  {
    forall p: Path :: p != [] && !(hole <= p) ==> Counted(at, p, f(p))
  }

  ghost function Sum(f: Path -> nat, g: Path -> nat): Path -> nat {
    p => f(p) + g(p)
  }

  /** f, with g added from p downwards. */
  ghost function SumAt(f: Path -> nat, p: Path, g: Path -> nat): Path -> nat {
    q => f(q) + if p <= q then g(q[|p|..]) else 0
  }

  /** f, with g added except below the given children of the root. */
  ghost function SumBut(f: Path -> nat, g: Path -> nat, keys: set<string>): Path -> nat {
    p => f(p) + if p == [] || p[0] in keys then 0 else g(p)
  }

  ghost function Shift(f: Path -> nat, p: Path): Path -> nat {
    r => f(p + r)
  }

  ghost function Tally(paths: seq<Path>): Path -> nat {
    p => Count(paths, p)
  }

  /** The tree below root is the trie of the observed paths. */
  ghost predicate Represents(root: TrieNode, at: Labels, paths: seq<Path>)
    reads at.Values
  {
    IsTree(root, at) && CountedBelow(at, Tally(paths)) && root.observationCount == |paths|
  }

  /** A node is labelled exactly if its path is counted, and shows its children and its count. */
  lemma NodeView(root: TrieNode, at: Labels, paths: seq<Path>, p: Path)
    requires Represents(root, at, paths)
    ensures p in at <==> p == [] || Count(paths, p) > 0
    ensures p in at ==> at[p].children.Keys == Kids(paths, p) && at[p].observationCount == Count(paths, p)
    ensures p !in at ==> Kids(paths, p) == {}
  {
    CountRoot(paths);
    assert p != [] ==> Counted(at, p, Tally(paths)(p));
    forall k ensures k in Kids(paths, p) <==> Snoc(p, k) in at {
      KidIffCounted(paths, p, k);
      assert Counted(at, Snoc(p, k), Tally(paths)(Snoc(p, k)));
    }
    forall k ensures Snoc(p, k) in at <==> p in at && k in at[p].children {
      assert Linked(at, p, k);
    }
  }

  // ---- Surgery ----

  lemma SplitLast(p: Path)
    requires p != []
    ensures p == Snoc(p[..|p| - 1], p[|p| - 1])
  {
  }

  lemma {:induction false} PrefixLabelled(root: TrieNode, at: Labels, p: Path, q: Path)
    requires IsTree(root, at) && p <= q && q in at
    ensures p in at
    decreases |q|
  {
    if p != q {
      SplitLast(q);
      assert Linked(at, q[..|q| - 1], q[|q| - 1]);
      PrefixLabelled(root, at, p, q[..|q| - 1]);
    }
  }

  lemma FirstStep(root: TrieNode, at: Labels, p: Path)
    requires IsTree(root, at) && p in at && p != []
    ensures p[0] in root.children && [p[0]] in at && at[[p[0]]] == root.children[p[0]]
  {
    PrefixLabelled(root, at, [p[0]], p);
    assert Snoc([], p[0]) == [p[0]];
    assert Linked(at, [], p[0]);
  }

  lemma NoCount(root: TrieNode, at: Labels, f: Path -> nat, p: Path)
    requires IsTree(root, at) && CountedBelow(at, f) && p != [] && p[0] !in root.children
    ensures p !in at && f(p) == 0
  {
    assert Counted(at, p, f(p));
    if p in at {
      FirstStep(root, at, p);
    }
  }

  /** The labels outside p and, relabelled, those of the subtree at p. */
  lemma CutLabels(at: Labels, p: Path) returns (outer: Labels, sub: Labels)
    ensures SameOutside(outer, at, p) && Vacant(outer, p)
    ensures IsSub(at, p, sub)
    ensures sub.Values == Under(at, p) && at.Values == outer.Values + sub.Values
  {
    outer := map q | q in at && !(p <= q) :: at[q];
    sub := map r | r in (set q | q in at && p <= q :: q[|p|..]) && p + r in at :: at[p + r];
    forall r ensures Agree(sub, r, at, p + r) {
      assert (p + r)[|p|..] == r;
    }
    forall q | q in at
      ensures if p <= q then q[|p|..] in sub && sub[q[|p|..]] == at[q] else q in outer && outer[q] == at[q]
    {
      if p <= q { assert q == p + q[|p|..]; }
    }
  }

  lemma CutInjective(at: Labels, p: Path, outer: Labels, sub: Labels)
    requires Injective(at) && SameOutside(outer, at, p) && Vacant(outer, p) && IsSub(at, p, sub)
    ensures outer.Values !! sub.Values && Injective(outer) && Injective(sub)
  {
    forall q, q' ensures Apart(outer, q, q') {
      assert q in outer ==> Agree(outer, q, at, q);
      assert q' in outer ==> Agree(outer, q', at, q');
      assert Apart(at, q, q');
    }
    forall r, r' ensures Apart(sub, r, r') {
      assert Agree(sub, r, at, p + r) && Agree(sub, r', at, p + r') && Apart(at, p + r, p + r');
      assert (p + r)[|p|..] == r && (p + r')[|p|..] == r';
    }
    forall q, r | q in outer && r in sub ensures outer[q] != sub[r] {
      assert Agree(outer, q, at, q) && Agree(sub, r, at, p + r) && Apart(at, q, p + r);
    }
  }

  lemma CutLinks(at: Labels, p: Path, outer: Labels, sub: Labels, hole: Path)
    requires p != [] && !(p <= hole)
    requires forall q, k :: Snoc(q, k) != hole ==> Linked(at, q, k)
    requires SameOutside(outer, at, p) && Vacant(outer, p) && IsSub(at, p, sub)
    ensures forall q, k :: Snoc(q, k) != p && Snoc(q, k) != hole ==> Linked(outer, q, k)
    ensures forall r, k :: Linked(sub, r, k)
  {
    forall q, k | Snoc(q, k) != p && Snoc(q, k) != hole ensures Linked(outer, q, k) {
      assert Linked(at, q, k);
      assert !(p <= q) ==> Agree(outer, q, at, q);
      assert !(p <= Snoc(q, k)) ==> Agree(outer, Snoc(q, k), at, Snoc(q, k));
    }
    forall r, k ensures Linked(sub, r, k) {
      assert p + Snoc(r, k) == Snoc(p + r, k);
      assert Linked(at, p + r, k) && Agree(sub, r, at, p + r) && Agree(sub, Snoc(r, k), at, p + Snoc(r, k));
    }
  }

  /** Takes a second subtree out of a tree with a hole. */
  lemma CutMore(root: TrieNode, at: Labels, p: Path, f: Path -> nat, hole: Path) returns (outer: Labels, sub: Labels)
    requires IsTreeExcept(root, at, hole) && CountedOutside(at, f, hole)
    requires p in at && p != [] && !(p <= hole) && !(hole <= p)
    ensures IsTree(at[p], sub) && CountedBelow(sub, Shift(f, p)) && at[p].observationCount == f(p) > 0
    ensures outer.Values !! sub.Values && at.Values == outer.Values + sub.Values
    ensures SameOutside(outer, at, p) && Vacant(outer, p) && Vacant(outer, hole) && Injective(outer)
    ensures forall q, k :: Snoc(q, k) != p && Snoc(q, k) != hole ==> Linked(outer, q, k)
  {
    outer, sub := CutLabels(at, p);
    CutInjective(at, p, outer, sub);
    CutLinks(at, p, outer, sub, hole);
    assert p + [] == p;
    assert Agree(sub, [], at, p + []) && Counted(at, p, f(p));
    forall r: Path | r != [] ensures Counted(sub, r, Shift(f, p)(r)) {
      assert !(hole <= p + r) by { assert (p + r)[..|p|] == p; }
      assert Counted(at, p + r, f(p + r)) && Agree(sub, r, at, p + r);
    }
    forall q | q in outer ensures !(hole <= q) {
      assert Agree(outer, q, at, q);
    }
  }

  /** Takes the subtree at p out of a tree. */
  lemma Cut(root: TrieNode, at: Labels, p: Path, f: Path -> nat) returns (outer: Labels, sub: Labels)
    requires IsTree(root, at) && p != [] && CountedBelow(at, f)
    ensures IsTreeExcept(root, outer, p) && SameOutside(outer, at, p) && CountedOutside(outer, f, p)
    ensures outer.Values !! sub.Values && at.Values == outer.Values + sub.Values && root in outer.Values
    ensures sub.Values == Under(at, p)
    ensures if p in at then IsTree(at[p], sub) && at[p].observationCount == f(p) == Shift(f, p)([]) > 0
            else sub == map[] && f(p) == 0
    ensures CountedBelow(sub, Shift(f, p))
  {
    outer, sub := CutLabels(at, p);
    CutInjective(at, p, outer, sub);
    CutLinks(at, p, outer, sub, []);
    assert p + [] == p;
    assert Agree(outer, [], at, []) && Agree(sub, [], at, p + []) && Counted(at, p, f(p));
    forall q: Path | q != [] && !(p <= q) ensures Counted(outer, q, f(q)) {
      assert Counted(at, q, f(q)) && Agree(outer, q, at, q);
    }
    forall r: Path | r != [] ensures Counted(sub, r, Shift(f, p)(r)) {
      assert Counted(at, p + r, f(p + r)) && Agree(sub, r, at, p + r);
    }
    if p !in at {
      forall r ensures r !in sub {
        assert Agree(sub, r, at, p + r);
        if p + r in at { PrefixLabelled(root, at, p, p + r); }
      }
    }
  }

  /** The labels of a tree put in at p. */
  lemma JoinLabels(outer: Labels, p: Path, sub: Labels) returns (at: Labels)
    requires Vacant(outer, p)
    ensures SameOutside(at, outer, p)
    ensures IsSub(at, p, sub)
    ensures at.Values == outer.Values + sub.Values
  {
    at := map q | q in outer.Keys + (set r | r in sub :: p + r) && (if p <= q then q[|p|..] in sub else q in outer) ::
      if p <= q then sub[q[|p|..]] else outer[q];
    forall r ensures Agree(sub, r, at, p + r) {
      assert (p + r)[|p|..] == r;
    }
    forall r | r in sub ensures p + r in at && at[p + r] == sub[r] {
      assert Agree(sub, r, at, p + r);
    }
    forall q | q in outer ensures q in at && at[q] == outer[q] {
      assert outer[q] == outer[q];
    }
  }

  lemma JoinInjective(outer: Labels, p: Path, sub: Labels, at: Labels)
    requires Injective(outer) && Injective(sub) && outer.Values !! sub.Values
    requires SameOutside(at, outer, p) && IsSub(at, p, sub)
    ensures Injective(at)
  {
    forall q, q' ensures Apart(at, q, q') {
      assert if p <= q then q == p + q[|p|..] && Agree(sub, q[|p|..], at, q) else Agree(at, q, outer, q);
      assert if p <= q' then q' == p + q'[|p|..] && Agree(sub, q'[|p|..], at, q') else Agree(at, q', outer, q');
      if q in at && q' in at {
        assert if p <= q then at[q] in sub.Values else at[q] in outer.Values;
        assert if p <= q' then at[q'] in sub.Values else at[q'] in outer.Values;
        if p <= q && p <= q' { assert Apart(sub, q[|p|..], q'[|p|..]); }
        if !(p <= q) && !(p <= q') { assert Apart(outer, q, q'); }
      }
    }
  }

  lemma JoinLinks(root: TrieNode, outer: Labels, parent: Path, key: string, sub: Labels, at: Labels)
    requires IsTreeExcept(root, outer, Snoc(parent, key))
    requires parent in outer && key in outer[parent].children && IsTree(outer[parent].children[key], sub)
    requires SameOutside(at, outer, Snoc(parent, key)) && IsSub(at, Snoc(parent, key), sub)
    ensures forall q, k :: Linked(at, q, k)
  {
    var p := Snoc(parent, key);
    assert p + [] == p;
    forall q, k ensures Linked(at, q, k) {
      var qk := Snoc(q, k);
      if p <= q {
        var r := q[|p|..];
        assert q == p + r && qk == p + Snoc(r, k);
        assert Agree(sub, r, at, p + r) && Agree(sub, Snoc(r, k), at, p + Snoc(r, k)) && Linked(sub, r, k);
      } else if qk == p {
        assert qk[..|q|] == q && p[..|parent|] == parent;
        assert Agree(at, parent, outer, parent) && Agree(sub, [], at, p + []);
      } else {
        assert !(p <= qk) by { assert qk[..|q|] == q; }
        assert Agree(at, q, outer, q) && Agree(at, qk, outer, qk) && Linked(outer, q, k);
      }
    }
  }

  lemma JoinCounted(outer: Labels, p: Path, sub: Labels, at: Labels, f: Path -> nat, g: Path -> nat)
    requires p != [] && CountedOutside(outer, f, p) && CountedBelow(sub, Sum(Shift(f, p), g))
    requires [] in sub && sub[[]].observationCount == f(p) + g([]) > 0
    requires SameOutside(at, outer, p) && IsSub(at, p, sub)
    ensures CountedBelow(at, SumAt(f, p, g))
  {
    forall q: Path | q != [] ensures Counted(at, q, SumAt(f, p, g)(q)) {
      if p <= q {
        var r := q[|p|..];
        assert q == p + r;
        assert r == [] ==> q == p;
        assert Agree(sub, r, at, p + r);
        assert r != [] ==> Counted(sub, r, Sum(Shift(f, p), g)(r));
      } else {
        assert Agree(at, q, outer, q) && Counted(outer, q, f(q));
      }
    }
  }

  /** Puts a tree at the place that was cut out. */
  lemma Join(root: TrieNode, outer: Labels, parent: Path, key: string, sub: Labels, f: Path -> nat, g: Path -> nat)
    returns (at: Labels)
    requires var p := Snoc(parent, key);
      && IsTreeExcept(root, outer, p) && CountedOutside(outer, f, p)
      && parent in outer && key in outer[parent].children
      && IsTree(outer[parent].children[key], sub) && CountedBelow(sub, Sum(Shift(f, p), g))
      && outer[parent].children[key].observationCount == f(p) + g([]) > 0
    requires outer.Values !! sub.Values
    ensures IsTree(root, at) && CountedBelow(at, SumAt(f, Snoc(parent, key), g))
    ensures SameOutside(at, outer, Snoc(parent, key))
    ensures at.Values == outer.Values + sub.Values
  {
    at := JoinLabels(outer, Snoc(parent, key), sub);
    JoinInjective(outer, Snoc(parent, key), sub, at);
    JoinLinks(root, outer, parent, key, sub, at);
    JoinCounted(outer, Snoc(parent, key), sub, at, f, g);
    assert Agree(at, [], outer, []);
  }

  /** Puts the tree with the right counters in the hole. */
  lemma Close(root: TrieNode, outer: Labels, parent: Path, key: string, sub: Labels, f: Path -> nat)
    returns (at: Labels)
    requires var p := Snoc(parent, key);
      && IsTreeExcept(root, outer, p) && CountedOutside(outer, f, p)
      && parent in outer && key in outer[parent].children
      && IsTree(outer[parent].children[key], sub) && CountedBelow(sub, Shift(f, p))
      && outer[parent].children[key].observationCount == f(p) > 0
    requires outer.Values !! sub.Values
    ensures IsTree(root, at) && CountedBelow(at, f) && at.Values == outer.Values + sub.Values
  {
    var p := Snoc(parent, key);
    var zero: Path -> nat := _ => 0;
    forall r: Path | r != [] ensures Counted(sub, r, Sum(Shift(f, p), zero)(r)) {
      assert Counted(sub, r, Shift(f, p)(r));
    }
    at := Join(root, outer, parent, key, sub, f, zero);
    forall q: Path | q != [] ensures Counted(at, q, f(q)) {
      assert Counted(at, q, SumAt(f, p, zero)(q));
    }
  }

  lemma SumButStep(at: Labels, f: Path -> nat, g: Path -> nat, keys: set<string>, key: string)
    requires key in keys && CountedBelow(at, SumAt(SumBut(f, g, keys), [key], Shift(g, [key])))
    ensures CountedBelow(at, SumBut(f, g, keys - {key}))
  {
    forall p: Path | p != [] ensures Counted(at, p, SumBut(f, g, keys - {key})(p)) {
      assert Counted(at, p, SumAt(SumBut(f, g, keys), [key], Shift(g, [key]))(p));
      if p[0] == key {
        assert p == [key] + p[1..];
      }
    }
  }

  lemma SumButAll(at: Labels, f: Path -> nat, g: Path -> nat)
    requires CountedBelow(at, SumBut(f, g, {}))
    ensures CountedBelow(at, Sum(f, g))
  {
    forall p: Path | p != [] ensures Counted(at, p, Sum(f, g)(p)) {
      assert Counted(at, p, SumBut(f, g, {})(p));
    }
  }

  lemma SumButNone(dst: TrieNode, dt: Labels, src: TrieNode, st: Labels, f: Path -> nat, g: Path -> nat)
    requires CountedBelow(dt, f) && IsTree(src, st) && CountedBelow(st, g)
    ensures CountedBelow(dt, SumBut(f, g, src.children.Keys))
  {
    forall p: Path | p != [] ensures Counted(dt, p, SumBut(f, g, src.children.Keys)(p)) {
      assert Counted(dt, p, f(p));
      if p[0] !in src.children {
        NoCount(src, st, g, p);
      }
    }
  }

  lemma UnderKeysStep(at: Labels, keys: set<string>, key: string)
    requires Injective(at) && key in keys
    ensures UnderKeys(at, keys) == Under(at, [key]) + UnderKeys(at, keys - {key})
    ensures Under(at, [key]) !! UnderKeys(at, keys - {key})
  {
    forall q, q' | q in at && [key] <= q && q' in at && q' != [] && q'[0] in keys - {key} ensures at[q] != at[q'] {
      assert Apart(at, q, q');
    }
  }

  lemma UnderKeysSame(at: Labels, bt: Labels, keys: set<string>, key: string)
    requires SameOutside(at, bt, [key]) && key !in keys
    ensures UnderKeys(at, keys) == UnderKeys(bt, keys)
  {
    forall q: Path | q != [] && q[0] in keys ensures Agree(at, q, bt, q) {
      assert !([key] <= q);
    }
  }

  lemma RootNotUnder(at: Labels, keys: set<string>)
    requires Injective(at) && [] in at
    ensures at[[]] !in UnderKeys(at, keys)
  {
    forall q | q in at && q != [] ensures at[q] != at[[]] {
      assert Apart(at, q, []);
    }
  }

  /** What merging the child of src at key into dst may rely on. */
  lemma PickChild(dst: TrieNode, src: TrieNode, merged: Labels, st: Labels, g: Path -> nat, todo: set<string>,
                  key: string)
    returns (ss: Labels)
    requires IsTree(dst, merged) && IsTree(src, st) && CountedBelow(st, g)
    requires key in todo && todo <= src.children.Keys && merged.Values !! UnderKeys(st, todo)
    ensures IsTree(src.children[key], ss) && CountedBelow(ss, Shift(g, [key]))
    ensures src.children[key].observationCount == Shift(g, [key])([]) > 0
    ensures merged.Values !! ss.Values && ss.Values < st.Values
    ensures UnderKeys(st, todo) == ss.Values + UnderKeys(st, todo - {key})
    ensures ss.Values !! UnderKeys(st, todo - {key})
    ensures UnderKeys(merged, todo) == Under(merged, [key]) + UnderKeys(merged, todo - {key})
  {
    var _, sub := Cut(src, st, [key], g);
    ss := sub;
    assert Snoc([], key) == [key];
    assert Linked(st, [], key);
    UnderKeysStep(st, todo, key);
    UnderKeysStep(merged, todo, key);
  }

  /** Nothing collapsible is reached from p through literal segments. */
  ghost predicate Barren(paths: seq<Path>, p: Path) {
    forall q | p <= q && Literal(q) :: !Collapsible(paths, q)
  }

  lemma BarrenNode(paths: seq<Path>, p: Path)
    requires !Collapsible(paths, p)
    requires forall k :: k in LiteralKids(paths, p) ==> Barren(paths, Snoc(p, k))
    ensures Barren(paths, p)
  {
    forall q | p <= q && Literal(q) ensures !Collapsible(paths, q) {
      if Kids(paths, q) == {} {
        NoKids(paths, q);
      } else if p != q {
        var k := q[|p|];
        assert Snoc(p, k) <= q && k != PLACEHOLDER;
        KidsBelow(paths, p, q);
        assert Barren(paths, Snoc(p, k));
      }
    }
  }

  /** The counter of p when the first i nodes of the path have been counted. */
  ghost function Walked(paths: seq<Path>, path: Path, i: nat, p: Path): nat {
    Count(paths, p) + if p <= path && |p| < i then 1 else 0
  }

  /** A new leaf at key below parent. */
  lemma AddLeaf(root: TrieNode, at: Labels, parent: Path, key: string, leaf: TrieNode)
    requires IsTreeExcept(root, at, Snoc(parent, key)) && parent in at
    requires leaf !in at.Values && leaf.children == map[]
    requires key in at[parent].children && at[parent].children[key] == leaf
    ensures IsTree(root, at[Snoc(parent, key) := leaf])
  {
    var hole := Snoc(parent, key);
    var bt := at[hole := leaf];
    forall q, q' ensures Apart(bt, q, q') {
      assert Apart(at, q, q');
      assert q in at ==> at[q] in at.Values;
      assert q' in at ==> at[q'] in at.Values;
    }
    forall q, k ensures Linked(bt, q, k) {
      var qk := Snoc(q, k);
      if qk == hole {
        assert qk[..|q|] == q && hole[..|parent|] == parent;
      } else {
        assert Linked(at, q, k);
      }
    }
  }

  lemma MissingParent(root: TrieNode, at: Labels, paths: seq<Path>, parent: Path, i: nat)
    requires Represents(root, at, paths) && i < |parent| && parent[..i + 1] !in at
    ensures Kids(paths, parent) == {} && Collapse(paths, parent) == paths
  {
    if parent in at {
      PrefixLabelled(root, at, parent[..i + 1], parent);
    }
    NodeView(root, at, paths, parent);
    RewriteNothing(paths, parent);
  }

  /** The state while the literal children of parent, all but those done, wait to be merged. */
  ghost predicate Collapsing(root: TrieNode, parent: Path, placeholder: TrieNode, outer: Labels, pl: Labels,
                             paths: seq<Path>, done: set<string>)
    reads outer.Values, pl.Values
  {
    var hole, f := Snoc(parent, PLACEHOLDER), Tally(RewriteAll(paths, parent, done));
    && IsTreeExcept(root, outer, hole) && CountedOutside(outer, f, hole)
    && IsTree(placeholder, pl) && CountedBelow(pl, Shift(f, hole)) && placeholder.observationCount == f(hole)
    && outer.Values !! pl.Values && parent in outer && root.observationCount == |paths|
  }

  lemma CollapsingInit(root: TrieNode, parent: Path, placeholder: TrieNode, at: Labels, outer: Labels, pl: Labels,
                       paths: seq<Path>)
    requires var hole, f := Snoc(parent, PLACEHOLDER), Tally(paths);
      && IsTreeExcept(root, outer, hole) && CountedOutside(outer, f, hole) && SameOutside(outer, at, hole)
      && parent in at && outer.Values !! pl.Values && root.observationCount == |paths|
      && IsTree(placeholder, pl) && CountedBelow(pl, Shift(f, hole)) && placeholder.observationCount == f(hole)
    ensures Collapsing(root, parent, placeholder, outer, pl, paths, {}) && outer[parent] == at[parent]
  {
    RewriteNothing(paths, parent);
    assert Agree(outer, parent, at, parent);
  }

  /** The literal keys are those done and those still to do. */
  ghost predicate Partition(literals: set<string>, done: set<string>, todo: set<string>) {
    forall k :: k in literals <==> k in done || (k in todo && k != PLACEHOLDER)
  }

  lemma AllDone(literals: set<string>, done: set<string>)
    requires Partition(literals, done, {})
    ensures done == literals
  {
  }

  lemma DistinctSnoc(keys: seq<string>, key: string)
    requires Distinct(keys) && key !in keys
    ensures Distinct(keys + [key])
  {
  }

  /** Cuts out the literal child at key, which waits to be merged. */
  lemma CutPending(root: TrieNode, parent: Path, placeholder: TrieNode, outer: Labels, pl: Labels,
                   paths: seq<Path>, done: set<string>, key: string)
    returns (outer': Labels, sub: Labels)
    requires Collapsing(root, parent, placeholder, outer, pl, paths, done)
    requires key in outer[parent].children && key != PLACEHOLDER && key !in done && PLACEHOLDER !in done
    ensures
      var hole, p, f := Snoc(parent, PLACEHOLDER), Snoc(parent, key), Tally(RewriteAll(paths, parent, done));
      && IsTree(outer[parent].children[key], sub) && CountedBelow(sub, Shift(f, p))
      && outer[parent].children[key].observationCount > 0
      && f(hole) + outer[parent].children[key].observationCount == Count(RewriteAll(paths, parent, done + {key}), hole)
      && SameOutside(outer', outer, p) && Vacant(outer', p) && Vacant(outer', hole) && Injective(outer')
      && forall q, k :: Snoc(q, k) != p && Snoc(q, k) != hole ==> Linked(outer', q, k)
    ensures outer.Values == outer'.Values + sub.Values && outer'.Values !! sub.Values
    ensures parent in outer' && outer'[parent] == outer[parent] && [] in outer' && outer'[[]] == root
    ensures outer[parent] in outer'.Values
  {
    var hole, p := Snoc(parent, PLACEHOLDER), Snoc(parent, key);
    assert hole[|parent|] == PLACEHOLDER && p[|parent|] == key;
    assert Linked(outer, parent, key);
    outer', sub := CutMore(root, outer, p, Tally(RewriteAll(paths, parent, done)), hole);
    assert Agree(outer', parent, outer, parent) && Agree(outer', [], outer, []);
    RewriteOneMore(paths, parent, done, key, hole);
    assert p + hole[|hole|..] == p;
  }

  lemma DeletedLink(at: Labels, parent: Path, key: string)
    requires parent in at && key !in at[parent].children && Vacant(at, Snoc(parent, key))
    ensures forall q, k | Snoc(q, k) == Snoc(parent, key) :: Linked(at, q, k)
  {
    var p := Snoc(parent, key);
    forall q, k | Snoc(q, k) == p ensures Linked(at, q, k) {
      assert p[..|q|] == q && p[..|parent|] == parent && p[|q|] == k;
    }
  }

  lemma CollapseCounts(paths: seq<Path>, parent: Path, done: set<string>, key: string, outer: Labels, outer': Labels,
                       pl: Labels)
    requires key !in done && key != PLACEHOLDER && PLACEHOLDER !in done
    requires
      var hole, p, f := Snoc(parent, PLACEHOLDER), Snoc(parent, key), Tally(RewriteAll(paths, parent, done));
      && CountedOutside(outer, f, hole) && SameOutside(outer', outer, p) && Vacant(outer', p)
      && CountedBelow(pl, Sum(Shift(f, hole), Shift(f, p)))
    ensures
      var hole, f' := Snoc(parent, PLACEHOLDER), Tally(RewriteAll(paths, parent, done + {key}));
      && CountedOutside(outer', f', hole) && CountedBelow(pl, Shift(f', hole))
  {
    var hole, p := Snoc(parent, PLACEHOLDER), Snoc(parent, key);
    var f, f' := Tally(RewriteAll(paths, parent, done)), Tally(RewriteAll(paths, parent, done + {key}));
    forall q: Path | q != [] && !(hole <= q) ensures Counted(outer', q, f'(q)) {
      RewriteOneMore(paths, parent, done, key, q);
      assert Counted(outer, q, f(q));
      assert !(p <= q) ==> Agree(outer', q, outer, q);
    }
    forall r: Path | r != [] ensures Counted(pl, r, Shift(f', hole)(r)) {
      RewriteOneMore(paths, parent, done, key, hole + r);
      assert (hole + r)[|hole|..] == r;
      assert !(p <= hole + r) by { assert (hole + r)[|parent|] == PLACEHOLDER; }
      assert Counted(pl, r, Sum(Shift(f, hole), Shift(f, p))(r));
    }
  }

  // ---- Nodes ----

  /** A detected collapse: the segment index to collapse and the path of its parent. */
  datatype CollapseResult = CollapseResult(position: nat, parentSegments: Path)

  class TrieNode {
    var children: map<string, TrieNode>
    var observationCount: nat

    constructor ()
      ensures children == map[] && observationCount == 0
    {
      children := map[];
      observationCount := 0;
    }

    /** One step of merging: adds srcChild to the child at key, or moves it there. */
    static method MergeChild(dst: TrieNode, key: string, srcChild: TrieNode,
                             ghost dt: Labels, ghost ss: Labels, ghost f: Path -> nat, ghost g: Path -> nat,
                             ghost below: set<TrieNode>)
      returns (ghost merged: Labels)
      requires below == Under(dt, [key])
      requires IsTree(dst, dt) && IsTree(srcChild, ss) && dt.Values !! ss.Values
      requires CountedBelow(dt, f) && CountedBelow(ss, g) && srcChild.observationCount == g([]) > 0
      modifies dst`children, below
      ensures IsTree(dst, merged) && CountedBelow(merged, SumAt(f, [key], g))
      ensures SameOutside(merged, dt, [key])
      ensures dst.observationCount == old(dst.observationCount)
      ensures merged.Values <= dt.Values + ss.Values
      decreases ss.Values, 2
    {
      assert Snoc([], key) == [key] && [key] + [] == [key];
      assert Linked(dt, [], key);
      ghost var outer, sub := Cut(dst, dt, [key], f);
      if key in dst.children {
        sub := MergeNode(dst.children[key], srcChild, sub, ss, Shift(f, [key]), g);
      } else {
        sub := ss;
        dst.children := dst.children[key := srcChild];
        forall p, k | Snoc(p, k) != [key] ensures Linked(outer, p, k) {
          assert Snoc([], k) == [k];
          assert old(Linked(outer, p, k)) && Apart(outer, p, []);
        }
      }
      merged := Join(dst, outer, [], key, sub, f, g);
      forall q | !([key] <= q) ensures Agree(merged, q, dt, q) {
        assert Agree(merged, q, outer, q) && Agree(outer, q, dt, q);
      }
    }

    /** Adds the counter of src to dst and merges its children. */
    static method MergeNode(dst: TrieNode, src: TrieNode,
                            ghost dt: Labels, ghost st: Labels, ghost f: Path -> nat, ghost g: Path -> nat)
      returns (ghost merged: Labels)
      requires IsTree(dst, dt) && IsTree(src, st) && dt.Values !! st.Values
      requires CountedBelow(dt, f) && CountedBelow(st, g)
      modifies dt.Values
      ensures IsTree(dst, merged) && CountedBelow(merged, Sum(f, g))
      ensures merged.Values <= dt.Values + st.Values
      ensures dst.observationCount == old(dst.observationCount) + old(src.observationCount)
      decreases st.Values, 1
    {
      dst.observationCount := dst.observationCount + src.observationCount;
      forall p: Path | p != [] ensures Counted(dt, p, f(p)) {
        assert old(Counted(dt, p, f(p))) && Apart(dt, p, []);
      }
      merged := MergeChildren(dst, src, dt, st, f, g);
    }

    /** Merges the children of src into dst; subtrees are moved where dst has none. */
    static method MergeChildren(dst: TrieNode, src: TrieNode,
                                ghost dt: Labels, ghost st: Labels, ghost f: Path -> nat, ghost g: Path -> nat)
      returns (ghost merged: Labels)
      requires IsTree(dst, dt) && IsTree(src, st) && dt.Values !! st.Values
      requires CountedBelow(dt, f) && CountedBelow(st, g)
      modifies dt.Values
      ensures IsTree(dst, merged) && CountedBelow(merged, Sum(f, g))
      ensures merged.Values <= dt.Values + st.Values
      ensures dst.observationCount == old(dst.observationCount)
      decreases st.Values, 0
    {
      merged := dt;
      var todo := src.children.Keys;
      RootNotUnder(dt, todo);
      SumButNone(dst, dt, src, st, f, g);
      while todo != {}
        invariant todo <= src.children.Keys
        invariant IsTree(src, st) && CountedBelow(st, g)
        invariant IsTree(dst, merged) && CountedBelow(merged, SumBut(f, g, todo))
        invariant merged.Values <= dt.Values + st.Values
        invariant dst.observationCount == old(dst.observationCount)
        invariant UnderKeys(merged, todo) <= dt.Values - {dst}
        invariant merged.Values !! UnderKeys(st, todo)
        decreases todo
      {
        var key :| key in todo;
        ghost var before := merged;
        ghost var ss := PickChild(dst, src, merged, st, g, todo, key);
        ghost var below := Under(merged, [key]);
        assert st[[]] in st.Values && dt[[]] in dt.Values;
        assert below !! st.Values && dst !in below && src !in below && src != dst;
        merged := MergeChild(dst, key, src.children[key], merged, ss, SumBut(f, g, todo), Shift(g, [key]), below);
        SumButStep(merged, f, g, todo, key);
        todo := todo - {key};
        UnderKeysSame(merged, before, todo, key);
      }
      SumButAll(merged, f, g);
    }

    /** Walks or creates the path and counts every node on it. */
    method Observe(segments: Path, ghost at: Labels, ghost paths: seq<Path>)
      returns (ghost grown: Labels)
      requires Represents(this, at, paths)
      modifies at.Values
      ensures Represents(this, grown, paths + [segments])
      ensures fresh(grown.Values - at.Values)
    {
      grown := at;
      var cur := this;
      ghost var here: Path := [];
      CountRoot(paths);
      forall p: Path | p != [] ensures Counted(grown, p, Walked(paths, segments, 0, p)) {
        assert Counted(at, p, Tally(paths)(p));
      }
      for i := 0 to |segments|
        invariant here == segments[..i]
        invariant IsTree(this, grown) && here in grown && grown[here] == cur
        invariant fresh(grown.Values - at.Values)
        invariant forall p: Path :: p != [] && p != here ==> Counted(grown, p, Walked(paths, segments, i, p))
        invariant cur.observationCount == Count(paths, here)
        invariant i > 0 ==> observationCount == |paths| + 1
      {
        var seg := segments[i];
        ghost var next, before, n := Snoc(here, seg), grown, i + 1;
        assert segments[..n] == next;
        assert Apart(grown, next, here) && Apart(grown, [], here);
        assert Linked(grown, here, seg) && Counted(grown, next, Walked(paths, segments, i, next));
        label step:
        cur.observationCount := cur.observationCount + 1;
        if seg !in cur.children {
          forall p | p in grown ensures !(next <= p) {
            if next <= p { PrefixLabelled(this, grown, next, p); }
          }
          var child := new TrieNode();
          cur.children := cur.children[seg := child];
          forall p, k | Snoc(p, k) != next ensures Linked(grown, p, k) {
            assert old@step(Linked(grown, p, k)) && Apart(grown, p, here);
            assert p == here ==> k != seg;
          }
          AddLeaf(this, grown, here, seg, child);
          grown := grown[next := child];
        }
        forall p: Path | p != [] && p != next ensures Counted(grown, p, Walked(paths, segments, n, p)) {
          if p != here {
            assert old@step(Counted(before, p, Walked(paths, segments, i, p)));
            assert Apart(before, p, here);
            assert p <= segments && |p| == i ==> p == here;
          }
        }
        cur, here := cur.children[seg], next;
      }
      // The last node of the path counts as well.
      assert Apart(grown, [], here);
      label leaf:
      cur.observationCount := cur.observationCount + 1;
      forall p: Path | p != [] ensures Counted(grown, p, Tally(paths + [segments])(p)) {
        CountSnoc(paths, segments, p);
        if p != here {
          assert old@leaf(Counted(grown, p, Walked(paths, segments, |segments|, p)));
          assert Apart(grown, p, here);
          assert p <= segments && |p| == |segments| ==> p == here;
        }
      }
    }

    /** The first collapsible node found from the root, never through a placeholder. */
    method CheckCollapse(ghost at: Labels, ghost paths: seq<Path>) returns (result: CollapseResult, found: bool)
      requires Represents(this, at, paths)
      ensures found ==> Frontier(paths, result.parentSegments) && result.position == |result.parentSegments|
      ensures !found ==> CollapseFree(paths)
    {
      result, found := CheckCollapseAt([], this, at, paths);
    }

    method CheckCollapseAt(prefix: Path, ghost root: TrieNode, ghost at: Labels, ghost paths: seq<Path>)
      returns (result: CollapseResult, found: bool)
      requires Represents(root, at, paths)
      requires prefix in at && at[prefix] == this && Literal(prefix)
      requires ClearAbove(paths, prefix)
      ensures found ==> Frontier(paths, result.parentSegments) && result.position == |result.parentSegments|
      ensures !found ==> Barren(paths, prefix)
      decreases Under(at, prefix), 1
    {
      NodeView(root, at, paths, prefix);
      if |children| == 0 {
        NoKids(paths, prefix);
        BarrenNode(paths, prefix);
        return CollapseResult(0, []), false;
      }
      var literalCount, hasPlaceholder := CountKinds();
      if ShouldCollapse(literalCount, observationCount, hasPlaceholder) {
        return CollapseResult(|prefix|, prefix), true;
      }
      result, found := CheckChildren(prefix, root, at, paths);
      if !found {
        BarrenNode(paths, prefix);
      }
    }

    /** The recursion into the literal children. */
    method CheckChildren(prefix: Path, ghost root: TrieNode, ghost at: Labels, ghost paths: seq<Path>)
      returns (result: CollapseResult, found: bool)
      requires Represents(root, at, paths)
      requires prefix in at && at[prefix] == this && Literal(prefix)
      requires ClearAbove(paths, prefix) && !Collapsible(paths, prefix)
      ensures found ==> Frontier(paths, result.parentSegments) && result.position == |result.parentSegments|
      ensures !found ==> forall key | key in children.Keys && key != PLACEHOLDER :: Barren(paths, Snoc(prefix, key))
      decreases Under(at, prefix), 0
    {
      var todo := children.Keys;
      while todo != {}
        invariant todo <= children.Keys
        invariant forall key | key in children.Keys - todo && key != PLACEHOLDER :: Barren(paths, Snoc(prefix, key))
        decreases todo
      {
        var key :| key in todo;
        todo := todo - {key};
        if key == PLACEHOLDER {
          continue;
        }
        assert Linked(at, prefix, key);
        SmallerBelow(at, prefix, key);
        ClearAboveSnoc(paths, prefix, key);
        result, found := children[key].CheckCollapseAt(Snoc(prefix, key), root, at, paths);
        if found {
          return;
        }
      }
      return CollapseResult(0, []), false;
    }

    /** The number of literal children, and whether there is a placeholder child. */
    method CountKinds() returns (literalCount: nat, hasPlaceholder: bool)
      ensures literalCount == |children.Keys - {PLACEHOLDER}|
      ensures hasPlaceholder <==> PLACEHOLDER in children
    {
      literalCount, hasPlaceholder := 0, false;
      var todo := children.Keys;
      while todo != {}
        invariant literalCount + |todo - {PLACEHOLDER}| == |children.Keys - {PLACEHOLDER}|
        invariant (hasPlaceholder || PLACEHOLDER in todo) <==> PLACEHOLDER in children
        decreases todo
      {
        var key :| key in todo;
        if key == PLACEHOLDER {
          hasPlaceholder := true;
          assert todo - {key} - {PLACEHOLDER} == todo - {PLACEHOLDER};
        } else {
          literalCount := literalCount + 1;
          assert todo - {key} - {PLACEHOLDER} == todo - {PLACEHOLDER} - {key};
        }
        todo := todo - {key};
      }
    }

    /** Merges all literal children of the node at parentSegments into its placeholder child. */
    method Collapse(parentSegments: Path, ghost at: Labels, ghost paths: seq<Path>)
      returns (collapsed: seq<string>, ghost after: Labels)
      requires Represents(this, at, paths)
      modifies at.Values
      ensures Represents(this, after, PathTrieSpec.Collapse(paths, parentSegments))
      ensures forall k :: k in collapsed <==> k in LiteralKids(paths, parentSegments)
      ensures Distinct(collapsed)
      ensures fresh(after.Values - at.Values)
    {
      collapsed, after := [], at;
      var cur := this;
      for i := 0 to |parentSegments|
        invariant parentSegments[..i] in at && at[parentSegments[..i]] == cur
      {
        var seg := parentSegments[i];
        assert parentSegments[..i + 1] == Snoc(parentSegments[..i], seg);
        assert Linked(at, parentSegments[..i], seg);
        if seg !in cur.children {
          MissingParent(this, at, paths, parentSegments, i);
          return;
        }
        cur := cur.children[seg];
      }
      assert parentSegments[..|parentSegments|] == parentSegments;
      NodeView(this, at, paths, parentSegments);
      collapsed, after := CollapseAt(cur, parentSegments, at, paths);
    }

    /** Merges the literal child at key into the placeholder and deletes the key. */
    static method AbsorbChild(cur: TrieNode, key: string, placeholder: TrieNode, ghost root: TrieNode,
                              ghost parent: Path, ghost outer: Labels, ghost pl: Labels, ghost paths: seq<Path>,
                              ghost done: set<string>)
      returns (ghost outer': Labels, ghost pl': Labels)
      requires Collapsing(root, parent, placeholder, outer, pl, paths, done) && outer[parent] == cur
      requires key in cur.children && key != PLACEHOLDER && key !in done && PLACEHOLDER !in done
      modifies cur`children, pl.Values
      ensures Collapsing(root, parent, placeholder, outer', pl', paths, done + {key}) && outer'[parent] == cur
      ensures cur.children == old(cur.children) - {key}
      ensures placeholder.observationCount > 0
      ensures outer'.Values + pl'.Values <= outer.Values + pl.Values
    {
      ghost var hole, p := Snoc(parent, PLACEHOLDER), Snoc(parent, key);
      ghost var f := Tally(RewriteAll(paths, parent, done));
      var child := cur.children[key];
      ghost var sub;
      outer', sub := CutPending(root, parent, placeholder, outer, pl, paths, done, key);
      pl' := MergeNode(placeholder, child, pl, sub, Shift(f, hole), Shift(f, p));
      CollapseCounts(paths, parent, done, key, outer, outer', pl');

      DeleteChild(cur, key, root, parent, outer');
    }

    /** Deletes a key whose subtree has been cut out. */
    static method DeleteChild(cur: TrieNode, key: string, ghost root: TrieNode, ghost parent: Path, ghost outer: Labels)
      requires [] in outer && outer[[]] == root && parent in outer && outer[parent] == cur && Injective(outer)
      requires Vacant(outer, Snoc(parent, key)) && Vacant(outer, Snoc(parent, PLACEHOLDER))
      requires forall q, k ::
        Snoc(q, k) != Snoc(parent, key) && Snoc(q, k) != Snoc(parent, PLACEHOLDER) ==> Linked(outer, q, k)
      modifies cur`children
      ensures cur.children == old(cur.children) - {key}
      ensures IsTreeExcept(root, outer, Snoc(parent, PLACEHOLDER))
    {
      ghost var hole, p := Snoc(parent, PLACEHOLDER), Snoc(parent, key);
      cur.children := cur.children - {key};
      DeletedLink(outer, parent, key);
      forall q, k | Snoc(q, k) != hole ensures Linked(outer, q, k) {
        if Snoc(q, k) != p {
          assert old(Linked(outer, q, k)) && Apart(outer, q, parent);
          assert q == parent ==> k != key;
        }
      }
    }

    /** Makes the placeholder the only child, which closes the tree again. */
    static method AttachPlaceholder(cur: TrieNode, placeholder: TrieNode, ghost root: TrieNode, ghost parent: Path,
                                    ghost outer: Labels, ghost pl: Labels, ghost paths: seq<Path>,
                                    ghost done: set<string>)
      returns (ghost after: Labels)
      requires Collapsing(root, parent, placeholder, outer, pl, paths, done) && outer[parent] == cur
      requires (forall k :: k in cur.children ==> k == PLACEHOLDER) && placeholder.observationCount > 0
      modifies cur`children
      ensures Represents(root, after, RewriteAll(paths, parent, done))
      ensures after.Values == outer.Values + pl.Values
    {
      ghost var hole := Snoc(parent, PLACEHOLDER);
      cur.children := cur.children[PLACEHOLDER := placeholder];
      forall q, k | Snoc(q, k) != hole ensures Linked(outer, q, k) {
        assert old(Linked(outer, q, k)) && Apart(outer, q, parent);
      }
      after := Close(root, outer, parent, PLACEHOLDER, pl, Tally(RewriteAll(paths, parent, done)));
    }

    /** The placeholder child to merge into: the existing one, or a new one that is not attached yet. */
    static method OpenPlaceholder(cur: TrieNode, ghost root: TrieNode, ghost parent: Path, ghost at: Labels,
                                  ghost paths: seq<Path>)
      returns (placeholder: TrieNode, ghost outer: Labels, ghost pl: Labels)
      requires Represents(root, at, paths) && parent in at && at[parent] == cur
      ensures Collapsing(root, parent, placeholder, outer, pl, paths, {}) && outer[parent] == cur
      ensures fresh(outer.Values + pl.Values - at.Values)
    {
      outer, pl := Cut(root, at, Snoc(parent, PLACEHOLDER), Tally(paths));
      assert Linked(at, parent, PLACEHOLDER);
      if PLACEHOLDER in cur.children {
        placeholder := cur.children[PLACEHOLDER];
      } else {
        placeholder := new TrieNode();
        pl := map[[] := placeholder];
      }
      CollapsingInit(root, parent, placeholder, at, outer, pl, paths);
    }

    method CollapseAt(cur: TrieNode, ghost parent: Path, ghost at: Labels, ghost paths: seq<Path>)
      returns (collapsed: seq<string>, ghost after: Labels)
      requires Represents(this, at, paths) && parent in at && at[parent] == cur
      requires cur.children.Keys == Kids(paths, parent)
      modifies at.Values
      ensures Represents(this, after, PathTrieSpec.Collapse(paths, parent))
      ensures forall k :: k in collapsed <==> k in LiteralKids(paths, parent)
      ensures Distinct(collapsed)
      ensures fresh(after.Values - at.Values)
    {
      collapsed, after := [], at;
      var todo := cur.children.Keys;
      var placeholder; ghost var outer, pl;
      placeholder, outer, pl := OpenPlaceholder(cur, this, parent, at, paths);
      ghost var literals, done: set<string> := LiteralKids(paths, parent), {};
      while todo != {}
        invariant Collapsing(this, parent, placeholder, outer, pl, paths, done) && outer[parent] == cur
        invariant fresh(outer.Values + pl.Values - at.Values)
        invariant forall k :: k != PLACEHOLDER ==> (k in cur.children <==> k in todo)
        invariant Partition(literals, done, todo)
        invariant done !! todo
        invariant forall k :: k in collapsed <==> k in done
        invariant Distinct(collapsed)
        invariant done != {} ==> placeholder.observationCount > 0
        invariant done == {} ==> Represents(this, at, paths)
        decreases todo
      {
        var key :| key in todo;
        todo := todo - {key};
        if key == PLACEHOLDER {
          continue;
        }
        outer, pl := AbsorbChild(cur, key, placeholder, this, parent, outer, pl, paths, done);
        DistinctSnoc(collapsed, key);
        collapsed := collapsed + [key];
        done := done + {key};
      }
      AllDone(literals, done);
      if |collapsed| > 0 {
        assert collapsed[0] in done;
        after := AttachPlaceholder(cur, placeholder, this, parent, outer, pl, paths, done);
      } else {
        assert forall k :: k !in done;
        assert done == {};
        RewriteNothing(paths, parent);
      }
    }
  }
}
