/**
  Why the resolver may collapse at most once per observation, and what draining
  all collapses amounts to.
 */
module CollapseTheory {
  import opened PathTrieSpec

  // ---- The effect of one collapse ----

  lemma PrefixesCompare(path: Path, p: Path, q: Path)
    requires p <= path && q <= path
    ensures if |p| <= |q| then p <= q else q <= p
  {
  }

  lemma RewrittenPrefix(path: Path, parent: Path, keys: set<string>, p: Path)
    requires !(parent < p)
    ensures p <= Rewrite(path, parent, keys) <==> p <= path
    ensures p < Rewrite(path, parent, keys) <==> p < path
  {
    var after := Rewrite(path, parent, keys);
    if after != path {
      assert after[..|parent|] == path[..|parent|] == parent;
      if |p| <= |parent| {
        assert p <= after <==> p <= parent;
        assert p <= path <==> p <= parent;
      }
    }
  }

  lemma {:induction false} CollapseKeepsCount(paths: seq<Path>, parent: Path, keys: set<string>, p: Path)
    requires !(parent < p)
    ensures Count(RewriteAll(paths, parent, keys), p) == Count(paths, p)
  {
    if paths != [] {
      var n := |paths| - 1;
      assert RewriteAll(paths, parent, keys)[..n] == RewriteAll(paths[..n], parent, keys);
      CollapseKeepsCount(paths[..n], parent, keys, p);
      RewrittenPrefix(paths[n], parent, keys, p);
    }
  }

  lemma CollapseKeepsKids(paths: seq<Path>, parent: Path, keys: set<string>, p: Path)
    requires !(parent <= p)
    ensures Kids(RewriteAll(paths, parent, keys), p) == Kids(paths, p)
  {
    var after := RewriteAll(paths, parent, keys);
    forall i | 0 <= i < |paths| ensures p < after[i] <==> p < paths[i]
      ensures p < paths[i] ==> after[i][|p|] == paths[i][|p|]
    {
      RewrittenPrefix(paths[i], parent, keys, p);
      if after[i] != paths[i] && p < paths[i] {
        PrefixesCompare(paths[i], p, parent);
      }
    }
  }

  /**
    Among literal nodes, a collapse changes only its own parent, which stops being
    collapsible, and those below, which vanish.
   */
  lemma CollapseEffect(paths: seq<Path>, parent: Path, p: Path)
    requires Literal(p)
    ensures parent <= p ==> !Collapsible(Collapse(paths, parent), p)
    ensures !(parent <= p) ==> (Collapsible(Collapse(paths, parent), p) <==> Collapsible(paths, p))
    ensures parent < p ==> Count(Collapse(paths, parent), p) == 0
  {
    var keys := LiteralKids(paths, parent);
    var after := Collapse(paths, parent);
    if parent <= p {
      forall i | 0 <= i < |after| && parent < after[i] ensures after[i][|parent|] == PLACEHOLDER {
        RewrittenPrefix(paths[i], parent, keys, parent);
      }
      CountZero(after, p);
      if parent < p {
        assert p[|parent|] in p;
        assert Kids(after, p) == {};
        NoKids(after, p);
      } else {
        assert LiteralKids(after, parent) == {};
      }
    } else {
      CollapseKeepsCount(paths, parent, keys, p);
      CollapseKeepsKids(paths, parent, keys, p);
    }
  }

  // ---- One observation ----

  lemma FewerObservations(literals: nat, observations: nat, more: nat, hasPlaceholder: bool)
    requires 0 < observations <= more
    ensures ShouldCollapse(literals, more, hasPlaceholder) ==> ShouldCollapse(literals, observations, hasPlaceholder)
  {
  }

  lemma OneAtMost(s: set<string>, x: string)
    requires s <= {x}
    ensures |s| <= 1
  {
    if s != {} { assert s == {x}; }
  }

  /** A node that gets no further child from the path, or its first one, does not become collapsible. */
  lemma StaysFree(paths: seq<Path>, path: Path, p: Path)
    requires !Collapsible(paths, p)
    requires Kids(paths, p) == {} || (p < path ==> path[|p|] in Kids(paths, p))
    ensures !Collapsible(paths + [path], p)
  {
    KidsSnoc(paths, path, p);
    CountSnoc(paths, path, p);
    if Kids(paths, p) == {} {
      OneAtMost(Kids(paths + [path], p), if p < path then path[|p|] else PLACEHOLDER);
      FewerLiterals(Kids(paths + [path], p));
    } else {
      var k :| k in Kids(paths, p);
      KidIffCounted(paths, p, k);
      CountMonotone(paths, p, Snoc(p, k));
      assert Kids(paths + [path], p) == Kids(paths, p);
      FewerObservations(|LiteralKids(paths, p)|, Count(paths, p), Count(paths + [path], p),
        PLACEHOLDER in Kids(paths, p));
    }
  }

  lemma FewerLiterals(kids: set<string>)
    requires |kids| <= 1
    ensures |kids - {PLACEHOLDER}| <= 1
    ensures PLACEHOLDER in kids ==> |kids - {PLACEHOLDER}| == 0
  {
    if PLACEHOLDER !in kids { assert kids - {PLACEHOLDER} == kids; }
  }

  /** Where an observation can make a node collapsible: on its path, where it adds a second or later child. */
  lemma NewKid(paths: seq<Path>, path: Path, p: Path)
    requires CollapseFree(paths) && Literal(p) && Collapsible(paths + [path], p)
    ensures p < path && path[|p|] !in Kids(paths, p) && Kids(paths, p) != {}
  {
    if Kids(paths, p) == {} || (p < path ==> path[|p|] in Kids(paths, p)) {
      StaysFree(paths, path, p);
    }
  }

  /** The path leaves the trie only once. */
  lemma LeavesOnce(paths: seq<Path>, path: Path, p: Path, q: Path)
    requires p < path && path[|p|] !in Kids(paths, p)
    requires q < path && |p| < |q|
    ensures Kids(paths, q) == {}
  {
    assert p < q && q[|p|] == path[|p|];
    if Kids(paths, q) != {} {
      KidsBelow(paths, p, q);
    }
  }

  /** An observation makes at most one node collapsible. */
  lemma AtMostOne(paths: seq<Path>, path: Path, p: Path, q: Path)
    requires CollapseFree(paths)
    requires Literal(p) && Collapsible(paths + [path], p)
    requires Literal(q) && Collapsible(paths + [path], q)
    ensures p == q
  {
    NewKid(paths, path, p);
    NewKid(paths, path, q);
    if |p| < |q| {
      LeavesOnce(paths, path, p, q);
    } else if |q| < |p| {
      LeavesOnce(paths, path, q, p);
    }
  }

  /** The trie after one observation, with the collapse that it may trigger. */
  ghost function Step(paths: seq<Path>, path: Path): seq<Path> {
    var all := paths + [path];
    if exists p :: Frontier(all, p) then
      var p :| Frontier(all, p);
      Collapse(all, p)
    else all
  }

  /** The path under which the observation is filed: only the position of the collapse is used. */
  ghost function Filed(paths: seq<Path>, path: Path): Path {
    var all := paths + [path];
    if exists p :: Frontier(all, p) then
      var p :| Frontier(all, p);
      if |p| < |path| then path[|p| := PLACEHOLDER] else path
    else path
  }

  lemma {:induction false} FrontierAbove(paths: seq<Path>, p: Path) returns (q: Path)
    requires Literal(p) && Collapsible(paths, p)
    ensures q <= p && Frontier(paths, q)
    decreases |p|
  {
    if ClearAbove(paths, p) {
      q := p;
    } else {
      var i :| 0 <= i < |p| && Collapsible(paths, p[..i]);
      q := FrontierAbove(paths, p[..i]);
    }
  }

  lemma FreeIffNoFrontier(paths: seq<Path>)
    ensures CollapseFree(paths) <==> !exists p :: Frontier(paths, p)
  {
    if !CollapseFree(paths) {
      var p :| Literal(p) && Collapsible(paths, p);
      var q := FrontierAbove(paths, p);
    }
  }

  lemma FreeAfterCollapse(paths: seq<Path>, path: Path, p: Path)
    requires CollapseFree(paths) && Frontier(paths + [path], p)
    ensures CollapseFree(Collapse(paths + [path], p))
  {
    forall q | Literal(q) ensures !Collapsible(Collapse(paths + [path], p), q) {
      CollapseEffect(paths + [path], p, q);
      if Collapsible(paths + [path], q) {
        AtMostOne(paths, path, p, q);
      }
    }
  }

  lemma OnlyFrontier(paths: seq<Path>, path: Path, p: Path)
    requires CollapseFree(paths) && Frontier(paths + [path], p)
    ensures p < path && forall q :: Frontier(paths + [path], q) ==> q == p
  {
    NewKid(paths, path, p);
    forall q | Frontier(paths + [path], q) ensures q == p {
      AtMostOne(paths, path, p, q);
    }
  }

  lemma StepOf(paths: seq<Path>, path: Path, p: Path)
    requires Frontier(paths + [path], p) && forall q :: Frontier(paths + [path], q) ==> q == p
    ensures Step(paths, path) == Collapse(paths + [path], p)
  {
  }

  lemma FiledOf(paths: seq<Path>, path: Path, p: Path)
    requires p < path && Frontier(paths + [path], p) && forall q :: Frontier(paths + [path], q) ==> q == p
    ensures Filed(paths, path) == path[|p| := PLACEHOLDER]
  {
  }

  lemma StepShape(paths: seq<Path>, path: Path, p: Path)
    requires CollapseFree(paths) && Frontier(paths + [path], p)
    ensures p < path
    ensures Step(paths, path) == Collapse(paths + [path], p)
    ensures Filed(paths, path) == path[|p| := PLACEHOLDER]
  {
    OnlyFrontier(paths, path, p);
    StepOf(paths, path, p);
    FiledOf(paths, path, p);
  }

  lemma LastRewritten(paths: seq<Path>, path: Path, p: Path)
    requires p < path
    ensures |Collapse(paths + [path], p)| == |paths| + 1
    ensures Collapse(paths + [path], p)[|paths|] == path[|p| := PLACEHOLDER]
  {
    var all := paths + [path];
    assert all[|paths|] == path;
    assert path[|p|] in Kids(all, p);
  }

  /** One observation: at most one collapse, on the observed path, which leaves the trie collapse-free again. */
  lemma StepTheorem(paths: seq<Path>, path: Path, p: Path)
    requires CollapseFree(paths) && Frontier(paths + [path], p)
    ensures p < path
    ensures CollapseFree(Collapse(paths + [path], p))
    ensures Step(paths, path) == Collapse(paths + [path], p)
    ensures Filed(paths, path) == path[|p| := PLACEHOLDER]
    ensures |Step(paths, path)| == |paths| + 1 && Step(paths, path)[|paths|] == Filed(paths, path)
  {
    FreeAfterCollapse(paths, path, p);
    StepShape(paths, path, p);
    LastRewritten(paths, path, p);
  }

  lemma StepWithoutCollapse(paths: seq<Path>, path: Path)
    requires CollapseFree(paths + [path])
    ensures Step(paths, path) == paths + [path] && Filed(paths, path) == path
  {
    FreeIffNoFrontier(paths + [path]);
  }

  lemma StepKeepsFree(paths: seq<Path>, path: Path)
    requires CollapseFree(paths)
    ensures CollapseFree(Step(paths, path))
    ensures |Step(paths, path)| == |paths| + 1 && Step(paths, path)[|paths|] == Filed(paths, path)
  {
    var all := paths + [path];
    FreeIffNoFrontier(all);
    if exists p :: Frontier(all, p) {
      var p :| Frontier(all, p);
      StepTheorem(paths, path, p);
    }
  }

  /** The trie after a run of observations, from the empty trie. */
  ghost function Run(history: seq<Path>): seq<Path> {
    if history == [] then [] else Step(Run(history[..|history| - 1]), history[|history| - 1])
  }

  lemma EmptyFree()
    ensures CollapseFree([])
  {
    forall p ensures !Collapsible([], p) {
      NoKids([], p);
    }
  }

  /** After every observation of every run no collapse is left, and the filed path labels a node. */
  lemma {:induction false} RunTheorem(history: seq<Path>)
    ensures CollapseFree(Run(history)) && |Run(history)| == |history|
    ensures history != [] ==>
      var n := |history| - 1;
      var filed := Filed(Run(history[..n]), history[n]);
      Run(history)[n] == filed && Count(Run(history), filed) > 0
  {
    if history == [] {
      EmptyFree();
    } else {
      var n := |history| - 1;
      RunTheorem(history[..n]);
      var before, after := Run(history[..n]), Run(history);
      StepKeepsFree(before, history[n]);
      CountZero(after, after[n]);
    }
  }

  // ---- Draining ----

  /** The path rewritten after its first collapsible literal prefix, seen from position i on. */
  ghost function OnePassFrom(paths: seq<Path>, path: Path, i: nat): Path
    requires i <= |path|
    decreases |path| - i
  {
    if i == |path| || !Literal(path[..i]) then path
    else if Collapsible(paths, path[..i]) then path[i := PLACEHOLDER]
    else OnePassFrom(paths, path, i + 1)
  }

  /** All collapses in one top-down pass, judged by the counts of the trie as it stands. */
  ghost function OnePass(paths: seq<Path>): seq<Path> {
    seq(|paths|, i requires 0 <= i < |paths| => OnePassFrom(paths, paths[i], 0))
  }

  /** The literal nodes other than the root. */
  ghost function LiteralNodes(paths: seq<Path>): set<Path> {
    set i, n | 0 <= i < |paths| && 0 < n <= |paths[i]| && Literal(paths[i][..n]) :: paths[i][..n]
  }

  lemma {:induction false} NothingToDo(paths: seq<Path>, path: Path, i: nat)
    requires CollapseFree(paths) && i <= |path|
    ensures OnePassFrom(paths, path, i) == path
    decreases |path| - i
  {
    if i < |path| && Literal(path[..i]) {
      NothingToDo(paths, path, i + 1);
    }
  }

  lemma {:induction false} FirstHit(paths: seq<Path>, path: Path, p: Path, i: nat)
    requires Frontier(paths, p) && p < path && i <= |p|
    ensures OnePassFrom(paths, path, i) == path[|p| := PLACEHOLDER]
    decreases |p| - i
  {
    assert path[..i] == p[..i];
    LiteralPrefix(p, i);
    if i < |p| {
      FirstHit(paths, path, p, i + 1);
    } else {
      assert p[..i] == p;
    }
  }

  lemma {:induction false} AlreadyHit(paths: seq<Path>, path: Path, p: Path, i: nat)
    requires p < path && path[|p|] == PLACEHOLDER && i <= |p| + 1
    requires forall j | 0 <= j <= |p| :: !Collapsible(paths, path[..j])
    ensures OnePassFrom(paths, path, i) == path
    decreases |path| - i
  {
    if i <= |p| {
      if Literal(path[..i]) { AlreadyHit(paths, path, p, i + 1); }
    } else {
      assert path[..i][|p|] == PLACEHOLDER;
    }
  }

  lemma {:induction false} SameScan(paths: seq<Path>, after: seq<Path>, path: Path, i: nat)
    requires i <= |path|
    requires forall j | 0 <= j < |path| && Literal(path[..j]) ::
      Collapsible(after, path[..j]) <==> Collapsible(paths, path[..j])
    ensures OnePassFrom(after, path, i) == OnePassFrom(paths, path, i)
    decreases |path| - i
  {
    if i < |path| {
      SameScan(paths, after, path, i + 1);
    }
  }

  /** A collapse puts the placeholder after its parent in every longer path. */
  lemma CollapsedAt(paths: seq<Path>, p: Path, i: nat)
    requires i < |paths|
    ensures |Collapse(paths, p)| == |paths|
    ensures Collapse(paths, p)[i] == if p < paths[i] then paths[i][|p| := PLACEHOLDER] else paths[i]
  {
    if p < paths[i] {
      assert paths[i][|p|] in Kids(paths, p);
    }
  }

  lemma OnePassOfHit(paths: seq<Path>, p: Path, path: Path)
    requires Frontier(paths, p) && p < path
    ensures OnePassFrom(Collapse(paths, p), path[|p| := PLACEHOLDER], 0) == OnePassFrom(paths, path, 0)
  {
    FirstHit(paths, path, p, 0);
    ClearAfter(paths, p, path[|p| := PLACEHOLDER]);
    AlreadyHit(Collapse(paths, p), path[|p| := PLACEHOLDER], p, 0);
  }

  lemma OnePassOfMissed(paths: seq<Path>, p: Path, path: Path)
    requires !(p < path)
    ensures OnePassFrom(Collapse(paths, p), path, 0) == OnePassFrom(paths, path, 0)
  {
    SameLiteralNodes(paths, p, path);
    SameScan(paths, Collapse(paths, p), path, 0);
  }

  lemma ClearAfter(paths: seq<Path>, p: Path, path: Path)
    requires Frontier(paths, p) && p < path
    ensures forall j | 0 <= j <= |p| :: !Collapsible(Collapse(paths, p), path[..j])
  {
    forall j | 0 <= j <= |p| ensures !Collapsible(Collapse(paths, p), path[..j]) {
      assert path[..j] == p[..j];
      LiteralPrefix(p, j);
      CollapseEffect(paths, p, p[..j]);
      assert p[..|p|] == p;
    }
  }

  lemma SameLiteralNodes(paths: seq<Path>, p: Path, path: Path)
    requires !(p < path)
    ensures forall j | 0 <= j < |path| && Literal(path[..j]) ::
      Collapsible(Collapse(paths, p), path[..j]) <==> Collapsible(paths, path[..j])
  {
    forall j | 0 <= j < |path| && Literal(path[..j])
      ensures Collapsible(Collapse(paths, p), path[..j]) <==> Collapsible(paths, path[..j])
    {
      CollapseEffect(paths, p, path[..j]);
    }
  }

  lemma LiteralPrefix(p: Path, j: nat)
    requires Literal(p) && j <= |p|
    ensures Literal(p[..j])
  {
    assert forall k :: k in p[..j] ==> k in p;
  }

  /** No collapse of the drain loop changes what the one-pass recursion would make of the trie. */
  lemma CollapseKeepsOnePass(paths: seq<Path>, p: Path)
    requires Frontier(paths, p)
    ensures OnePass(Collapse(paths, p)) == OnePass(paths)
  {
    forall i | 0 <= i < |paths|
      ensures OnePassFrom(Collapse(paths, p), Collapse(paths, p)[i], 0) == OnePassFrom(paths, paths[i], 0)
    {
      CollapsedAt(paths, p, i);
      if p < paths[i] { OnePassOfHit(paths, p, paths[i]); } else { OnePassOfMissed(paths, p, paths[i]); }
    }
    assert |OnePass(Collapse(paths, p))| == |OnePass(paths)|;
  }

  lemma OnePassOfFree(paths: seq<Path>)
    requires CollapseFree(paths)
    ensures OnePass(paths) == paths
  {
    forall i | 0 <= i < |paths| ensures OnePass(paths)[i] == paths[i] {
      NothingToDo(paths, paths[i], 0);
    }
  }

  lemma LiteralNodeCounted(paths: seq<Path>, p: Path)
    ensures p in LiteralNodes(paths) <==> p != [] && Literal(p) && Count(paths, p) > 0
  {
    CountZero(paths, p);
    if p in LiteralNodes(paths) {
      var i, n :| 0 <= i < |paths| && 0 < n <= |paths[i]| && Literal(paths[i][..n]) && paths[i][..n] == p;
      assert p <= paths[i];
    }
    if p != [] && Literal(p) && exists i :: 0 <= i < |paths| && p <= paths[i] {
      var i :| 0 <= i < |paths| && p <= paths[i];
      assert paths[i][..|p|] == p;
    }
  }

  lemma TwoLiterals(paths: seq<Path>, p: Path) returns (k: string)
    requires Collapsible(paths, p)
    ensures k in LiteralKids(paths, p)
  {
    assert |LiteralKids(paths, p)| > 0;
    k :| k in LiteralKids(paths, p);
  }

  /** Every collapse removes literal nodes, so the drain loop ends. */
  lemma CollapseRemovesLiterals(paths: seq<Path>, p: Path)
    requires Frontier(paths, p)
    ensures LiteralNodes(Collapse(paths, p)) < LiteralNodes(paths)
  {
    var after := Collapse(paths, p);
    forall q ensures q in LiteralNodes(after) ==> q in LiteralNodes(paths) {
      LiteralNodeCounted(after, q);
      LiteralNodeCounted(paths, q);
      if Literal(q) {
        if p < q { CollapseEffect(paths, p, q); } else { CollapseKeepsCount(paths, p, LiteralKids(paths, p), q); }
      }
    }
    var k := TwoLiterals(paths, p);
    var q := Snoc(p, k);
    LiteralNodeCounted(after, q);
    LiteralNodeCounted(paths, q);
    KidIffCounted(paths, p, k);
    CollapseEffect(paths, p, q);
  }

  /** The trie when the drain loop has collapsed the nodes in the given order. */
  ghost function Drained(paths: seq<Path>, parents: seq<Path>): seq<Path> {
    if parents == [] then paths
    else Collapse(Drained(paths, parents[..|parents| - 1]), parents[|parents| - 1])
  }

  /** Each node was one that the check can find: it looks at the maps in any order, but not below collapsible nodes. */
  ghost predicate CanDrain(paths: seq<Path>, parents: seq<Path>) {
    parents != [] ==>
      var n := |parents| - 1;
      CanDrain(paths, parents[..n]) && Frontier(Drained(paths, parents[..n]), parents[n])
  }

  /**
    However the maps are iterated, the loop takes at most one collapse per literal node and
    ends in the one-pass result.
   */
  lemma {:induction false} DrainTheorem(paths: seq<Path>, parents: seq<Path>)
    requires CanDrain(paths, parents)
    ensures OnePass(Drained(paths, parents)) == OnePass(paths)
    ensures CollapseFree(Drained(paths, parents)) ==> Drained(paths, parents) == OnePass(paths)
    ensures |parents| + |LiteralNodes(Drained(paths, parents))| <= |LiteralNodes(paths)|
    decreases |parents|
  {
    if parents != [] {
      var n := |parents| - 1;
      var before := Drained(paths, parents[..n]);
      DrainTheorem(paths, parents[..n]);
      CollapseKeepsOnePass(before, parents[n]);
      CollapseRemovesLiterals(before, parents[n]);
      SmallerSet(LiteralNodes(Collapse(before, parents[n])), LiteralNodes(before));
    }
    if CollapseFree(Drained(paths, parents)) { OnePassOfFree(Drained(paths, parents)); }
  }

  lemma SmallerSet(a: set<Path>, b: set<Path>)
    requires a < b
    ensures |a| < |b|
  {
    assert b == a + (b - a);
  }

  /** The one-pass result has nothing left to collapse. */
  lemma {:induction false} OnePassIsFree(paths: seq<Path>)
    ensures CollapseFree(OnePass(paths))
    decreases LiteralNodes(paths)
  {
    FreeIffNoFrontier(paths);
    if CollapseFree(paths) {
      OnePassOfFree(paths);
    } else {
      var p :| Frontier(paths, p);
      CollapseKeepsOnePass(paths, p);
      CollapseRemovesLiterals(paths, p);
      OnePassIsFree(Collapse(paths, p));
    }
  }
}
