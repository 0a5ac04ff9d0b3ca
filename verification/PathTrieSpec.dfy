/**
  The meaning of a segment trie.

  A trie is determined by the list of paths that were observed in it: a node is
  a prefix of some path, and its counter is the number of paths that run through
  it.  Collapsing the children of a node is rewriting one segment in that list.
  Every operation of the trie and of the resolver is specified on such lists.
 */
module PathTrieSpec {

  type Path = seq<string>

  /** The segment that stands for all parameters. */
  const PLACEHOLDER := "{_}"

  const COLLAPSE_MIN_CHILDREN := 3
  const COLLAPSE_MIN_WITH_PLACEHOLDER := 2

  function Snoc(p: Path, k: string): Path {
    p + [k]
  }

  /** How many of the paths have the prefix p. */
  ghost function Count(paths: seq<Path>, p: Path): nat {
    if paths == [] then 0
    else Count(paths[..|paths| - 1], p) + if p <= paths[|paths| - 1] then 1 else 0
  }

  /** The segments that follow the prefix p in some path. */
  ghost function Kids(paths: seq<Path>, p: Path): set<string> {
    set i | 0 <= i < |paths| && p < paths[i] :: paths[i][|p|]
  }

  ghost function LiteralKids(paths: seq<Path>, p: Path): set<string> {
    Kids(paths, p) - {PLACEHOLDER}
  }

  /** The two collapse conditions; the ratio test literal / observations > 0.3 is exact here. */
  predicate ShouldCollapse(literals: nat, observations: nat, hasPlaceholder: bool) {
    || (literals >= COLLAPSE_MIN_CHILDREN && observations > 0 && 10 * literals > 3 * observations)
    || (hasPlaceholder && literals >= COLLAPSE_MIN_WITH_PLACEHOLDER)
  }

  ghost predicate Collapsible(paths: seq<Path>, p: Path) {
    ShouldCollapse(|LiteralKids(paths, p)|, Count(paths, p), PLACEHOLDER in Kids(paths, p))
  }

  predicate Literal(p: Path) {
    PLACEHOLDER !in p
  }

  /** No node that can be reached through literal segments only is collapsible. */
  ghost predicate CollapseFree(paths: seq<Path>) {
    forall p | Literal(p) :: !Collapsible(paths, p)
  }

  /** No proper prefix of p is collapsible. */
  ghost predicate ClearAbove(paths: seq<Path>, p: Path) {
    forall i | 0 <= i < |p| :: !Collapsible(paths, p[..i])
  }

  /** p is a shallowest collapsible node on its own literal branch. */
  ghost predicate Frontier(paths: seq<Path>, p: Path) {
    Literal(p) && Collapsible(paths, p) && ClearAbove(paths, p)
  }

  /** The path with the segment after parent replaced, if that segment is one of the keys. */
  function Rewrite(path: Path, parent: Path, keys: set<string>): Path {
    if parent < path && path[|parent|] in keys then path[|parent| := PLACEHOLDER] else path
  }

  function RewriteAll(paths: seq<Path>, parent: Path, keys: set<string>): seq<Path> {
    seq(|paths|, i requires 0 <= i < |paths| => Rewrite(paths[i], parent, keys))
  }

  /** All literal children of parent become one placeholder child. */
  ghost function Collapse(paths: seq<Path>, parent: Path): seq<Path> {
    RewriteAll(paths, parent, LiteralKids(paths, parent))
  }

  // ---- Counting ----

  lemma {:induction false} CountZero(paths: seq<Path>, p: Path)
    ensures Count(paths, p) > 0 <==> exists i :: 0 <= i < |paths| && p <= paths[i]
  {
    if paths != [] {
      var n := |paths| - 1;
      CountZero(paths[..n], p);
      if exists i :: 0 <= i < n && p <= paths[i] {
        var i :| 0 <= i < n && p <= paths[i];
        assert paths[..n][i] == paths[i];
      }
      if Count(paths[..n], p) > 0 {
        var i :| 0 <= i < n && p <= paths[..n][i];
        assert p <= paths[i];
      }
    }
  }

  /** A child of p is exactly a longer prefix with a positive count. */
  lemma KidIffCounted(paths: seq<Path>, p: Path, k: string)
    ensures k in Kids(paths, p) <==> Count(paths, Snoc(p, k)) > 0
  {
    CountZero(paths, Snoc(p, k));
    if k in Kids(paths, p) {
      var i :| 0 <= i < |paths| && p < paths[i] && paths[i][|p|] == k;
      assert Snoc(p, k) <= paths[i];
    }
    if exists i :: 0 <= i < |paths| && Snoc(p, k) <= paths[i] {
      var i :| 0 <= i < |paths| && Snoc(p, k) <= paths[i];
      assert p < paths[i] && paths[i][|p|] == Snoc(p, k)[|p|];
    }
  }

  lemma {:induction false} CountMonotone(paths: seq<Path>, p: Path, q: Path)
    requires p <= q
    ensures Count(paths, q) <= Count(paths, p)
  {
    if paths != [] {
      CountMonotone(paths[..|paths| - 1], p, q);
    }
  }

  lemma {:induction false} CountRoot(paths: seq<Path>)
    ensures Count(paths, []) == |paths|
  {
    if paths != [] {
      CountRoot(paths[..|paths| - 1]);
    }
  }

  lemma CountSnoc(paths: seq<Path>, path: Path, p: Path)
    ensures Count(paths + [path], p) == Count(paths, p) + if p <= path then 1 else 0
  {
    assert (paths + [path])[..|paths|] == paths;
  }

  lemma KidsSnoc(paths: seq<Path>, path: Path, p: Path)
    ensures Kids(paths + [path], p) == Kids(paths, p) + if p < path then {path[|p|]} else {}
  {
    var all := paths + [path];
    assert all[|paths|] == path;
    assert forall i :: 0 <= i < |paths| ==> all[i] == paths[i];
    forall k | k in Kids(paths, p) ensures k in Kids(all, p) {
      var i :| 0 <= i < |paths| && p < paths[i] && paths[i][|p|] == k;
      assert p < all[i] && all[i][|p|] == k;
    }
  }

  /** A continuation below q is also one below every prefix of q, and names its child. */
  lemma KidsBelow(paths: seq<Path>, p: Path, q: Path)
    requires p <= q && Kids(paths, q) != {}
    ensures Kids(paths, p) != {}
    ensures p < q ==> q[|p|] in Kids(paths, p)
  {
    var k :| k in Kids(paths, q);
    var i :| 0 <= i < |paths| && q < paths[i] && paths[i][|q|] == k;
    assert paths[i][|p|] in Kids(paths, p);
  }

  lemma NoKids(paths: seq<Path>, p: Path)
    requires Kids(paths, p) == {}
    ensures !Collapsible(paths, p)
  {
  }

  lemma ClearAboveSnoc(paths: seq<Path>, p: Path, k: string)
    requires ClearAbove(paths, p) && !Collapsible(paths, p)
    ensures ClearAbove(paths, Snoc(p, k))
  {
    forall i | 0 <= i < |Snoc(p, k)| ensures !Collapsible(paths, Snoc(p, k)[..i]) {
      assert Snoc(p, k)[..i] == if i < |p| then p[..i] else p;
    }
  }

  // ---- Rewriting ----

  /** How rewriting one more key moves counts below the placeholder. */
  lemma {:induction false} RewriteOneMore(paths: seq<Path>, parent: Path, done: set<string>, k: string, p: Path)
    requires k !in done && k != PLACEHOLDER && PLACEHOLDER !in done
    ensures
      var before := RewriteAll(paths, parent, done);
      var hole := Snoc(parent, PLACEHOLDER);
      Count(RewriteAll(paths, parent, done + {k}), p) ==
        if Snoc(parent, k) <= p then 0
        else if hole <= p then Count(before, p) + Count(before, Snoc(parent, k) + p[|hole|..])
        else Count(before, p)
  {
    if paths != [] {
      var n := |paths| - 1;
      RewriteOneMore(paths[..n], parent, done, k, p);
      assert RewriteAll(paths, parent, done)[..n] == RewriteAll(paths[..n], parent, done);
      assert RewriteAll(paths, parent, done + {k})[..n] == RewriteAll(paths[..n], parent, done + {k});
      RewriteOnePath(paths[n], parent, done, k, p);
    }
  }

  lemma RewriteOnePath(path: Path, parent: Path, done: set<string>, k: string, p: Path)
    requires k !in done && k != PLACEHOLDER && PLACEHOLDER !in done
    ensures
      var before := Rewrite(path, parent, done);
      var after := Rewrite(path, parent, done + {k});
      var hole := Snoc(parent, PLACEHOLDER);
      && (Snoc(parent, k) <= p ==> !(p <= after))
      && (hole <= p ==> (p <= after <==> p <= before || Snoc(parent, k) + p[|hole|..] <= before)
                        && !(p <= before && Snoc(parent, k) + p[|hole|..] <= before))
      && (!(Snoc(parent, k) <= p) && !(hole <= p) ==> (p <= after <==> p <= before))
  {
    var n := |parent|;
    var hole := Snoc(parent, PLACEHOLDER);
    if parent < path && hole <= p {
      var moved := Snoc(parent, k) + p[|hole|..];
      assert |moved| == |p| && moved[n] == k && p[n] == PLACEHOLDER;
      assert forall i :: 0 <= i < |p| && i != n ==> moved[i] == p[i];
      assert forall q: Path :: moved <= q <==> |p| <= |q| && forall i :: 0 <= i < |p| ==> moved[i] == q[i];
      assert forall q: Path :: p <= q <==> |p| <= |q| && forall i :: 0 <= i < |p| ==> p[i] == q[i];
    }
  }

  lemma {:induction false} RewriteUntouched(paths: seq<Path>, parent: Path, done: set<string>, p: Path)
    requires forall d | d in done :: !(Snoc(parent, d) <= p)
    requires !(Snoc(parent, PLACEHOLDER) <= p)
    ensures Count(RewriteAll(paths, parent, done), p) == Count(paths, p)
  {
    if paths != [] {
      var n := |paths| - 1;
      RewriteUntouched(paths[..n], parent, done, p);
      assert RewriteAll(paths, parent, done)[..n] == RewriteAll(paths[..n], parent, done);
      var path := paths[n];
      var after := Rewrite(path, parent, done);
      if after != path && |p| > |parent| {
        var k := path[|parent|];
        assert after[|parent|] == PLACEHOLDER;
        assert after[..|parent|] == parent == path[..|parent|];
        assert Snoc(parent, k) <= path;
        assert p <= path ==> Snoc(parent, k) <= p;
        assert Snoc(parent, PLACEHOLDER) <= after;
        assert p <= after ==> Snoc(parent, PLACEHOLDER) <= p;
      }
    }
  }

  lemma RewriteNothing(paths: seq<Path>, parent: Path)
    ensures RewriteAll(paths, parent, {}) == paths
  {
  }
}
