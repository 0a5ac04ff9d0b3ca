/**
  What the two collapse conditions of internal/endpoint/trie.go come to, in numbers of
  children and observations, over every run of observations.
 */
module CollapseRules {
  import opened PathTrieSpec
  import opened CollapseTheory

  // ---- The tries that are left ----

  lemma FreeShape(paths: seq<Path>, p: Path)
    requires CollapseFree(paths) && Literal(p)
    ensures PLACEHOLDER in Kids(paths, p) ==> |LiteralKids(paths, p)| <= 1
    ensures |LiteralKids(paths, p)| >= 3 ==> 10 * |LiteralKids(paths, p)| <= 3 * Count(paths, p)
  {
    assert !Collapsible(paths, p);
    if |LiteralKids(paths, p)| >= 3 {
      var k :| k in LiteralKids(paths, p);
      KidIffCounted(paths, p, k);
      CountMonotone(paths, p, Snoc(p, k));
    }
  }

  /**
    After every run of observations a literal node with a placeholder child has at most
    one literal child, and one with three or more literal children was observed so often
    that they are at most three tenths of its observations.
   */
  lemma RunShape(history: seq<Path>, p: Path)
    requires Literal(p)
    ensures PLACEHOLDER in Kids(Run(history), p) ==> |LiteralKids(Run(history), p)| <= 1
    ensures |LiteralKids(Run(history), p)| >= 3 ==>
      10 * |LiteralKids(Run(history), p)| <= 3 * Count(Run(history), p)
  {
    RunTheorem(history);
    FreeShape(Run(history), p);
  }

  // ---- The observations that collapse ----

  lemma CollapsesAt(paths: seq<Path>, path: Path, p: Path)
    requires CollapseFree(paths) && Literal(p)
    requires var all := paths + [path];
      || (PLACEHOLDER in Kids(all, p) && |LiteralKids(all, p)| >= 2)
      || (|LiteralKids(all, p)| >= 3 && 10 * |LiteralKids(all, p)| > 3 * Count(all, p))
    ensures Frontier(paths + [path], p)
  {
    var all := paths + [path];
    var k :| k in LiteralKids(all, p);
    KidIffCounted(all, p, k);
    CountMonotone(all, p, Snoc(p, k));
    assert Collapsible(all, p);
    var q := FrontierAbove(all, p);
    AtMostOne(paths, path, p, q);
  }

  /**
    An observation that leaves a literal node with a placeholder child and two literal
    ones, or with too many literal children for its observations, collapses that node.
   */
  lemma RunCollapses(history: seq<Path>, path: Path, p: Path)
    requires Literal(p)
    requires var all := Run(history) + [path];
      || (PLACEHOLDER in Kids(all, p) && |LiteralKids(all, p)| >= 2)
      || (|LiteralKids(all, p)| >= 3 && 10 * |LiteralKids(all, p)| > 3 * Count(all, p))
    ensures var all := Run(history) + [path];
      p < path && Run(history + [path]) == RewriteAll(all, p, LiteralKids(all, p))
  {
    RunTheorem(history);
    CollapsesAt(Run(history), path, p);
    StepTheorem(Run(history), path, p);
    assert (history + [path])[..|history|] == history;
  }

  /** No other observation changes what was observed before. */
  lemma RunKeeps(history: seq<Path>, path: Path)
    requires Run(history + [path]) != Run(history) + [path]
    ensures var all := Run(history) + [path];
      exists p :: Literal(p) && p < path &&
        ((PLACEHOLDER in Kids(all, p) && |LiteralKids(all, p)| >= 2)
         || (|LiteralKids(all, p)| >= 3 && 10 * |LiteralKids(all, p)| > 3 * Count(all, p)))
  {
    assert (history + [path])[..|history|] == history;
    RunTheorem(history);
    var all := Run(history) + [path];
    var p :| Frontier(all, p);
    StepTheorem(Run(history), path, p);
  }

  // ---- What a path can become ----

  /** Some segments of a path replaced by the placeholder. */
  ghost predicate Generalizes(filed: Path, path: Path) {
    |filed| == |path| && forall j | 0 <= j < |path| :: filed[j] == path[j] || filed[j] == PLACEHOLDER
  }

  ghost predicate AllGeneralize(filed: seq<Path>, paths: seq<Path>) {
    |filed| == |paths| && forall i | 0 <= i < |paths| :: Generalizes(filed[i], paths[i])
  }

  lemma CollapseGeneralizes(paths: seq<Path>, p: Path)
    ensures AllGeneralize(Collapse(paths, p), paths)
  {
    forall i | 0 <= i < |paths| ensures Generalizes(Collapse(paths, p)[i], paths[i]) {
      CollapsedAt(paths, p, i);
    }
  }

  lemma StepGeneralizes(paths: seq<Path>, path: Path)
    requires CollapseFree(paths)
    ensures AllGeneralize(Step(paths, path), paths + [path])
  {
    FreeIffNoFrontier(paths + [path]);
    if p :| Frontier(paths + [path], p) {
      StepTheorem(paths, path, p);
      CollapseGeneralizes(paths + [path], p);
    } else {
      StepWithoutCollapse(paths, path);
    }
  }

  lemma AllGeneralizeOneMore(before: seq<Path>, after: seq<Path>, history: seq<Path>, path: Path)
    requires AllGeneralize(before, history) && AllGeneralize(after, before + [path])
    ensures AllGeneralize(after, history + [path])
  {
    forall i | 0 <= i < |after| ensures Generalizes(after[i], (history + [path])[i]) {
      assert Generalizes(after[i], (before + [path])[i]);
      assert i < |history| ==> (before + [path])[i] == before[i] && Generalizes(before[i], history[i]);
    }
  }

  /** Every observation stays in the trie, with some of its segments replaced by the placeholder. */
  lemma {:induction false} RunGeneralizes(history: seq<Path>)
    ensures AllGeneralize(Run(history), history)
  {
    if history != [] {
      var n := |history| - 1;
      RunTheorem(history[..n]);
      RunGeneralizes(history[..n]);
      StepGeneralizes(Run(history[..n]), history[n]);
      AllGeneralizeOneMore(Run(history[..n]), Run(history), history[..n], history[n]);
      assert history == history[..n] + [history[n]];
    }
  }

  lemma {:induction false} OnePassFromGeneralizes(paths: seq<Path>, path: Path, i: nat)
    requires i <= |path|
    ensures Generalizes(OnePassFrom(paths, path, i), path)
    decreases |path| - i
  {
    if i < |path| {
      OnePassFromGeneralizes(paths, path, i + 1);
    }
  }

  /** So does every stored path in a trie that is rebuilt and drained. */
  lemma OnePassGeneralizes(paths: seq<Path>)
    ensures AllGeneralize(OnePass(paths), paths)
  {
    forall i | 0 <= i < |paths| ensures Generalizes(OnePass(paths)[i], paths[i]) {
      OnePassFromGeneralizes(paths, paths[i], 0);
    }
  }
}
