/**
  Labels that give the nodes of a tree on the heap their paths, for any class of nodes.
 */
module Labelling {
  import opened PathTrieSpec

  ghost predicate Apart<N>(at: map<Path, N>, p: Path, q: Path) {
    p in at && q in at && at[p] == at[q] ==> p == q
  }

  /** No node has two paths. */
  ghost predicate Injective<N>(at: map<Path, N>) {
    forall p, q :: Apart(at, p, q)
  }

  /** The nodes of the subtree at p. */
  ghost function Under<N>(at: map<Path, N>, p: Path): set<N> {
    set q | q in at && p <= q :: at[q]
  }

  lemma SmallerBelow<N>(at: map<Path, N>, p: Path, k: string)
    requires Injective(at) && p in at
    ensures Under(at, Snoc(p, k)) < Under(at, p)
  {
    forall q | q in at && Snoc(p, k) <= q ensures at[q] != at[p] {
      assert Apart(at, q, p);
    }
    assert at[p] in Under(at, p) && at[p] !in Under(at, Snoc(p, k));
  }
}
