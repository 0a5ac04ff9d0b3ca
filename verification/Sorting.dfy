/**
  Sorting by a total order, as sort.Strings and sort.Slice do it; equal elements do not occur.
 */
module Sorting {

  ghost predicate IsOrder<T(!new)>(leq: (T, T) -> bool) {
    && (forall a, b :: leq(a, b) || leq(b, a))
    && (forall a, b :: leq(a, b) && leq(b, a) ==> a == b)
    && (forall a, b, c :: leq(a, b) && leq(b, c) ==> leq(a, c))
  }

  /** Strictly increasing: sorted and without repetition. */
  ghost predicate Sorted<T>(leq: (T, T) -> bool, s: seq<T>) {
    forall i, j :: 0 <= i < j < |s| ==> leq(s[i], s[j]) && s[i] != s[j]
  }

  lemma Between<T>(leq: (T, T) -> bool, low: seq<T>, x: T, high: seq<T>)
    requires Sorted(leq, low + high) && x !in low + high
    requires (forall y :: y in low ==> leq(y, x)) && (forall y :: y in high ==> leq(x, y))
    ensures Sorted(leq, low + [x] + high)
  {
    var all, rest := low + [x] + high, low + high;
    forall i, j | 0 <= i < j < |all| ensures leq(all[i], all[j]) && all[i] != all[j] {
      var i', j' := if i < |low| then i else i - 1, if j < |low| then j else j - 1;
      if i != |low| && j != |low| {
        assert all[i] == rest[i'] && all[j] == rest[j'];
      } else if i == |low| {
        assert all[j] == high[j' - |low|] && all[j] in rest;
      } else {
        assert all[i] == low[i] && all[i] in rest;
      }
    }
  }

  /** Where x belongs in the sorted list: behind everything that is not greater. */
  method Insert<T(==, !new)>(leq: (T, T) -> bool, s: seq<T>, x: T) returns (all: seq<T>)
    requires IsOrder(leq) && Sorted(leq, s) && x !in s
    ensures Sorted(leq, all) && (forall y :: y in all <==> y in s || y == x)
  {
    var i := 0;
    while i < |s| && leq(s[i], x)
      invariant i <= |s|
      invariant forall j | 0 <= j < i :: leq(s[j], x)
    {
      i := i + 1;
    }
    forall j | i <= j < |s| ensures leq(x, s[j]) {
      assert leq(x, s[i]);
      if i < j { assert leq(s[i], s[j]); }
    }
    all := s[..i] + [x] + s[i..];
    assert s == s[..i] + s[i..];
    Between(leq, s[..i], x, s[i..]);
  }

  method Sort<T(==, !new)>(leq: (T, T) -> bool, elements: set<T>) returns (sorted: seq<T>)
    requires IsOrder(leq)
    ensures Sorted(leq, sorted) && (forall x :: x in sorted <==> x in elements)
  {
    sorted := [];
    var todo := elements;
    while todo != {}
      invariant todo <= elements && Sorted(leq, sorted)
      invariant forall x :: x in sorted <==> x in elements && x !in todo
      decreases todo
    {
      var x :| x in todo;
      todo := todo - {x};
      sorted := Insert(leq, sorted, x);
    }
  }
}
