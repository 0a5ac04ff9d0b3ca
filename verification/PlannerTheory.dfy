/**
  What the picks of internal/engine/planner.go can be, and what every sequence of
  picks comes to.

  Finite scores are left open: rewards can make any of them the largest.  What is
  fixed is that a key without observations has an infinite score, and that the first
  of several best keys wins.
 */
module PlannerTheory {
  import opened SortedStrings
  import opened Sorting

  datatype Key = Key(httpMethod: string, path: string)

  /** The zero value of a key, by which Pick tells that nothing is chosen yet. */
  const ZERO := Key("", "")

  // ---- The order of keys ----

  predicate KeyLeq(a: Key, b: Key) {
    if a.httpMethod != b.httpMethod then Leq(a.httpMethod, b.httpMethod) else Leq(a.path, b.path)
  }

  lemma KeyLeqTotal(a: Key, b: Key)
    ensures KeyLeq(a, b) || KeyLeq(b, a)
    ensures KeyLeq(a, b) && KeyLeq(b, a) ==> a == b
  {
    LeqTotal(a.httpMethod, b.httpMethod);
    LeqTotal(a.path, b.path);
  }

  lemma KeyLeqTransitive(a: Key, b: Key, c: Key)
    requires KeyLeq(a, b) && KeyLeq(b, c)
    ensures KeyLeq(a, c)
  {
    LeqTotal(a.httpMethod, b.httpMethod);
    LeqTotal(b.httpMethod, c.httpMethod);
    LeqTotal(a.httpMethod, c.httpMethod);
    if a.httpMethod == b.httpMethod == c.httpMethod {
      LeqTransitive(a.path, b.path, c.path);
    } else if a.httpMethod != b.httpMethod && b.httpMethod != c.httpMethod {
      LeqTransitive(a.httpMethod, b.httpMethod, c.httpMethod);
    }
  }

  lemma KeyLeqIsOrder()
    ensures IsOrder(KeyLeq)
  {
    forall a, b ensures (KeyLeq(a, b) || KeyLeq(b, a)) && (KeyLeq(a, b) && KeyLeq(b, a) ==> a == b) {
      KeyLeqTotal(a, b);
    }
    forall a, b, c | KeyLeq(a, b) && KeyLeq(b, c) ensures KeyLeq(a, c) {
      KeyLeqTransitive(a, b, c);
    }
  }

  ghost predicate SortedKeyList(keys: seq<Key>) {
    forall i, j :: 0 <= i < j < |keys| ==> KeyLeq(keys[i], keys[j]) && keys[i] != keys[j]
  }

  /** Keys are sorted by method, and by path for the same method. */
  lemma KeyOrder(keys: seq<Key>, i: nat, j: nat)
    requires SortedKeyList(keys) && i < j < |keys|
    ensures Leq(keys[i].httpMethod, keys[j].httpMethod)
    ensures keys[i].httpMethod == keys[j].httpMethod ==>
      Leq(keys[i].path, keys[j].path) && keys[i].path != keys[j].path
  {
    LeqTotal(keys[i].httpMethod, keys[j].httpMethod);
  }

  // ---- Picks ----

  type Counts = map<Key, nat>

  ghost predicate CountsFor(keys: seq<Key>, counts: Counts) {
    forall k :: k in keys <==> k in counts
  }

  ghost predicate Untried(keys: seq<Key>, counts: Counts) {
    exists k :: k in keys && k in counts && counts[k] == 0
  }

  /** Position i holds the first key without observations. */
  ghost predicate FirstUntried(keys: seq<Key>, counts: Counts, i: nat) {
    i < |keys| && CountsFor(keys, counts) && counts[keys[i]] == 0 && forall j | 0 <= j < i :: counts[keys[j]] > 0
  }

  ghost predicate WinsUntried(keys: seq<Key>, counts: Counts, k: Key) {
    exists i: nat :: FirstUntried(keys, counts, i) && keys[i] == k
  }

  /** A key that argmaxUCB can return. */
  ghost predicate CanWin(keys: seq<Key>, counts: Counts, k: Key) {
    k in keys && (Untried(keys, counts) ==> WinsUntried(keys, counts, k))
  }

  ghost predicate Under(keys: seq<Key>, counts: Counts, floor: nat, k: Key) {
    k in keys && k in counts && counts[k] < floor
  }

  ghost predicate SomeUnder(keys: seq<Key>, counts: Counts, floor: nat) {
    exists k :: Under(keys, counts, floor, k)
  }

  /**
    A key that Pick can choose: one below the floor while there is any, but if the draw
    falls on the zero key it counts as no choice.
   */
  ghost predicate CanChoose(keys: seq<Key>, counts: Counts, floor: nat, k: Key) {
    if SomeUnder(keys, counts, floor) then
      || (Under(keys, counts, floor, k) && k != ZERO)
      || (Under(keys, counts, floor, ZERO) && CanWin(keys, counts, k))
    else CanWin(keys, counts, k)
  }

  function Fresh(keys: seq<Key>): Counts {
    map k | k in keys :: 0
  }

  /** The counts after some picks. */
  function After(keys: seq<Key>, picks: seq<Key>): (counts: Counts)
    ensures CountsFor(keys, counts)
  {
    if picks == [] then Fresh(keys)
    else
      var before, k := After(keys, picks[..|picks| - 1]), picks[|picks| - 1];
      if k in before then before[k := before[k] + 1] else before
  }

  /** A sequence of picks that the planner can make, whatever the rewards in between. */
  ghost predicate CanPick(keys: seq<Key>, floor: nat, picks: seq<Key>) {
    picks == [] ||
      (var n := |picks| - 1;
       CanPick(keys, floor, picks[..n]) && CanChoose(keys, After(keys, picks[..n]), floor, picks[n]))
  }

  lemma {:induction false} PicksAreKeys(keys: seq<Key>, floor: nat, picks: seq<Key>)
    requires CanPick(keys, floor, picks)
    ensures forall k | k in picks :: k in keys
  {
    if picks != [] {
      PicksAreKeys(keys, floor, picks[..|picks| - 1]);
    }
  }

  // ---- Totals ----

  lemma AfterOneMore(keys: seq<Key>, picks: seq<Key>, k: Key)
    requires k in keys
    ensures After(keys, picks + [k]) == After(keys, picks)[k := After(keys, picks)[k] + 1]
  {
  }

  function Sum(keys: seq<Key>, counts: Counts): nat {
    if keys == [] then 0
    else Sum(keys[..|keys| - 1], counts) + if keys[|keys| - 1] in counts then counts[keys[|keys| - 1]] else 0
  }

  lemma {:induction false} SumOneMore(keys: seq<Key>, counts: Counts, k: Key)
    requires SortedKeyList(keys) && k in counts
    ensures Sum(keys, counts[k := counts[k] + 1]) == Sum(keys, counts) + if k in keys then 1 else 0
  {
    if keys != [] {
      var n := |keys| - 1;
      assert keys == keys[..n] + [keys[n]];
      SumOneMore(keys[..n], counts, k);
    }
  }

  lemma {:induction false} SumFresh(keys: seq<Key>, all: seq<Key>)
    ensures Sum(keys, Fresh(all)) == 0
  {
    if keys != [] {
      SumFresh(keys[..|keys| - 1], all);
    }
  }

  lemma SumOfPick(keys: seq<Key>, before: seq<Key>, k: Key)
    requires SortedKeyList(keys) && k in keys
    ensures Sum(keys, After(keys, before + [k])) == Sum(keys, After(keys, before)) + 1
  {
    AfterOneMore(keys, before, k);
    SumOneMore(keys, After(keys, before), k);
  }

  lemma {:induction false} TotalOfKeys(keys: seq<Key>, picks: seq<Key>)
    requires SortedKeyList(keys) && forall k | k in picks :: k in keys
    ensures Sum(keys, After(keys, picks)) == |picks|
  {
    if picks == [] {
      SumFresh(keys, keys);
    } else {
      var n := |picks| - 1;
      var before, k := picks[..n], picks[n];
      assert k in picks && picks == before + [k];
      TotalOfKeys(keys, before);
      SumOfPick(keys, before, k);
    }
  }

  /** The counts of all keys add up to the number of picks. */
  lemma TotalOfPicks(keys: seq<Key>, floor: nat, picks: seq<Key>)
    requires SortedKeyList(keys) && CanPick(keys, floor, picks)
    ensures Sum(keys, After(keys, picks)) == |picks|
  {
    PicksAreKeys(keys, floor, picks);
    TotalOfKeys(keys, picks);
  }

  lemma {:induction false} SumAtMost(keys: seq<Key>, counts: Counts, level: nat)
    requires forall k | k in keys :: k in counts && counts[k] <= level
    ensures Sum(keys, counts) <= level * |keys|
    ensures (exists k :: k in keys && counts[k] < level) ==> Sum(keys, counts) < level * |keys|
  {
    if keys != [] {
      var n := |keys| - 1;
      assert keys == keys[..n] + [keys[n]];
      SumAtMost(keys[..n], counts, level);
      assert level * |keys| == level * n + level;
    }
  }

  lemma {:induction false} SumAtLeast(keys: seq<Key>, counts: Counts, level: nat)
    requires forall k | k in keys :: k in counts && counts[k] >= level
    ensures Sum(keys, counts) >= level * |keys|
    ensures (exists k :: k in keys && counts[k] > level) ==> Sum(keys, counts) > level * |keys|
  {
    if keys != [] {
      var n := |keys| - 1;
      assert keys == keys[..n] + [keys[n]];
      SumAtLeast(keys[..n], counts, level);
      assert level * |keys| == level * n + level;
    }
  }

  // ---- The floor ----

  /** No key is above the floor while another one is below it. */
  ghost predicate Level(keys: seq<Key>, counts: Counts, floor: nat) {
    || (forall k | k in keys && k in counts :: counts[k] <= floor)
    || (forall k | k in keys && k in counts :: counts[k] >= floor)
  }

  /** The zero key cannot spoil the floor. */
  ghost predicate FloorIsFair(keys: seq<Key>, floor: nat) {
    ZERO !in keys || floor <= 1 || |keys| == 1
  }

  /** While a key is below the floor, only such a key is chosen. */
  lemma ChoosesUnder(keys: seq<Key>, counts: Counts, floor: nat, k: Key)
    requires SortedKeyList(keys) && CountsFor(keys, counts) && FloorIsFair(keys, floor)
    requires SomeUnder(keys, counts, floor) && CanChoose(keys, counts, floor, k)
    ensures Under(keys, counts, floor, k)
  {
    if !(Under(keys, counts, floor, k) && k != ZERO) {
      assert Under(keys, counts, floor, ZERO) && CanWin(keys, counts, k);
      if floor <= 1 {
        assert Untried(keys, counts);
      } else {
        var i :| 0 <= i < |keys| && keys[i] == k;
        assert |keys| == 1 && keys[0] == ZERO;
      }
    }
  }

  lemma {:induction false} FairPicksAreLevel(keys: seq<Key>, floor: nat, picks: seq<Key>)
    requires SortedKeyList(keys) && FloorIsFair(keys, floor) && CanPick(keys, floor, picks)
    ensures Level(keys, After(keys, picks), floor)
  {
    if picks != [] {
      var n := |picks| - 1;
      var counts := After(keys, picks[..n]);
      FairPicksAreLevel(keys, floor, picks[..n]);
      if SomeUnder(keys, counts, floor) {
        ChoosesUnder(keys, counts, floor, picks[n]);
        var k :| Under(keys, counts, floor, k);
      } else {
        forall k | k in keys && k in counts ensures counts[k] >= floor {
          assert !Under(keys, counts, floor, k);
        }
      }
    }
  }

  /** After floor * |keys| picks, each key has been picked floor times. */
  lemma FloorIsReached(keys: seq<Key>, floor: nat, picks: seq<Key>)
    requires SortedKeyList(keys) && FloorIsFair(keys, floor) && CanPick(keys, floor, picks)
    requires |picks| == floor * |keys|
    ensures forall k | k in keys :: k in After(keys, picks) && After(keys, picks)[k] == floor
  {
    FairPicksAreLevel(keys, floor, picks);
    TotalOfPicks(keys, floor, picks);
    var counts := After(keys, picks);
    if forall k | k in keys && k in counts :: counts[k] <= floor {
      SumAtMost(keys, counts, floor);
    } else {
      SumAtLeast(keys, counts, floor);
    }
  }

  // ---- The zero key ----

  lemma ZeroIsFirst(keys: seq<Key>)
    requires SortedKeyList(keys) && ZERO in keys
    ensures keys[0] == ZERO
  {
    var i :| 0 <= i < |keys| && keys[i] == ZERO;
    KeyLeqTotal(keys[0], ZERO);
    assert KeyLeq(ZERO, keys[0]);
  }

  predicate OnceUpTo(keys: seq<Key>, counts: Counts, n: nat) {
    && (forall i | 0 <= i < |keys| :: keys[i] in counts && counts[keys[i]] == if i < n then 1 else 0)
  }

  lemma OneMorePick(keys: seq<Key>, floor: nat, picks: seq<Key>, k: Key)
    requires CanPick(keys, floor, picks) && k in keys && CanChoose(keys, After(keys, picks), floor, k)
    ensures CanPick(keys, floor, picks + [k])
    ensures After(keys, picks + [k]) == After(keys, picks)[k := After(keys, picks)[k] + 1]
  {
    assert (picks + [k])[..|picks|] == picks;
  }

  lemma NextInRound(keys: seq<Key>, counts: Counts, floor: nat, n: nat)
    requires SortedKeyList(keys) && CountsFor(keys, counts) && floor > 0 && n < |keys| && ZERO in keys
      && OnceUpTo(keys, counts, n)
    ensures CanChoose(keys, counts, floor, keys[n])
  {
    assert Under(keys, counts, floor, keys[n]);
    if keys[n] == ZERO {
      ZeroIsFirst(keys);
      assert n == 0;
      assert FirstUntried(keys, counts, 0);
    }
  }

  lemma OneMoreInRound(keys: seq<Key>, floor: nat, before: seq<Key>, n: nat)
    requires SortedKeyList(keys) && floor > 0 && n < |keys| && ZERO in keys
    requires CanPick(keys, floor, before) && OnceUpTo(keys, After(keys, before), n)
    ensures CanPick(keys, floor, before + [keys[n]]) && OnceUpTo(keys, After(keys, before + [keys[n]]), n + 1)
  {
    NextInRound(keys, After(keys, before), floor, n);
    OneMorePick(keys, floor, before, keys[n]);
    OnceMore(keys, After(keys, before), n);
  }

  /** The first keys, each once, are picks that can be made if the floor is positive. */
  lemma {:induction false} OneRound(keys: seq<Key>, floor: nat, n: nat) returns (picks: seq<Key>)
    requires SortedKeyList(keys) && floor > 0 && n <= |keys| && ZERO in keys
    ensures CanPick(keys, floor, picks) && OnceUpTo(keys, After(keys, picks), n)
  {
    if n == 0 {
      picks := [];
    } else {
      var before := OneRound(keys, floor, n - 1);
      OneMoreInRound(keys, floor, before, n - 1);
      picks := before + [keys[n - 1]];
    }
  }

  predicate AllOnceBut(keys: seq<Key>, counts: Counts, k: Key, n: nat) {
    forall q | q in keys :: q in counts && counts[q] == if q == k then n else 1
  }

  lemma ScoresDecide(keys: seq<Key>, counts: Counts, floor: nat, k: Key, n: nat)
    requires CountsFor(keys, counts) && AllOnceBut(keys, counts, k, n) && n > 0
    requires floor > 1 && ZERO in keys && k in keys && k != ZERO
    ensures CanChoose(keys, counts, floor, k)
  {
    assert Under(keys, counts, floor, ZERO);
  }

  lemma OneMoreOf(keys: seq<Key>, floor: nat, before: seq<Key>, k: Key, n: nat)
    requires CanPick(keys, floor, before) && AllOnceBut(keys, After(keys, before), k, n) && n > 0
    requires floor > 1 && ZERO in keys && k in keys && k != ZERO
    ensures CanPick(keys, floor, before + [k]) && AllOnceBut(keys, After(keys, before + [k]), k, n + 1)
  {
    ScoresDecide(keys, After(keys, before), floor, k, n);
    OneMorePick(keys, floor, before, k);
  }

  /** Once every key has been tried, a draw of the zero key lets the scores decide. */
  lemma {:induction false} ManyMore(keys: seq<Key>, floor: nat, k: Key, n: nat) returns (picks: seq<Key>)
    requires SortedKeyList(keys) && floor > 1 && ZERO in keys && k in keys && k != ZERO
    ensures CanPick(keys, floor, picks) && AllOnceBut(keys, After(keys, picks), k, n + 1)
  {
    if n == 0 {
      picks := OneRound(keys, floor, |keys|);
    } else {
      var before := ManyMore(keys, floor, k, n - 1);
      OneMoreOf(keys, floor, before, k, n);
      picks := before + [k];
    }
  }

  /** The floor is kept in every sequence of picks if and only if the zero key cannot spoil it. */
  lemma FloorTheorem(keys: seq<Key>, floor: nat)
    requires SortedKeyList(keys) && keys != []
    ensures FloorIsFair(keys, floor) <==>
      forall picks | CanPick(keys, floor, picks) :: Level(keys, After(keys, picks), floor)
  {
    if FloorIsFair(keys, floor) {
      forall picks | CanPick(keys, floor, picks) ensures Level(keys, After(keys, picks), floor) {
        FairPicksAreLevel(keys, floor, picks);
      }
    } else {
      ZeroIsFirst(keys);
      var k := keys[1];
      assert k in keys && k != ZERO;
      var picks := ManyMore(keys, floor, k, floor);
      assert After(keys, picks)[k] > floor && After(keys, picks)[ZERO] < floor;
      assert !Level(keys, After(keys, picks), floor);
    }
  }

  /** Two endpoints, one of them with an empty method and path. */
  const WITH_ZERO := [ZERO, Key("GET", "/")]

  lemma FloorCanBeMissed()
    ensures exists picks :: CanPick(WITH_ZERO, 2, picks) && !Level(WITH_ZERO, After(WITH_ZERO, picks), 2)
  {
    assert WITH_ZERO[0] == ZERO && WITH_ZERO[1] == Key("GET", "/");
    assert SortedKeyList(WITH_ZERO) && ZERO in WITH_ZERO;
    FloorTheorem(WITH_ZERO, 2);
  }

  // ---- Without a floor ----

  lemma FirstUntriedIs(keys: seq<Key>, counts: Counts, n: nat, k: Key)
    requires CountsFor(keys, counts) && n < |keys| && OnceUpTo(keys, counts, n) && CanChoose(keys, counts, 0, k)
    ensures k == keys[n]
  {
    assert keys[n] in keys && counts[keys[n]] == 0;
    assert Untried(keys, counts);
    var i: nat :| FirstUntried(keys, counts, i) && keys[i] == k;
  }

  lemma OnceMore(keys: seq<Key>, counts: Counts, n: nat)
    requires SortedKeyList(keys) && n < |keys| && OnceUpTo(keys, counts, n)
    ensures OnceUpTo(keys, counts[keys[n] := counts[keys[n]] + 1], n + 1)
  {
  }

  lemma NextInOrder(keys: seq<Key>, before: seq<Key>, k: Key)
    requires SortedKeyList(keys) && |before| < |keys| && before == keys[..|before|]
    requires OnceUpTo(keys, After(keys, before), |before|) && CanChoose(keys, After(keys, before), 0, k)
    ensures before + [k] == keys[..|before| + 1] && OnceUpTo(keys, After(keys, before + [k]), |before| + 1)
  {
    var counts, n := After(keys, before), |before|;
    FirstUntriedIs(keys, counts, n, k);
    OnceMore(keys, counts, n);
    AfterOneMore(keys, before, k);
  }

  /** Without a floor the first picks try every key once, in order. */
  lemma {:induction false} FirstPicksInOrder(keys: seq<Key>, picks: seq<Key>)
    requires SortedKeyList(keys) && CanPick(keys, 0, picks) && |picks| <= |keys|
    ensures picks == keys[..|picks|] && OnceUpTo(keys, After(keys, picks), |picks|)
  {
    if picks != [] {
      var n := |picks| - 1;
      assert picks == picks[..n] + [picks[n]];
      FirstPicksInOrder(keys, picks[..n]);
      NextInOrder(keys, picks[..n], picks[n]);
    }
  }
}
