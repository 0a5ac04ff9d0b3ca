/**
  The field minimizer of internal/triage/triage.go: removeKeys and deltaDebugKeys.

  Replaying a candidate is an oracle.  It may answer differently every time it is
  asked, so its answers are indexed by the number of replays so far; a cancelled
  context is one more such source of answers.
 */
module JsonMinimizer {
  import opened JsonTree
  import opened Options
  import opened SortedStrings

  const MAX_NESTED_DEPTH := 5

  /** verify(t, f): the answer for candidate f if t replays came before; done(t): the context is cancelled by then. */
  datatype Replays = Replays(verify: (nat, Fields) -> bool, done: nat -> bool)

  // ---- One level ----

  function WithoutKeys(obj: Fields, remove: seq<string>): Fields {
    map k | k in obj && k !in remove :: obj[k]
  }

  function OnlyKeys(obj: Fields, keep: seq<string>): Fields {
    map k | k in obj && k in keep :: obj[k]
  }

  /** Binary-search removal of the given keys; returns the object and the number of replays so far. */
  function RemoveKeys(env: Replays, obj: Fields, keys: seq<string>, t: nat): (Fields, nat)
    decreases |keys|
  {
    if |keys| == 0 then (obj, t)
    else if |keys| == 1 then
      var candidate := WithoutKeys(obj, keys);
      (if env.verify(t, candidate) then candidate else obj, t + 1)
    else
      var mid := |keys| / 2;
      var left, right := keys[..mid], keys[mid..];
      if env.verify(t, OnlyKeys(obj, right)) then RemoveKeys(env, OnlyKeys(obj, right), right, t + 1)
      else if env.verify(t + 1, OnlyKeys(obj, left)) then RemoveKeys(env, OnlyKeys(obj, left), left, t + 2)
      else if env.done(t + 2) then (obj, t + 2)
      else
        var (reduced, t') := RemoveKeys(env, obj, left, t + 2);
        RemoveKeys(env, reduced, right, t')
  }

  /** f has passed a replay with number at least t and below t'. */
  ghost predicate Passed(env: Replays, f: Fields, t: nat, t': nat) {
    exists i :: t <= i < t' && env.verify(i, f)
  }

  /** The result of removing keys from obj, as the next lemma states it. */
  ghost predicate Sound(env: Replays, obj: Fields, r: Fields, t: nat, t': nat, replays: int) {
    Restricts(r, obj) && (r == obj || Passed(env, r, t, t')) && t <= t' <= t + replays
  }

  lemma {:induction false} KeptHalfSound(env: Replays, obj: Fields, half: Fields, keys: seq<string>, asked: nat, t: nat)
    requires Restricts(half, obj) && asked < t && env.verify(asked, half) && |keys| > 0
    ensures var (r, t') := RemoveKeys(env, half, keys, t); Sound(env, obj, r, asked, t', t - asked + 3 * |keys| - 2)
    decreases |keys|, 2
  {
    RemoveKeysSound(env, half, keys, t);
  }

  lemma {:induction false} BothHalvesSound(env: Replays, obj: Fields, left: seq<string>, right: seq<string>, t: nat)
    requires |left| > 0 && |right| > 0
    ensures var (reduced, t1) := RemoveKeys(env, obj, left, t); var (r, t2) := RemoveKeys(env, reduced, right, t1);
      Sound(env, obj, r, t, t2, 3 * |left| + 3 * |right| - 4)
    decreases |left| + |right|, 0
  {
    var (reduced, t1) := RemoveKeys(env, obj, left, t);
    RemoveKeysSound(env, obj, left, t);
    RemoveKeysSound(env, reduced, right, t1);
  }

  /**
    Whatever the oracle answers: only keys are removed, the result is the input or has
    passed a replay, and replays are few.
   */
  lemma {:induction false} RemoveKeysSound(env: Replays, obj: Fields, keys: seq<string>, t: nat)
    ensures var (r, t') := RemoveKeys(env, obj, keys, t);
      Sound(env, obj, r, t, t', if |keys| == 0 then 0 else 3 * |keys| - 2)
    decreases |keys|, 1
  {
    if |keys| == 1 {
      assert env.verify(t, WithoutKeys(obj, keys)) ==> Passed(env, WithoutKeys(obj, keys), t, t + 1);
    } else if |keys| > 1 {
      var mid := |keys| / 2;
      var left, right := keys[..mid], keys[mid..];
      if env.verify(t, OnlyKeys(obj, right)) {
        KeptHalfSound(env, obj, OnlyKeys(obj, right), right, t, t + 1);
      } else if env.verify(t + 1, OnlyKeys(obj, left)) {
        KeptHalfSound(env, obj, OnlyKeys(obj, left), left, t + 1, t + 2);
      } else if !env.done(t + 2) {
        BothHalvesSound(env, obj, left, right, t + 2);
      }
    }
  }

  // ---- Steady, upward-closed oracles ----

  /** The answers do not depend on the time, and the context is not cancelled. */
  ghost predicate Steady(env: Replays) {
    && (forall i, f :: env.verify(i, f) == env.verify(0, f))
    && (forall i :: !env.done(i))
  }

  /** Whatever triggers with fewer keys triggers with more. */
  ghost predicate UpwardClosed(env: Replays) {
    forall f, g :: SubFields(f, g) && env.verify(0, f) ==> env.verify(0, g)
  }

  ghost predicate Monotone(env: Replays) {
    Steady(env) && UpwardClosed(env)
  }

  lemma Upward(env: Replays, f: Fields, g: Fields)
    requires Monotone(env) && Restricts(f, g) && env.verify(0, f)
    ensures env.verify(0, g)
  {
    RestrictsIsSub(f, g);
  }

  /** For such an oracle no remaining key of the range can be spared. */
  lemma {:induction false} RemoveKeysMinimal(env: Replays, obj: Fields, keys: seq<string>, t: nat)
    requires Monotone(env) && env.verify(0, obj)
    ensures var r := RemoveKeys(env, obj, keys, t).0;
      env.verify(0, r) && forall k | k in keys && k in r :: !env.verify(0, r - {k})
    decreases |keys|
  {
    if |keys| == 1 {
      var k := keys[0];
      assert WithoutKeys(obj, keys) == obj - {k};
      assert env.verify(t, obj - {k}) == env.verify(0, obj - {k});
    } else if |keys| > 1 {
      var mid := |keys| / 2;
      var left, right := keys[..mid], keys[mid..];
      assert keys == left + right;
      assert env.verify(t, OnlyKeys(obj, right)) == env.verify(0, OnlyKeys(obj, right));
      assert env.verify(t + 1, OnlyKeys(obj, left)) == env.verify(0, OnlyKeys(obj, left));
      if env.verify(t, OnlyKeys(obj, right)) {
        RemoveKeysMinimal(env, OnlyKeys(obj, right), right, t + 1);
        RemoveKeysSound(env, OnlyKeys(obj, right), right, t + 1);
      } else if env.verify(t + 1, OnlyKeys(obj, left)) {
        RemoveKeysMinimal(env, OnlyKeys(obj, left), left, t + 2);
        RemoveKeysSound(env, OnlyKeys(obj, left), left, t + 2);
      } else {
        var (reduced, t') := RemoveKeys(env, obj, left, t + 2);
        RemoveKeysMinimal(env, obj, left, t + 2);
        RemoveKeysMinimal(env, reduced, right, t');
        RemoveKeysSound(env, reduced, right, t');
        var r := RemoveKeys(env, reduced, right, t').0;
        forall k | k in left && k in r ensures !env.verify(0, r - {k}) {
          if env.verify(0, r - {k}) { Upward(env, r - {k}, reduced - {k}); }
        }
      }
    }
  }

  // ---- The search ----

  /** If the second half triggers alone, nothing of the first half stays. */
  lemma SecondHalfFirst(env: Replays, obj: Fields, keys: seq<string>, t: nat)
    requires |keys| > 1 && env.verify(t, OnlyKeys(obj, keys[|keys| / 2..]))
    ensures forall k | k in RemoveKeys(env, obj, keys, t).0 :: k in keys[|keys| / 2..]
  {
    var right := keys[|keys| / 2..];
    RemoveKeysSound(env, OnlyKeys(obj, right), right, t + 1);
  }

  /** After a cancellation nothing is removed, and the search asks twice at most. */
  lemma CancelledRemovesNothing(env: Replays, obj: Fields, keys: seq<string>, t: nat)
    requires forall i, f | i >= t :: !env.verify(i, f) && env.done(i)
    ensures RemoveKeys(env, obj, keys, t).0 == obj && RemoveKeys(env, obj, keys, t).1 <= t + 2
  {
  }

  /** How often n can be halved. */
  function Halvings(n: nat): nat {
    if n <= 1 then 0 else 1 + Halvings(n - n / 2)
  }

  lemma {:induction false} HalvingsMonotone(m: nat, n: nat)
    requires m <= n
    ensures Halvings(m) <= Halvings(n)
    decreases n
  {
    if m > 1 {
      HalvingsMonotone(m - m / 2, n - n / 2);
    }
  }

  lemma OneHalving(m: nat, n: nat)
    requires n > 1 && m <= n - n / 2
    ensures Halvings(m) + 1 <= Halvings(n)
  {
    HalvingsMonotone(m, n - n / 2);
  }

  /** The anomaly needs one key and nothing else. */
  ghost predicate NeedsOnly(env: Replays, k: string) {
    forall i, f :: env.verify(i, f) <==> k in f
  }

  /** The search goes on in a half that holds the key, after at most two replays. */
  lemma HalfWithKey(env: Replays, obj: Fields, keys: seq<string>, k: string, t: nat)
    returns (half: seq<string>, t': nat)
    requires NeedsOnly(env, k) && k in obj && k in keys && |keys| > 1
    ensures k in half && |half| <= |keys| - |keys| / 2 && t' <= t + 2
    ensures RemoveKeys(env, obj, keys, t).1 == RemoveKeys(env, OnlyKeys(obj, half), half, t').1
  {
    var left, right := keys[..|keys| / 2], keys[|keys| / 2..];
    assert keys == left + right;
    assert env.verify(t, OnlyKeys(obj, right)) <==> k in right;
    assert env.verify(t + 1, OnlyKeys(obj, left)) <==> k in left;
    half, t' := if k in right then right else left, if k in right then t + 1 else t + 2;
  }

  lemma OneReplay(env: Replays, obj: Fields, keys: seq<string>, t: nat)
    requires |keys| == 1
    ensures RemoveKeys(env, obj, keys, t).1 == t + 1
  {
  }

  /** One key is found by binary search. */
  lemma {:induction false} OneKeyIsFoundFast(env: Replays, obj: Fields, keys: seq<string>, k: string, t: nat)
    requires NeedsOnly(env, k) && k in keys && k in obj
    ensures RemoveKeys(env, obj, keys, t).1 <= t + 2 * Halvings(|keys|) + 1
    decreases |keys|
  {
    if |keys| == 1 {
      OneReplay(env, obj, keys, t);
    } else {
      var half, t' := HalfWithKey(env, obj, keys, k, t);
      OneKeyIsFoundFast(env, OnlyKeys(obj, half), half, k, t');
      OneHalving(|half|, |keys|);
    }
  }

  // ---- All levels ----

  /** How many levels of keys are minimized from an object at this depth on. */
  function Levels(depth: nat): nat {
    if depth < MAX_NESTED_DEPTH then MAX_NESTED_DEPTH - depth + 1 else 1
  }

  /** No key within the given number of levels can be deleted. */
  ghost predicate OneMinimal(env: Replays, f: Fields, levels: nat) {
    forall path :: |path| <= levels && IsKeyPath(f, path) ==> !env.verify(0, Delete(f, path))
  }

  /** The same, for the paths that start with one of the keys, or have length one. */
  ghost predicate MinimalBelow(env: Replays, f: Fields, levels: nat, keys: set<string>) {
    forall path :: |path| <= levels && IsKeyPath(f, path) && (|path| == 1 || path[0] in keys)
      ==> !env.verify(0, Delete(f, path))
  }

  /** f comes from g by removing keys of the top levels only; what is deeper goes with a key above it or stays. */
  ghost predicate CutAbove(f: Fields, g: Fields, levels: nat)
    decreases levels
  {
    && f.Keys <= g.Keys
    && (levels == 0 ==> f == g)
    && forall k | k in f ::
      (f[k] == g[k] ||
        (levels > 0 && f[k].Obj? && g[k].Obj? && CutAbove(f[k].fields, g[k].fields, levels - 1)))
  }

  lemma CutBelow(f: Fields, top: Fields, obj: Fields, levels: nat)
    requires CutAbove(f, top, levels) && Restricts(top, obj) && levels > 0
    ensures CutAbove(f, obj, levels)
  {
  }

  /** The oracle for the object at key k of f. */
  function Nested(env: Replays, f: Fields, k: string): Replays {
    Replays((i: nat, c: Fields) => env.verify(i, f[k := Obj(c)]), env.done)
  }

  lemma NestedMonotone(env: Replays, f: Fields, k: string)
    requires Monotone(env)
    ensures Monotone(Nested(env, f, k))
  {
    var nested := Nested(env, f, k);
    forall a, b | SubFields(a, b) && nested.verify(0, a) ensures nested.verify(0, b) {
      SubUpdate(f, k, Obj(a), Obj(b));
    }
  }

  lemma PassedNested(env: Replays, f: Fields, k: string, c: Fields, t: nat, t1: nat, t2: nat)
    requires t <= t1 && Passed(Nested(env, f, k), c, t1, t2)
    ensures Passed(env, f[k := Obj(c)], t, t2)
  {
    var i :| t1 <= i < t2 && Nested(env, f, k).verify(i, c);
    assert env.verify(i, f[k := Obj(c)]);
  }

  lemma TopMinimal(env: Replays, obj: Fields, keys: seq<string>, t: nat, levels: nat)
    requires Monotone(env) && env.verify(0, obj) && forall k :: k in keys <==> k in obj
    ensures MinimalBelow(env, RemoveKeys(env, obj, keys, t).0, levels, {})
  {
    var r := RemoveKeys(env, obj, keys, t).0;
    RemoveKeysMinimal(env, obj, keys, t);
    RemoveKeysSound(env, obj, keys, t);
    forall path | IsKeyPath(r, path) && |path| == 1 ensures !env.verify(0, Delete(r, path)) {
      assert path[0] in keys;
    }
  }

  /** A key without anything below it adds no longer paths. */
  lemma SkipKey(env: Replays, f: Fields, levels: nat, keys: set<string>, k: string)
    requires MinimalBelow(env, f, levels, keys) && k in f && (f[k].Obj? ==> |f[k].fields| == 0)
    ensures MinimalBelow(env, f, levels, keys + {k})
  {
    forall path | |path| <= levels && IsKeyPath(f, path) && (|path| == 1 || path[0] in keys + {k})
      ensures !env.verify(0, Delete(f, path))
    {
      assert f[k].Obj? ==> f[k].fields == map[];
      assert path[0] == k && |path| > 1 ==> IsKeyPath(f[k].fields, path[1..]);
    }
  }

  lemma SubAtKey(f: Fields, k: string, c: Fields)
    requires k in f && f[k].Obj? && SubFields(c, f[k].fields)
    ensures SubFields(f[k := Obj(c)], f)
  {
    SubUpdate(f, k, Obj(c), f[k]);
    assert f[k := f[k]] == f;
  }

  /** Minimizing the object at k keeps what was achieved for the other keys. */
  lemma MinimizedKey(env: Replays, f: Fields, levels: nat, keys: set<string>, k: string, c: Fields)
    requires Monotone(env) && MinimalBelow(env, f, levels, keys)
    requires k in f && f[k].Obj? && SubFields(c, f[k].fields) && levels > 0
    requires OneMinimal(Nested(env, f, k), c, levels - 1)
    ensures MinimalBelow(env, f[k := Obj(c)], levels, keys + {k})
  {
    var g := f[k := Obj(c)];
    SubAtKey(f, k, c);
    forall path | |path| <= levels && IsKeyPath(g, path) && (|path| == 1 || path[0] in keys + {k})
      ensures !env.verify(0, Delete(g, path))
    {
      if |path| > 1 && path[0] == k {
        assert Delete(g, path) == f[k := Obj(Delete(c, path[1..]))];
        assert !Nested(env, f, k).verify(0, Delete(c, path[1..]));
      } else {
        DeleteMonotone(g, f, path);
      }
    }
  }

  lemma OneLevelMinimal(env: Replays, f: Fields)
    requires MinimalBelow(env, f, 1, {})
    ensures OneMinimal(env, f, 1)
  {
  }

  /** What the loop over the nested objects keeps: i of the keys are done, by time t'. */
  ghost predicate Minimizing(env: Replays, obj: Fields, top: Fields, reduced: Fields, ks: seq<string>, i: nat,
                             levels: nat, t: nat, t': nat)
    requires i <= |ks| && forall k :: k in ks <==> k in top
  {
    && reduced.Keys == top.Keys && SubFields(reduced, top)
    && SameFrom(top, reduced, ks, i)
    && (reduced == obj || Passed(env, reduced, t, t'))
    && t <= t' <= t + 3 * |obj| + 3 * KeysBelow(Obj(top), Done(ks, i))
    && (Monotone(env) && env.verify(0, obj) ==>
          env.verify(0, reduced) && MinimalBelow(env, reduced, levels, Done(ks, i)))
  }

  /** The keys from position i on still have their first values. */
  ghost predicate SameFrom(top: Fields, reduced: Fields, ks: seq<string>, i: nat) {
    forall j :: i <= j < |ks| ==> ks[j] in top && ks[j] in reduced && reduced[ks[j]] == top[ks[j]]
  }

  lemma NextSame(top: Fields, reduced: Fields, ks: seq<string>, i: nat, x: Json)
    requires i < |ks| && Increasing(ks) && SameFrom(top, reduced, ks, i)
    ensures SameFrom(top, reduced[ks[i] := x], ks, i + 1)
    ensures reduced[ks[i]] == top[ks[i]]
  {
  }

  lemma NextCut(top: Fields, reduced: Fields, ks: seq<string>, i: nat, levels: nat, c: Fields)
    requires i < |ks| && Increasing(ks) && SameFrom(top, reduced, ks, i) && CutAbove(reduced, top, levels)
    requires levels > 0 && reduced[ks[i]].Obj? && CutAbove(c, reduced[ks[i]].fields, levels - 1)
    ensures CutAbove(reduced[ks[i] := Obj(c)], top, levels)
  {
    NextSame(top, reduced, ks, i, Obj(c));
  }

  ghost function Done(ks: seq<string>, i: nat): set<string>
    requires i <= |ks|
  {
    set j | 0 <= j < i :: ks[j]
  }

  lemma DoneStep(ks: seq<string>, i: nat)
    requires i < |ks| && Increasing(ks)
    ensures Done(ks, i + 1) == Done(ks, i) + {ks[i]} && ks[i] !in Done(ks, i)
  {
  }

  lemma StartMinimizing(env: Replays, obj: Fields, keys: seq<string>, ks: seq<string>, levels: nat, t: nat)
    requires forall k :: k in keys <==> k in obj
    requires |keys| == |obj|
    ensures var (top, t') := RemoveKeys(env, obj, keys, t);
      (forall k :: k in ks <==> k in top) ==> Minimizing(env, obj, top, top, ks, 0, levels, t, t')
  {
    RemoveKeysSound(env, obj, keys, t);
    var top := RemoveKeys(env, obj, keys, t).0;
    SubReflexive(Obj(top));
    assert Done(ks, 0) == {};
    if Monotone(env) && env.verify(0, obj) {
      RemoveKeysMinimal(env, obj, keys, t);
      TopMinimal(env, obj, keys, t, levels);
    }
  }

  lemma KeysBelowTop(top: Fields, obj: Fields, keys: set<string>)
    requires Restricts(top, obj) && keys <= top.Keys
    ensures |obj| + KeysBelow(Obj(top), keys) <= CountKeysDeep(obj)
  {
    KeysBelowMonotone(Obj(top), Obj(obj), keys, obj.Keys);
  }

  lemma EndMinimizing(env: Replays, obj: Fields, top: Fields, reduced: Fields, ks: seq<string>, levels: nat, t: nat,
                      t': nat)
    requires (forall k :: k in ks <==> k in top) && Restricts(top, obj)
    requires Minimizing(env, obj, top, reduced, ks, |ks|, levels, t, t')
    ensures SubFields(reduced, obj) && (reduced == obj || Passed(env, reduced, t, t'))
    ensures t <= t' <= t + 3 * CountKeysDeep(obj)
    ensures Monotone(env) && env.verify(0, obj) ==> env.verify(0, reduced) && OneMinimal(env, reduced, levels)
  {
    RestrictsIsSub(top, obj);
    SubFieldsTransitive(reduced, top, obj);
    KeysBelowTop(top, obj, Done(ks, |ks|));
    assert Done(ks, |ks|) == reduced.Keys;
  }

  lemma EndOneLevel(env: Replays, obj: Fields, keys: seq<string>, t: nat)
    requires (forall k :: k in keys <==> k in obj) && |keys| == |obj|
    ensures var (top, t') := RemoveKeys(env, obj, keys, t);
      && SubFields(top, obj) && (top == obj || Passed(env, top, t, t')) && t <= t' <= t + 3 * CountKeysDeep(obj)
      && (Monotone(env) && env.verify(0, obj) ==> env.verify(0, top) && OneMinimal(env, top, 1))
  {
    var (top, t') := RemoveKeys(env, obj, keys, t);
    RemoveKeysSound(env, obj, keys, t);
    RestrictsIsSub(top, obj);
    KeysBelowTop(top, obj, {});
    if Monotone(env) && env.verify(0, obj) {
      RemoveKeysMinimal(env, obj, keys, t);
      TopMinimal(env, obj, keys, t, 1);
      OneLevelMinimal(env, top);
    }
  }

  lemma KeyCount(keys: seq<string>, all: set<string>)
    requires Increasing(keys) && forall k :: k in keys <==> k in all
    ensures |keys| == |all|
    decreases |keys|
  {
    if keys != [] {
      var n := |keys| - 1;
      forall k ensures k in keys[..n] <==> k in all - {keys[n]} {
        if k in keys[..n] { var i :| 0 <= i < n && keys[i] == k; }
        if k in all && k != keys[n] { var i :| 0 <= i < |keys| && keys[i] == k; assert keys[..n][i] == k; }
      }
      KeyCount(keys[..n], all - {keys[n]});
      assert keys[n] in all;
    } else {
      assert all == {};
    }
  }

  lemma NextSkipped(env: Replays, obj: Fields, top: Fields, reduced: Fields, ks: seq<string>, i: nat, levels: nat,
                    t: nat, t': nat)
    requires i < |ks| && Increasing(ks) && forall k :: k in ks <==> k in top
    requires Minimizing(env, obj, top, reduced, ks, i, levels, t, t')
    requires reduced[ks[i]].Obj? ==> |reduced[ks[i]].fields| == 0
    ensures Minimizing(env, obj, top, reduced, ks, i + 1, levels, t, t')
  {
    DoneStep(ks, i);
    KeysBelowPick(Obj(top), Done(ks, i + 1), ks[i]);
    assert Done(ks, i + 1) - {ks[i]} == Done(ks, i);
    if Monotone(env) && env.verify(0, obj) {
      SkipKey(env, reduced, levels, Done(ks, i), ks[i]);
    }
  }

  lemma NextPassed(env: Replays, obj: Fields, reduced: Fields, k: string, t: nat, t': nat, c: Fields, t'': nat)
    requires k in reduced && reduced[k].Obj? && t <= t' <= t''
    requires reduced == obj || Passed(env, reduced, t, t')
    requires c == reduced[k].fields || Passed(Nested(env, reduced, k), c, t', t'')
    ensures reduced[k := Obj(c)] == obj || Passed(env, reduced[k := Obj(c)], t, t'')
  {
    if Passed(Nested(env, reduced, k), c, t', t'') {
      PassedNested(env, reduced, k, c, t, t', t'');
    } else {
      assert reduced[k := Obj(c)] == reduced;
    }
  }

  lemma NextMinimal(env: Replays, f: Fields, levels: nat, keys: set<string>, k: string, c: Fields)
    requires Monotone(env) && env.verify(0, f) && MinimalBelow(env, f, levels, keys)
    requires k in f && f[k].Obj? && SubFields(c, f[k].fields) && levels > 0
    requires var nested := Nested(env, f, k);
      Monotone(nested) && nested.verify(0, f[k].fields) ==> nested.verify(0, c) && OneMinimal(nested, c, levels - 1)
    ensures env.verify(0, f[k := Obj(c)]) && MinimalBelow(env, f[k := Obj(c)], levels, keys + {k})
  {
    NestedMonotone(env, f, k);
    assert f[k := f[k]] == f;
    MinimizedKey(env, f, levels, keys, k, c);
  }

  lemma NextSub(top: Fields, reduced: Fields, k: string, c: Fields)
    requires SubFields(reduced, top) && k in reduced && reduced[k].Obj? && SubFields(c, reduced[k].fields)
    ensures SubFields(reduced[k := Obj(c)], top)
  {
    SubAtKey(reduced, k, c);
    SubFieldsTransitive(reduced[k := Obj(c)], reduced, top);
  }

  lemma NextMinimized(env: Replays, obj: Fields, top: Fields, reduced: Fields, ks: seq<string>, i: nat, levels: nat,
                      t: nat, t': nat, c: Fields, t'': nat)
    requires i < |ks| && Increasing(ks) && levels > 0 && forall k :: k in ks <==> k in top
    requires Minimizing(env, obj, top, reduced, ks, i, levels, t, t') && reduced[ks[i]].Obj?
    requires var k := ks[i];
      var nested := reduced[k].fields;
      && SubFields(c, nested)
      && (c == nested || Passed(Nested(env, reduced, k), c, t', t''))
      && t' <= t'' <= t' + 3 * CountKeysDeep(nested)
      && (Monotone(Nested(env, reduced, k)) && Nested(env, reduced, k).verify(0, nested) ==>
            Nested(env, reduced, k).verify(0, c) && OneMinimal(Nested(env, reduced, k), c, levels - 1))
    ensures Minimizing(env, obj, top, reduced[ks[i] := Obj(c)], ks, i + 1, levels, t, t'')
  {
    var k := ks[i];
    DoneStep(ks, i);
    KeysBelowPick(Obj(top), Done(ks, i + 1), k);
    assert Done(ks, i + 1) - {k} == Done(ks, i);
    NextSame(top, reduced, ks, i, Obj(c));
    NextSub(top, reduced, k, c);
    assert reduced[k := Obj(c)].Keys == top.Keys;
    NextPassed(env, obj, reduced, k, t, t', c, t'');
    if Monotone(env) && env.verify(0, obj) {
      NextMinimal(env, reduced, levels, Done(ks, i), k, c);
    }
  }

  /** The result of minimizing an object, as it is promised. */
  ghost predicate Minimized(env: Replays, obj: Fields, reduced: Fields, depth: nat, t: nat, t': nat) {
    && SubFields(reduced, obj) && (reduced == obj || Passed(env, reduced, t, t'))
    && t <= t' <= t + 3 * CountKeysDeep(obj)
    && (Monotone(env) && env.verify(0, obj) ==> env.verify(0, reduced) && OneMinimal(env, reduced, Levels(depth)))
    && CutAbove(reduced, obj, Levels(depth))
  }

  /** Removes the keys of an object that can be spared, and then those of the objects in it. */
  method DeltaDebugKeys(env: Replays, obj: Fields, keys: seq<string>, depth: nat, t: nat)
    returns (reduced: Fields, t': nat)
    requires Increasing(keys) && forall k :: k in keys <==> k in obj
    ensures SubFields(reduced, obj)
    ensures reduced == obj || Passed(env, reduced, t, t')
    ensures t <= t' <= t + 3 * CountKeysDeep(obj)
    ensures Monotone(env) && env.verify(0, obj) ==> env.verify(0, reduced) && OneMinimal(env, reduced, Levels(depth))
    ensures CutAbove(reduced, obj, Levels(depth))
    decreases Levels(depth), 2
  {
    var removed := RemoveKeys(env, obj, keys, t);
    KeyCount(keys, obj.Keys);
    if depth >= MAX_NESTED_DEPTH {
      EndOneLevel(env, obj, keys, t);
      RemoveKeysSound(env, obj, keys, t);
      return removed.0, removed.1;
    }
    reduced, t' := DeltaDebugNested(env, obj, keys, removed.0, depth, t, removed.1);
  }

  /** Minimizes the nested objects, one after the other. */
  method DeltaDebugNested(env: Replays, ghost obj: Fields, ghost keys: seq<string>, top: Fields,
                          depth: nat, ghost t: nat, after: nat)
    returns (reduced: Fields, t': nat)
    requires depth < MAX_NESTED_DEPTH && |keys| == |obj| && forall k :: k in keys <==> k in obj
    requires RemoveKeys(env, obj, keys, t) == (top, after)
    ensures Minimized(env, obj, reduced, depth, t, t')
    decreases Levels(depth), 1
  {
    reduced, t' := top, after;
    var ks := SortedKeys(reduced.Keys);
    StartMinimizing(env, obj, keys, ks, Levels(depth), t);
    for i := 0 to |ks|
      invariant Minimizing(env, obj, top, reduced, ks, i, Levels(depth), t, t')
      invariant CutAbove(reduced, top, Levels(depth))
    {
      reduced, t' := DeltaDebugKey(env, obj, top, reduced, ks, i, depth, t, t');
    }
    RemoveKeysSound(env, obj, keys, t);
    EndMinimizing(env, obj, top, reduced, ks, Levels(depth), t, t');
    CutBelow(reduced, top, obj, Levels(depth));
  }

  /** Minimizes the object at one key of the object reached so far, if there is one. */
  method DeltaDebugKey(env: Replays, ghost obj: Fields, ghost top: Fields, reduced: Fields, ks: seq<string>, i: nat,
                       depth: nat, ghost t: nat, t': nat)
    returns (after: Fields, t'': nat)
    requires depth < MAX_NESTED_DEPTH && i < |ks| && Increasing(ks) && forall k :: k in ks <==> k in top
    requires Minimizing(env, obj, top, reduced, ks, i, Levels(depth), t, t') && CutAbove(reduced, top, Levels(depth))
    ensures Minimizing(env, obj, top, after, ks, i + 1, Levels(depth), t, t'') && CutAbove(after, top, Levels(depth))
    decreases Levels(depth), 0
  {
    var k := ks[i];
    if !reduced[k].Obj? || |reduced[k].fields| == 0 {
      NextSkipped(env, obj, top, reduced, ks, i, Levels(depth), t, t');
      return reduced, t';
    }
    var nested := reduced[k].fields;
    var nestedKeys := SortedKeys(nested.Keys);
    var minimized;
    minimized, t'' := DeltaDebugKeys(Nested(env, reduced, k), nested, nestedKeys, depth + 1, t');
    assert Levels(depth + 1) == Levels(depth) - 1;
    NextMinimized(env, obj, top, reduced, ks, i, Levels(depth), t, t', minimized, t'');
    NextCut(top, reduced, ks, i, Levels(depth), minimized);
    after := reduced[k := Obj(minimized)];
  }

  /** Minimizes an object body; None when it is empty or nothing could be removed. */
  method MinimizeObject(env: Replays, obj: Fields) returns (result: Option<Fields>, ghost replays: nat)
    ensures replays <= 3 * CountKeysDeep(obj)
    ensures result.Some? ==>
      result.value != obj && SubFields(result.value, obj) && Passed(env, result.value, 0, replays)
    ensures Monotone(env) && env.verify(0, obj) && obj != map[] ==>
      var best := if result.Some? then result.value else obj;
      env.verify(0, best) && OneMinimal(env, best, 6)
    ensures result.Some? ==> CutAbove(result.value, obj, 6)
  {
    if |obj| == 0 {
      return None, 0;
    }
    var originalKeyCount := CountKeysOf(obj);
    var keys := SortedKeys(obj.Keys);
    var reduced, t := DeltaDebugKeys(env, obj, keys, 0, 0);
    var count := CountKeysOf(reduced);
    CountStrict(Obj(reduced), Obj(obj));
    if count >= originalKeyCount {
      return None, t;
    }
    return Some(reduced), t;
  }

  /** Counts the keys of an object and of the objects in it. */
  method CountKeysOf(f: Fields) returns (count: nat)
    ensures count == CountKeysDeep(f)
    decreases Obj(f)
  {
    count := |f|;
    var todo := f.Keys;
    assert f.Keys - todo == {};
    while todo != {}
      invariant todo <= f.Keys
      invariant count == |f| + KeysBelow(Obj(f), f.Keys - todo)
      decreases todo
    {
      var k :| k in todo;
      KeysBelowPick(Obj(f), f.Keys - (todo - {k}), k);
      assert f.Keys - (todo - {k}) - {k} == f.Keys - todo;
      if f[k].Obj? {
        assert f[k] < Obj(f);
        var nested := CountKeysOf(f[k].fields);
        count := count + nested;
      }
      todo := todo - {k};
    }
    assert f.Keys - {} == f.Keys;
  }
}
