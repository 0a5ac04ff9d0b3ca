/**
  The list minimizers of internal/triage/triage.go: MinimizeSession drops
  exchanges, MinimizeMultipartBody drops parts.  Both walk backwards over a list
  that shrinks under them.
 */
module ListMinimizer {
  import opened Options

  /** Answers indexed by the number of replays so far, and the cancellation of the context. */
  datatype Trials<!T> = Trials(triggers: (nat, seq<T>) -> bool, done: nat -> bool)

  predicate IsSubsequence<T(==)>(a: seq<T>, b: seq<T>) {
    || a == []
    || (b != [] && ((a[0] == b[0] && IsSubsequence(a[1..], b[1..])) || IsSubsequence(a, b[1..])))
  }

  lemma {:induction false} SubsequenceReflexive<T>(a: seq<T>)
    ensures IsSubsequence(a, a)
  {
    if a != [] { SubsequenceReflexive(a[1..]); }
  }

  lemma {:induction false} SubsequenceTail<T>(a: seq<T>, b: seq<T>)
    requires IsSubsequence(a, b) && a != []
    ensures IsSubsequence(a[1..], b)
    decreases b
  {
    if a[0] == b[0] && IsSubsequence(a[1..], b[1..]) {
      if a[1..] != [] { assert IsSubsequence(a[1..], b[1..]); }
    } else {
      SubsequenceTail(a, b[1..]);
    }
  }

  lemma {:induction false} SubsequenceTransitive<T>(a: seq<T>, b: seq<T>, c: seq<T>)
    requires IsSubsequence(a, b) && IsSubsequence(b, c)
    ensures IsSubsequence(a, c)
    decreases |b| + |c|
  {
    if a != [] {
      if b[0] == c[0] && IsSubsequence(b[1..], c[1..]) {
        if a[0] == b[0] && IsSubsequence(a[1..], b[1..]) {
          SubsequenceTransitive(a[1..], b[1..], c[1..]);
        } else {
          SubsequenceTransitive(a, b[1..], c[1..]);
        }
      } else {
        SubsequenceTransitive(a, b, c[1..]);
      }
    }
  }

  lemma {:induction false} DropMiddle<T>(a: seq<T>, x: T, b: seq<T>)
    ensures IsSubsequence(a + b, a + [x] + b)
  {
    if a == [] {
      assert ([x] + b)[1..] == b && a + b == b && a + [x] + b == [x] + b;
      SubsequenceReflexive(b);
    } else {
      DropMiddle(a[1..], x, b);
      assert (a + b)[1..] == a[1..] + b && (a + [x] + b)[1..] == a[1..] + [x] + b;
    }
  }

  function Without<T>(s: seq<T>, i: nat): seq<T>
    requires i < |s|
  {
    s[..i] + s[i + 1..]
  }

  /** The answers do not depend on the time, the context is not cancelled, and more elements trigger as well. */
  ghost predicate Monotone<T(!new)>(env: Trials<T>) {
    && (forall t, s :: env.triggers(t, s) == env.triggers(0, s))
    && (forall t :: !env.done(t))
    && (forall a, b :: IsSubsequence(a, b) && env.triggers(0, a) ==> env.triggers(0, b))
  }

  /** s has triggered in one of the first t replays. */
  ghost predicate Triggered<T>(env: Trials<T>, s: seq<T>, t: nat) {
    exists i :: 0 <= i < t && env.triggers(i, s)
  }

  /** No element of the list from position lowest on can be spared. */
  ghost predicate OneMinimal<T>(env: Trials<T>, s: seq<T>, lowest: nat) {
    forall i :: lowest <= i < |s| ==> !env.triggers(0, Without(s, i))
  }

  /** None of the elements behind the front can be spared. */
  ghost predicate Needed<T(!new)>(env: Trials<T>, front: seq<T>, kept: seq<T>) {
    forall j :: 0 <= j < |kept| ==> !env.triggers(0, front + Without(kept, j))
  }

  /**
    The state of the backwards loop: the first n elements are untouched, kept is what
    remains of the others, and t replays were made.
   */
  ghost predicate Shrinking<T(!new)>(env: Trials<T>, all: seq<T>, current: seq<T>, n: nat, kept: seq<T>, t: nat)
    requires n <= |all|
  {
    && current == all[..n] + kept
    && IsSubsequence(current, all)
    && t <= |all| - n
    && (current == all || Triggered(env, current, t))
    && (Monotone(env) && env.triggers(0, all) ==>
          env.triggers(0, current) && Needed(env, all[..n], kept))
  }

  /** Position i of the list holds x, and the anomaly did not trigger with what is in front of it and behind. */
  ghost predicate TriedAt<T>(env: Trials<T>, all: seq<T>, i: nat, x: T, behind: seq<T>) {
    i < |all| && all[i] == x && exists t :: 0 <= t < |all| && !env.triggers(t, all[..i] + behind)
  }

  ghost predicate Tried<T>(env: Trials<T>, all: seq<T>, x: T, behind: seq<T>) {
    exists i: nat :: TriedAt(env, all, i, x, behind)
  }

  /** Every element that is kept was tried, with everything in front of it still there. */
  ghost predicate AllTried<T>(env: Trials<T>, all: seq<T>, kept: seq<T>) {
    forall j | 0 <= j < |kept| :: Tried(env, all, kept[j], kept[j + 1..])
  }

  lemma TriedToo<T>(env: Trials<T>, all: seq<T>, i: nat, kept: seq<T>, t: nat)
    requires AllTried(env, all, kept) && i < |all| && t < |all| && !env.triggers(t, all[..i] + kept)
    ensures AllTried(env, all, [all[i]] + kept)
  {
    var more := [all[i]] + kept;
    forall j | 0 <= j < |more| ensures Tried(env, all, more[j], more[j + 1..]) {
      if j == 0 {
        assert more[1..] == kept;
        assert TriedAt(env, all, i, more[0], more[1..]);
      } else {
        assert more[j + 1..] == kept[j - 1 + 1..] && more[j] == kept[j - 1];
      }
    }
  }

  /** No replay is made once the context is cancelled. */
  ghost predicate Heeded<T>(env: Trials<T>, replays: nat) {
    forall t | 0 <= t < replays :: !env.done(t)
  }

  lemma Start<T(!new)>(env: Trials<T>, all: seq<T>)
    ensures Shrinking(env, all, all, |all|, [], 0)
  {
    assert all[..|all|] + [] == all;
    SubsequenceReflexive(all);
  }

  /** What was not spared before is not spared when fewer elements stand in front of it. */
  lemma StillNeeded<T(!new)>(env: Trials<T>, front: seq<T>, x: T, kept: seq<T>)
    requires Monotone(env) && Needed(env, front + [x], kept)
    ensures Needed(env, front, kept)
  {
    forall j | 0 <= j < |kept| ensures !env.triggers(0, front + Without(kept, j)) {
      DropMiddle(front, x, Without(kept, j));
    }
  }

  lemma WithoutLater<T>(front: seq<T>, x: T, kept: seq<T>, j: nat)
    requires 0 < j <= |kept|
    ensures front + Without([x] + kept, j) == front + [x] + Without(kept, j - 1)
  {
    assert Without([x] + kept, j) == [x] + Without(kept, j - 1);
  }

  /** An element that could not be spared joins those behind it. */
  lemma NeededToo<T(!new)>(env: Trials<T>, front: seq<T>, x: T, kept: seq<T>)
    requires Needed(env, front + [x], kept) && !env.triggers(0, front + kept)
    ensures Needed(env, front, [x] + kept)
  {
    var more := [x] + kept;
    forall j | 0 <= j < |more| ensures !env.triggers(0, front + Without(more, j)) {
      if j == 0 {
        assert Without(more, 0) == kept;
      } else {
        WithoutLater(front, x, kept, j);
      }
    }
  }

  lemma Dropped<T(!new)>(env: Trials<T>, all: seq<T>, current: seq<T>, i: nat, kept: seq<T>, t: nat)
    requires i < |all| && Shrinking(env, all, current, i + 1, kept, t)
    requires env.triggers(t, all[..i] + kept)
    ensures Shrinking(env, all, all[..i] + kept, i, kept, t + 1)
  {
    assert all[..i + 1] == all[..i] + [all[i]];
    DropMiddle(all[..i], all[i], kept);
    SubsequenceTransitive(all[..i] + kept, current, all);
    if Monotone(env) && env.triggers(0, all) {
      StillNeeded(env, all[..i], all[i], kept);
    }
  }

  lemma Kept<T(!new)>(env: Trials<T>, all: seq<T>, current: seq<T>, i: nat, kept: seq<T>, t: nat)
    requires i < |all| && Shrinking(env, all, current, i + 1, kept, t)
    requires !env.triggers(t, all[..i] + kept)
    ensures Shrinking(env, all, current, i, [all[i]] + kept, t + 1)
  {
    assert all[..i + 1] == all[..i] + [all[i]];
    assert all[..i] + ([all[i]] + kept) == current;
    assert Triggered(env, current, t) ==> Triggered(env, current, t + 1) by {
      if k: nat :| k < t && env.triggers(k, current) {
        assert k < t + 1 && env.triggers(k, current);
      }
    }
    if Monotone(env) && env.triggers(0, all) {
      NeededToo(env, all[..i], all[i], kept);
    }
  }

  lemma Finish<T(!new)>(env: Trials<T>, all: seq<T>, current: seq<T>, n: nat, kept: seq<T>, t: nat)
    requires n <= |all| && Shrinking(env, all, current, n, kept, t)
    ensures Monotone(env) && env.triggers(0, all) ==> env.triggers(0, current) && OneMinimal(env, current, n)
  {
    if Monotone(env) && env.triggers(0, all) {
      forall i | n <= i < |current| ensures !env.triggers(0, Without(current, i)) {
        assert Without(current, i) == all[..n] + Without(kept, i - n);
      }
    }
  }

  /** Drops exchanges from the end, never the first one, as long as the anomaly still triggers. */
  method MinimizeSession<T(!new)>(env: Trials<T>, all: seq<T>) returns (entries: seq<T>, ghost replays: nat)
    ensures IsSubsequence(entries, all) && (all != [] ==> entries != [] && entries[0] == all[0])
    ensures entries == all || Triggered(env, entries, replays)
    ensures replays <= if all == [] then 0 else |all| - 1
    ensures Monotone(env) && env.triggers(0, all) ==> env.triggers(0, entries) && OneMinimal(env, entries, 1)
    ensures Heeded(env, replays) && (replays < |all| - 1 ==> env.done(replays))
    ensures |all| > 1 && replays == |all| - 1 ==> AllTried(env, all, entries[1..])
  {
    entries, replays := all, 0;
    SubsequenceReflexive(all);
    if |all| <= 1 {
      return;
    }
    Start(env, all);
    ghost var kept: seq<T> := [];
    var t := 0;
    var i := |all| - 1;
    while i >= 1
      invariant 0 <= i < |all| && Shrinking(env, all, entries, i + 1, kept, t)
      invariant i + 1 <= |entries| && t == |all| - 1 - i
      invariant Heeded(env, t) && AllTried(env, all, kept)
    {
      if env.done(t) {
        break;
      }
      var candidate := entries[..i] + entries[i + 1..];
      assert candidate == all[..i] + kept;
      if env.triggers(t, candidate) {
        Dropped(env, all, entries, i, kept, t);
        entries := candidate;
      } else {
        Kept(env, all, entries, i, kept, t);
        TriedToo(env, all, i, kept, t);
        kept := [all[i]] + kept;
      }
      t, i := t + 1, i - 1;
    }
    replays := t;
    assert i == 0 ==> entries[1..] == kept;
    Finish(env, all, entries, i + 1, kept, t);
  }

  /** Drops parts from the end, the first one included; a cancelled context is an error, no change is None. */
  method MinimizeParts<T(!new)>(env: Trials<T>, all: seq<T>)
    returns (result: Option<seq<T>>, cancelled: bool, ghost replays: nat)
    ensures replays <= |all|
    ensures result.Some? ==>
      IsSubsequence(result.value, all) && result.value != all && Triggered(env, result.value, replays)
    ensures cancelled ==> result == None && env.done(replays)
    ensures Heeded(env, replays) && (!cancelled && |all| > 1 ==> replays == |all|)
    ensures !cancelled && |all| > 1 ==> AllTried(env, all, if result.Some? then result.value else all)
    ensures Monotone(env) && env.triggers(0, all) && |all| > 1 ==>
      var best := if result.Some? then result.value else all;
      env.triggers(0, best) && OneMinimal(env, best, 0)
  {
    result, cancelled, replays := None, false, 0;
    if |all| <= 1 {
      return;
    }
    Start(env, all);
    var parts, changed := all, false;
    ghost var kept: seq<T> := [];
    var t := 0;
    var i := |all| - 1;
    while i >= 0
      invariant -1 <= i < |all| && Shrinking(env, all, parts, i + 1, kept, t)
      invariant i + 1 <= |parts| && t == |all| - 1 - i
      invariant Heeded(env, t) && AllTried(env, all, kept)
      invariant if changed then |parts| < |all| else parts == all
    {
      if env.done(t) {
        return None, true, t;
      }
      var candidate := AllBut(parts, i);
      assert candidate == all[..i] + kept;
      if env.triggers(t, candidate) {
        Dropped(env, all, parts, i, kept, t);
        parts, changed := candidate, true;
      } else {
        Kept(env, all, parts, i, kept, t);
        TriedToo(env, all, i, kept, t);
        kept := [all[i]] + kept;
      }
      t, i := t + 1, i - 1;
    }
    replays := t;
    assert parts == kept;
    Finish(env, all, parts, 0, kept, t);
    if !changed {
      return None, false, t;
    }
    result := Some(parts);
  }

  /** The parts other than part i, collected one by one. */
  method AllBut<T>(parts: seq<T>, i: nat) returns (candidate: seq<T>)
    requires i < |parts|
    ensures candidate == Without(parts, i)
  {
    candidate := [];
    for j := 0 to |parts|
      invariant candidate == if j <= i then parts[..j] else parts[..i] + parts[i + 1..j]
    {
      if j != i {
        candidate := candidate + [parts[j]];
      }
    }
  }
}
