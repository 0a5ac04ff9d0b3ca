/**
  JSON objects as the minimizer of internal/triage/triage.go sees them: a value is
  either an object or opaque, and objects are ordered by having fewer keys.
 */
module JsonTree {

  type Fields = map<string, Json>

  datatype Json = Leaf(text: string) | Obj(fields: Fields)

  // ---- The order by removed keys ----

  /** x comes from y by removing keys, at any depth. */
  ghost predicate SubJson(x: Json, y: Json)
    decreases x
  {
    match (x, y)
    case (Obj(f), Obj(g)) => f.Keys <= g.Keys && forall k :: k in f ==> SubJson(f[k], g[k])
    case _ => x == y
  }

  ghost predicate SubFields(f: Fields, g: Fields) {
    f.Keys <= g.Keys && forall k :: k in f ==> SubJson(f[k], g[k])
  }

  lemma {:induction false} SubReflexive(x: Json)
    ensures SubJson(x, x)
  {
    if x.Obj? {
      forall k | k in x.fields ensures SubJson(x.fields[k], x.fields[k]) {
        SubReflexive(x.fields[k]);
      }
    }
  }

  lemma {:induction false} SubTransitive(x: Json, y: Json, z: Json)
    requires SubJson(x, y) && SubJson(y, z)
    ensures SubJson(x, z)
    decreases x
  {
    if x.Obj? && y.Obj? {
      forall k | k in x.fields ensures SubJson(x.fields[k], z.fields[k]) {
        SubTransitive(x.fields[k], y.fields[k], z.fields[k]);
      }
    }
  }

  lemma SubFieldsTransitive(f: Fields, g: Fields, h: Fields)
    requires SubFields(f, g) && SubFields(g, h)
    ensures SubFields(f, h)
  {
    SubTransitive(Obj(f), Obj(g), Obj(h));
  }

  /** f has fewer keys than g at the top, and the same values. */
  ghost predicate Restricts(f: Fields, g: Fields) {
    f.Keys <= g.Keys && forall k :: k in f ==> f[k] == g[k]
  }

  lemma RestrictsIsSub(f: Fields, g: Fields)
    requires Restricts(f, g)
    ensures SubFields(f, g)
  {
    forall k | k in f ensures SubJson(f[k], g[k]) {
      SubReflexive(f[k]);
    }
  }

  lemma SubUpdate(f: Fields, k: string, a: Json, b: Json)
    requires SubJson(a, b)
    ensures SubFields(f[k := a], f[k := b])
  {
    var fa, fb := f[k := a], f[k := b];
    forall j | j in fa ensures SubJson(fa[j], fb[j]) {
      SubReflexive(fa[j]);
    }
  }

  // ---- Counting keys ----

  /** The keys of an object and of all objects in it; nothing for an opaque value. */
  ghost function CountKeys(x: Json): nat
    decreases x, 1
  {
    if x.Obj? then |x.fields| + KeysBelow(x, x.fields.Keys) else 0
  }

  /** The keys inside the values of the given keys. */
  ghost function KeysBelow(x: Json, keys: set<string>): nat
    requires x.Obj? && keys <= x.fields.Keys
    decreases x, 0, keys
  {
    if keys == {} then 0
    else
      var k :| k in keys;
      CountKeys(x.fields[k]) + KeysBelow(x, keys - {k})
  }

  ghost function CountKeysDeep(f: Fields): nat {
    CountKeys(Obj(f))
  }

  lemma {:induction false} KeysBelowPick(x: Json, keys: set<string>, k: string)
    requires x.Obj? && keys <= x.fields.Keys && k in keys
    ensures KeysBelow(x, keys) == CountKeys(x.fields[k]) + KeysBelow(x, keys - {k})
    decreases keys
  {
    var j :| j in keys && KeysBelow(x, keys) == CountKeys(x.fields[j]) + KeysBelow(x, keys - {j});
    if j != k {
      KeysBelowPick(x, keys - {j}, k);
      KeysBelowPick(x, keys - {k}, j);
      assert keys - {j} - {k} == keys - {k} - {j};
    }
  }

  lemma {:induction false} KeysBelowMonotone(x: Json, y: Json, keys: set<string>, more: set<string>)
    requires x.Obj? && y.Obj? && keys <= x.fields.Keys && keys <= more <= y.fields.Keys
    requires forall k | k in keys :: CountKeys(x.fields[k]) <= CountKeys(y.fields[k])
    ensures KeysBelow(x, keys) <= KeysBelow(y, more)
    ensures KeysBelow(x, keys) == KeysBelow(y, more)
      ==> forall k | k in keys :: CountKeys(x.fields[k]) == CountKeys(y.fields[k])
    decreases more
  {
    if more != {} {
      var k :| k in more;
      KeysBelowPick(y, more, k);
      if k in keys {
        KeysBelowPick(x, keys, k);
        KeysBelowMonotone(x, y, keys - {k}, more - {k});
      } else {
        KeysBelowMonotone(x, y, keys, more - {k});
      }
    }
  }

  /** Removing keys never raises the count, and keeps it only if nothing was removed. */
  lemma {:induction false} CountStrict(x: Json, y: Json)
    requires SubJson(x, y)
    ensures CountKeys(x) <= CountKeys(y)
    ensures CountKeys(x) == CountKeys(y) ==> x == y
    decreases x
  {
    if x.Obj? && y.Obj? {
      var f, g := x.fields, y.fields;
      forall k | k in f
        ensures CountKeys(f[k]) <= CountKeys(g[k])
        ensures CountKeys(f[k]) == CountKeys(g[k]) ==> f[k] == g[k]
      {
        CountStrict(f[k], g[k]);
      }
      KeysBelowMonotone(x, y, f.Keys, g.Keys);
      assert g.Keys == f.Keys + (g.Keys - f.Keys);
      assert |g.Keys| == |f.Keys| + |g.Keys - f.Keys|;
      if CountKeys(x) == CountKeys(y) {
        assert |g.Keys - f.Keys| == 0;
        assert f.Keys == g.Keys;
        assert f == g;
      }
    }
  }

  // ---- Deleting one key anywhere ----

  /** The path leads through nested objects to a key. */
  ghost predicate IsKeyPath(f: Fields, path: seq<string>)
    decreases |path|
  {
    && path != [] && path[0] in f
    && (|path| > 1 ==> f[path[0]].Obj? && IsKeyPath(f[path[0]].fields, path[1..]))
  }

  ghost function Delete(f: Fields, path: seq<string>): Fields
    requires IsKeyPath(f, path)
    decreases |path|
  {
    if |path| == 1 then f - {path[0]}
    else f[path[0] := Obj(Delete(f[path[0]].fields, path[1..]))]
  }

  lemma {:induction false} DeleteMonotone(f: Fields, g: Fields, path: seq<string>)
    requires SubFields(f, g) && IsKeyPath(f, path)
    ensures IsKeyPath(g, path) && SubFields(Delete(f, path), Delete(g, path))
    decreases |path|
  {
    if |path| > 1 {
      assert SubJson(f[path[0]], g[path[0]]);
      DeleteMonotone(f[path[0]].fields, g[path[0]].fields, path[1..]);
    }
  }
}
