/** What a merge means, path by path and item by item, whatever the layers look like. */
module MergeMeaning {
  import opened ConfigMerge
  import opened KeyedList
  import opened Options

  // ---- Paths ----

  /** The value neither has the path nor puts something else in its place: below its tables, the path is free. */
  predicate LeavesAlone(v: Value, path: seq<Field>)
    decreases |path|
  {
    path != [] && v.Table? && (path[0] !in v.fields || LeavesAlone(v.fields[path[0]], path[1..]))
  }

  predicate SameContainer(x: Value, y: Value) {
    (x.Table? && y.Table?) || (x.Array? && y.Array?)
  }

  /** What a merged value says of a base value x and an override value y: tables and arrays are combined, of anything
      else the override's is taken. */
  ghost predicate Combines(m: Value, x: Value, y: Value) {
    && (!SameContainer(x, y) ==> m == y)
    && (x.Table? && y.Table? ==> m.Table? && m.fields.Keys == x.fields.Keys + y.fields.Keys)
    && (x.Array? && y.Array? ==> Ok(m) == MergeArrays(x.items, y.items))
  }

  /** Every path of a merge: where the override has nothing, the base's value stays if the override leaves the path
      alone and is gone if not; where only the override has a value, it is that; where both have one, they combine. */
  lemma {:induction false} PathDecided(a: Value, b: Value, path: seq<Field>)
    requires DeepMerge(a, b).Ok?
    ensures var m, x, y := Extract(DeepMerge(a, b).value, path), Extract(a, path), Extract(b, path);
      && (y.None? && LeavesAlone(b, path) ==> m == x)
      && (y.None? && !LeavesAlone(b, path) ==> m.None?)
      && (y.Some? && x.None? ==> m == y)
      && (y.Some? && x.Some? ==> m.Some? && Combines(m.value, x.value, y.value))
    decreases |path|
  {
    if a.Table? && b.Table? {
      TablesByField(a.fields, b.fields);
      var m := DeepMerge(a, b).value.fields;
      if path != [] {
        var k := path[0];
        assert k in m ==> MergeAt(At(a.fields, k), At(b.fields, k)) == Some(Ok(m[k]));
        if k in a.fields && k in b.fields {
          PathDecided(a.fields[k], b.fields[k], path[1..]);
        }
      }
    }
  }

  /** The override wins: a scalar of the override is what the merge has at its path. */
  lemma OverrideScalarWins(a: Value, b: Value, path: seq<Field>, s: Scalar)
    requires DeepMerge(a, b).Ok? && Extract(b, path) == Some(Leaf(s))
    ensures Extract(DeepMerge(a, b).value, path) == Some(Leaf(s))
  {
    PathDecided(a, b, path);
  }

  /** Merging fails exactly if both layers have an array at some path and the two cannot be merged. */
  ghost predicate ClashesAt(a: Value, b: Value, path: seq<Field>) {
    var x, y := Extract(a, path), Extract(b, path);
    x.Some? && y.Some? && x.value.Array? && y.value.Array? && MergeArrays(x.value.items, y.value.items).TypeError?
  }

  lemma {:induction false} ClashFails(a: Value, b: Value, path: seq<Field>)
    requires ClashesAt(a, b, path)
    ensures DeepMerge(a, b).TypeError?
    decreases |path|
  {
    if path != [] {
      ClashFails(a.fields[path[0]], b.fields[path[0]], path[1..]);
    }
  }

  lemma {:induction false} FailureClashes(a: Value, b: Value) returns (path: seq<Field>)
    requires DeepMerge(a, b).TypeError?
    ensures ClashesAt(a, b, path)
    decreases b
  {
    if a.Table? && b.Table? {
      var k :| k in a.fields && k in b.fields && DeepMerge(a.fields[k], b.fields[k]).TypeError?;
      var rest := FailureClashes(a.fields[k], b.fields[k]);
      path := [k] + rest;
      assert path[1..] == rest;
    } else {
      path := [];
    }
  }

  // ---- Arrays ----

  /** Every item is a table with this field. */
  ghost predicate Carries(items: seq<Value>, f: Field) {
    forall v :: v in items ==> v.Table? && f in v.fields
  }

  /** Some item has a list or a table where its identifier should be. */
  ghost predicate BadIdentifier(items: seq<Value>, f: Field) {
    exists v :: v in items && v.Table? && f in v.fields && !v.fields[f].Leaf?
  }

  /** Two arrays are merged by code if every item of both carries one, else by id if every item carries one, else the
      override's items follow the base's; merging by a field fails exactly on a list or a table in that field. */
  lemma ArraysByField(x: seq<Value>, y: seq<Value>)
    ensures var code, id := Field("code"), Field("id");
      && (x + y != [] && Carries(x + y, code) ==>
            MergeArrays(x, y) == if BadIdentifier(x + y, code) then TypeError else Ok(Array(Fold(x, code, y))))
      && (x + y != [] && !Carries(x + y, code) && Carries(x + y, id) ==>
            MergeArrays(x, y) == if BadIdentifier(x + y, id) then TypeError else Ok(Array(Fold(x, id, y))))
      && (x + y == [] || (!Carries(x + y, code) && !Carries(x + y, id)) ==> MergeArrays(x, y) == Ok(Array(x + y)))
  {
    CarriesIsAllHave(x, y, CODE);
    CarriesIsAllHave(x, y, ID);
  }

  lemma CarriesIsAllHave(x: seq<Value>, y: seq<Value>, f: Field)
    ensures Carries(x + y, f) <==> AllHave(x + y, f)
    ensures BadIdentifier(x + y, f) <==> !(Hashable(x, f) && Hashable(y, f))
    ensures Carries(x + y, f) ==> Tables(x) == x
  {
    var all := x + y;
    if AllHave(all, f) {
      forall v | v in all ensures v.Table? && f in v.fields {
        var i :| 0 <= i < |all| && all[i] == v;
        assert HasField(all[i], f);
      }
    }
    if Carries(all, f) {
      assert forall i :: 0 <= i < |all| ==> all[i] in all;
      forall i | 0 <= i < |x| ensures HasField(x[i], f) {
        assert all[i] == x[i];
      }
      TablesAll(x, f);
    }
    BadIsUnhashable(x, y, f);
  }

  lemma BadIsUnhashable(x: seq<Value>, y: seq<Value>, f: Field)
    ensures BadIdentifier(x + y, f) <==> !(Hashable(x, f) && Hashable(y, f))
  {
    var all := x + y;
    if BadIdentifier(all, f) {
      var v :| v in all && v.Table? && f in v.fields && !v.fields[f].Leaf?;
      var i :| 0 <= i < |all| && all[i] == v;
      assert Unhashable(if i < |x| then x[i] else y[i - |x|], f);
    }
    if !Hashable(x, f) {
      var i :| 0 <= i < |x| && Unhashable(x[i], f);
      assert all[i] == x[i] && all[i] in all;
    } else if !Hashable(y, f) {
      var i :| 0 <= i < |y| && Unhashable(y[i], f);
      assert all[|x| + i] == y[i] && all[|x| + i] in all;
    }
  }

  // ---- Keyed arrays ----

  function Keys(items: seq<Value>, f: Field): seq<Option<Key>> {
    seq(|items|, i requires 0 <= i < |items| => KeyOf(items[i], f))
  }

  /** The keys that are not seen yet, each at its first appearance. */
  function NewKeys(seen: seq<Option<Key>>, keys: seq<Option<Key>>): seq<Option<Key>> {
    if keys == [] then []
    else
      var front, k := NewKeys(seen, keys[..|keys| - 1]), keys[|keys| - 1];
      if k in seen + front then front else front + [k]
  }

  ghost predicate AllKeyed(items: seq<Value>, f: Field) {
    forall i :: 0 <= i < |items| ==> KeyOf(items[i], f).Some?
  }

  /** The keys of a merged array: those of the base where they were, and then the override's new ones in order. What
      each of them holds is said by LastOverrideWins and FoldKeepsOrder. */
  lemma {:induction false} FoldKeys(x: seq<Value>, f: Field, n: seq<Value>)
    requires AllKeyed(x, f) && AllKeyed(n, f)
    ensures Keys(Fold(x, f, n), f) == Keys(x, f) + NewKeys(Keys(x, f), Keys(n, f))
  {
    if n != [] {
      var m := |n| - 1;
      var front, w := n[..m], n[m];
      FoldKeys(x, f, front);
      assert Keys(n, f)[..m] == Keys(front, f);
      StepKeys(Fold(x, f, front), f, w);
    }
  }

  lemma StepKeys(s: seq<Value>, f: Field, w: Value)
    requires KeyOf(w, f).Some?
    ensures Keys(Step(s, f, w), f) == if KeyOf(w, f) in Keys(s, f) then Keys(s, f) else Keys(s, f) + [KeyOf(w, f)]
  {
    var k := KeyOf(w, f).value;
    var i := LastIndex(s, f, k);
    if i >= 0 {
      assert Keys(s, f)[i] == Some(k);
    } else {
      forall j | 0 <= j < |s| ensures Keys(s, f)[j] != Some(k) {
        LastIndexMax(s, f, k, j);
      }
    }
  }

  /** Dictionary keys: equal texts are one key, and so are numbers and truth values of equal value; a text is never the
      same key as a number. */
  lemma KeysCompareByValue(t: string, u: string, i: int, r: real, b: bool)
    ensures ScalarKey(Str(t)) == ScalarKey(Str(u)) <==> t == u
    ensures ScalarKey(Int(i)) == ScalarKey(Float(r)) <==> i as real == r
    ensures ScalarKey(Int(i)) == ScalarKey(Bool(b)) <==> i == if b then 1 else 0
    ensures ScalarKey(Str(t)) != ScalarKey(Int(i)) && ScalarKey(Str(t)) != ScalarKey(Float(r))
    ensures ScalarKey(Str(t)) != ScalarKey(Bool(b))
  {
  }

  // ---- Folds of layers ----

  /** The layers merged onto the base, one after the other. */
  function MergeLayers(base: Value, layers: seq<Value>): Result {
    if layers == [] then Ok(base) else ThenMerge(MergeLayers(base, layers[..|layers| - 1]), layers[|layers| - 1])
  }

  /** In any number of layers, the last one that has a scalar at a path decides the path, if those after it leave the
      path alone. */
  lemma {:induction false} LastScalarDecides(base: Value, layers: seq<Value>, i: nat, path: seq<Field>, s: Scalar)
    requires MergeLayers(base, layers).Ok? && i < |layers| && Extract(layers[i], path) == Some(Leaf(s))
    requires forall j :: i < j < |layers| ==> LeavesAlone(layers[j], path)
    ensures Extract(MergeLayers(base, layers).value, path) == Some(Leaf(s))
  {
    var n := |layers| - 1;
    var front := MergeLayers(base, layers[..n]).value;
    PathDecided(front, layers[n], path);
    if i < n {
      LastScalarDecides(base, layers[..n], i, path, s);
      AloneIsAbsent(layers[n], path);
    }
  }

  lemma {:induction false} AloneIsAbsent(v: Value, path: seq<Field>)
    requires LeavesAlone(v, path)
    ensures Extract(v, path).None?
    decreases |path|
  {
    if path[0] in v.fields {
      AloneIsAbsent(v.fields[path[0]], path[1..]);
    }
  }

  /** A path that every layer leaves alone keeps the base's value. */
  lemma {:induction false} UntouchedStays(base: Value, layers: seq<Value>, path: seq<Field>)
    requires MergeLayers(base, layers).Ok? && forall j :: 0 <= j < |layers| ==> LeavesAlone(layers[j], path)
    ensures Extract(MergeLayers(base, layers).value, path) == Extract(base, path)
  {
    if layers != [] {
      var n := |layers| - 1;
      UntouchedStays(base, layers[..n], path);
      PathDecided(MergeLayers(base, layers[..n]).value, layers[n], path);
      AloneIsAbsent(layers[n], path);
    }
  }
}
