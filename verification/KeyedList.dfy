/** Merging arrays of tables by an identifier: items with a known key replace the last item with that key,
    other items are appended. Folding this over override lists is associative. */
module KeyedList {
  import opened Options

  datatype Scalar = Str(text: string) | Int(n: int) | Float(r: real) | Bool(b: bool)

  datatype Field = Field(name: string)

  datatype Value =
    | Leaf(scalar: Scalar)
    | Table(fields: map<Field, Value>)
    | Array(items: seq<Value>)

  const CODE := Field("code")
  const ID := Field("id")

  /** Dictionary keys compare numbers by value, whatever their type: 1, 1.0 and true are one key. */
  datatype Key = TextKey(text: string) | NumberKey(number: real)

  function ScalarKey(s: Scalar): Key {
    match s
    case Str(t) => TextKey(t)
    case Int(i) => NumberKey(i as real)
    case Float(r) => NumberKey(r)
    case Bool(b) => NumberKey(if b then 1.0 else 0.0)
  }

  predicate HasField(item: Value, f: Field) {
    item.Table? && f in item.fields
  }

  /** A table that has the field, but with a list or a table in it, cannot be indexed. */
  predicate Unhashable(item: Value, f: Field) {
    HasField(item, f) && !item.fields[f].Leaf?
  }

  function KeyOf(item: Value, f: Field): Option<Key> {
    if HasField(item, f) && item.fields[f].Leaf? then Some(ScalarKey(item.fields[f].scalar)) else None
  }

  /** The last position whose item has key k, or -1. */
  function LastIndex(s: seq<Value>, f: Field, k: Key): (i: int)
    ensures -1 <= i < |s|
    ensures i >= 0 ==> KeyOf(s[i], f) == Some(k)
  {
    if s == [] then -1
    else if KeyOf(s[|s| - 1], f) == Some(k) then |s| - 1
    else LastIndex(s[..|s| - 1], f, k)
  }

  /** What one override item does to the result so far. */
  function Step(s: seq<Value>, f: Field, item: Value): seq<Value> {
    match KeyOf(item, f)
    case None => s + [item]
    case Some(k) => var i := LastIndex(s, f, k); if i >= 0 then s[i := item] else s + [item]
  }

  function Fold(base: seq<Value>, f: Field, over: seq<Value>): seq<Value> {
    if over == [] then base else Step(Fold(base, f, over[..|over| - 1]), f, over[|over| - 1])
  }

  // ---- The last index ----

  lemma {:induction false} LastIndexIs(s: seq<Value>, f: Field, k: Key, i: nat)
    requires i < |s| && KeyOf(s[i], f) == Some(k)
    requires forall j :: i < j < |s| ==> KeyOf(s[j], f) != Some(k)
    ensures LastIndex(s, f, k) == i
  {
    if i < |s| - 1 { LastIndexIs(s[..|s| - 1], f, k, i); }
  }

  lemma {:induction false} LastIndexMax(s: seq<Value>, f: Field, k: Key, j: nat)
    requires LastIndex(s, f, k) < j < |s|
    ensures KeyOf(s[j], f) != Some(k)
  {
    if j < |s| - 1 { LastIndexMax(s[..|s| - 1], f, k, j); }
  }

  lemma LastIndexAppend(s: seq<Value>, f: Field, k: Key, item: Value)
    ensures LastIndex(s + [item], f, k) == if KeyOf(item, f) == Some(k) then |s| else LastIndex(s, f, k)
  {
    assert (s + [item])[..|s|] == s;
  }

  /** Replacing an item by one with the same key moves no last index. */
  lemma {:induction false} LastIndexUpdate(s: seq<Value>, f: Field, k: Key, i: nat, item: Value)
    requires i < |s| && KeyOf(s[i], f) == KeyOf(item, f)
    ensures LastIndex(s[i := item], f, k) == LastIndex(s, f, k)
  {
    var n := |s| - 1;
    if i < n {
      LastIndexUpdate(s[..n], f, k, i, item);
      assert s[i := item][..n] == s[..n][i := item];
    } else {
      assert s[i := item][..n] == s[..n];
    }
  }

  // ---- Steps ----

  lemma StepIndex(s: seq<Value>, f: Field, item: Value, k: Key)
    ensures KeyOf(item, f) != Some(k) ==> LastIndex(Step(s, f, item), f, k) == LastIndex(s, f, k)
    ensures KeyOf(item, f) == Some(k) ==>
      LastIndex(Step(s, f, item), f, k) == if LastIndex(s, f, k) >= 0 then LastIndex(s, f, k) else |s|
  {
    LastIndexAppend(s, f, k, item);
    if KeyOf(item, f).Some? {
      var i := LastIndex(s, f, KeyOf(item, f).value);
      if i >= 0 { LastIndexUpdate(s, f, k, i, item); }
    }
  }

  /** A second item with the same key overwrites the first. */
  lemma StepTwice(s: seq<Value>, f: Field, u: Value, w: Value)
    requires KeyOf(u, f).Some? && KeyOf(u, f) == KeyOf(w, f)
    ensures Step(Step(s, f, u), f, w) == Step(s, f, w)
  {
    StepIndex(s, f, u, KeyOf(u, f).value);
  }

  /** A replacement commutes with a step for another key. */
  lemma StepSwap(s: seq<Value>, f: Field, u: Value, w: Value)
    requires KeyOf(w, f).Some? && KeyOf(u, f) != KeyOf(w, f)
    requires LastIndex(s, f, KeyOf(w, f).value) >= 0
    ensures Step(Step(s, f, w), f, u) == Step(Step(s, f, u), f, w)
  {
    var kw := KeyOf(w, f).value;
    StepIndex(s, f, u, kw);
    if KeyOf(u, f).Some? { StepIndex(s, f, w, KeyOf(u, f).value); }
  }

  // ---- Folds ----

  lemma FoldAppend(x: seq<Value>, f: Field, n: seq<Value>, item: Value)
    ensures Fold(x, f, n + [item]) == Step(Fold(x, f, n), f, item)
  {
    assert (n + [item])[..|n|] == n;
  }

  /** A key is in the merged list if and only if it is in one of the two lists. */
  lemma {:induction false} FoldHasKey(x: seq<Value>, f: Field, n: seq<Value>, k: Key)
    ensures LastIndex(Fold(x, f, n), f, k) >= 0 <==> LastIndex(x, f, k) >= 0 || LastIndex(n, f, k) >= 0
  {
    if n != [] {
      FoldHasKey(x, f, n[..|n| - 1], k);
      StepIndex(Fold(x, f, n[..|n| - 1]), f, n[|n| - 1], k);
    }
  }

  /** Merging in a list whose last item for w's key has been replaced by w is merging in the list, then w. */
  lemma {:induction false} FoldReplaced(x: seq<Value>, f: Field, n: seq<Value>, w: Value, j: nat)
    requires KeyOf(w, f).Some? && j == LastIndex(n, f, KeyOf(w, f).value)
    ensures j < |n| && Fold(x, f, n[j := w]) == Step(Fold(x, f, n), f, w)
  {
    var m := |n| - 1;
    var front, u := n[..m], n[m];
    if j == m {
      assert n[j := w] == front + [w];
      FoldAppend(x, f, front, w);
      StepTwice(Fold(x, f, front), f, u, w);
    } else {
      FoldReplaced(x, f, front, w, j);
      assert n[j := w] == front[j := w] + [u];
      FoldAppend(x, f, front[j := w], u);
      FoldHasKey(x, f, front, KeyOf(w, f).value);
      StepSwap(Fold(x, f, front), f, u, w);
    }
  }

  lemma FoldStep(x: seq<Value>, f: Field, n: seq<Value>, w: Value)
    ensures Fold(x, f, Step(n, f, w)) == Step(Fold(x, f, n), f, w)
  {
    FoldAppend(x, f, n, w);
    if KeyOf(w, f).Some? {
      var j := LastIndex(n, f, KeyOf(w, f).value);
      if j >= 0 { FoldReplaced(x, f, n, w, j); }
    }
  }

  /** Keyed merging is associative, with repeated keys or without. */
  lemma {:induction false} FoldAssociative(x: seq<Value>, f: Field, y: seq<Value>, z: seq<Value>)
    ensures Fold(x, f, Fold(y, f, z)) == Fold(Fold(x, f, y), f, z)
  {
    if z != [] {
      var front, w := z[..|z| - 1], z[|z| - 1];
      FoldAssociative(x, f, y, front);
      FoldStep(x, f, Fold(y, f, front), w);
    }
  }

  // ---- What a merged list contains ----

  /** Base positions stay: each holds its base item or an override item with the same key. */
  lemma {:induction false} FoldKeepsOrder(x: seq<Value>, f: Field, n: seq<Value>, i: nat)
    requires i < |x|
    ensures i < |Fold(x, f, n)|
    ensures var item := Fold(x, f, n)[i];
      item == x[i] || (KeyOf(x[i], f).Some? && KeyOf(item, f) == KeyOf(x[i], f) && item in n)
  {
    if n != [] {
      var front, w := n[..|n| - 1], n[|n| - 1];
      FoldKeepsOrder(x, f, front, i);
      assert n == front + [w];
      var s := Fold(x, f, front);
      if KeyOf(w, f).Some? {
        var j := LastIndex(s, f, KeyOf(w, f).value);
        if j == i { assert Fold(x, f, n)[i] == w; }
      }
    }
  }

  lemma {:induction false} FoldMembers(x: seq<Value>, f: Field, n: seq<Value>, v: Value)
    ensures v in Fold(x, f, n) ==> v in x || v in n
  {
    if n != [] {
      FoldMembers(x, f, n[..|n| - 1], v);
      assert n == n[..|n| - 1] + [n[|n| - 1]];
    }
  }

  /** The last override item for a key wins: it is what the merged list holds at that key's last index. */
  lemma {:induction false} LastOverrideWins(x: seq<Value>, f: Field, n: seq<Value>, k: Key)
    requires LastIndex(n, f, k) >= 0
    ensures LastIndex(Fold(x, f, n), f, k) >= 0
    ensures Fold(x, f, n)[LastIndex(Fold(x, f, n), f, k)] == n[LastIndex(n, f, k)]
  {
    var front, w := n[..|n| - 1], n[|n| - 1];
    var s := Fold(x, f, front);
    StepIndex(s, f, w, k);
    if KeyOf(w, f) != Some(k) {
      LastOverrideWins(x, f, front, k);
      if KeyOf(w, f).Some? {
        var i, j := LastIndex(s, f, k), LastIndex(s, f, KeyOf(w, f).value);
        assert j >= 0 ==> i != j;
      }
    }
  }

  predicate UniqueKeys(s: seq<Value>, f: Field) {
    forall i, j :: 0 <= i < j < |s| && KeyOf(s[i], f).Some? ==> KeyOf(s[i], f) != KeyOf(s[j], f)
  }

  lemma StepUnique(s: seq<Value>, f: Field, item: Value)
    requires UniqueKeys(s, f)
    ensures UniqueKeys(Step(s, f, item), f)
  {
    var r := Step(s, f, item);
    if KeyOf(item, f).Some? {
      var k := KeyOf(item, f).value;
      if LastIndex(s, f, k) < 0 {
        forall j | 0 <= j < |s| ensures KeyOf(s[j], f) != Some(k) { LastIndexMax(s, f, k, j); }
      }
    }
  }

  /** Merging keeps keys unique, whatever the override repeats. */
  lemma {:induction false} FoldUnique(x: seq<Value>, f: Field, n: seq<Value>)
    requires UniqueKeys(x, f)
    ensures UniqueKeys(Fold(x, f, n), f)
  {
    if n != [] {
      FoldUnique(x, f, n[..|n| - 1]);
      StepUnique(Fold(x, f, n[..|n| - 1]), f, n[|n| - 1]);
    }
  }

  /** No override item with a unique key is lost. */
  lemma FoldKeepsOverride(x: seq<Value>, f: Field, n: seq<Value>, i: nat)
    requires i < |n| && UniqueKeys(n, f) && KeyOf(n[i], f).Some?
    ensures n[i] in Fold(x, f, n)
  {
    var k := KeyOf(n[i], f).value;
    LastIndexIs(n, f, k, i);
    LastOverrideWins(x, f, n, k);
  }
}
