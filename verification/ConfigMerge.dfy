/** Layered configuration: the recursive merge of tables, its keyed-array rule, the layers folded over it,
    and looking a dotted path up in the result. */
module ConfigMerge {
  import opened Options
  import opened KeyedList

  /** Merging fails only when an array is merged by a field that holds a list or a table in some item. */
  datatype Result = Ok(value: Value) | TypeError

  // ---- Arrays ----

  predicate AllHave(items: seq<Value>, f: Field) {
    forall i :: 0 <= i < |items| ==> HasField(items[i], f)
  }

  /** The first of code and id that every item, being a table, carries. */
  function DetectField(items: seq<Value>): Option<Field> {
    if items == [] then None
    else if AllHave(items, CODE) then Some(CODE)
    else if AllHave(items, ID) then Some(ID)
    else None
  }

  predicate Hashable(items: seq<Value>, f: Field) {
    forall i :: 0 <= i < |items| ==> !Unhashable(items[i], f)
  }

  function Tables(items: seq<Value>): seq<Value> {
    if items == [] then []
    else Tables(items[..|items| - 1]) + if items[|items| - 1].Table? then [items[|items| - 1]] else []
  }

  datatype ListResult = Items(items: seq<Value>) | BadKey

  /** _merge_by_key. */
  function MergedByKey(base: seq<Value>, over: seq<Value>, f: Field): ListResult {
    if Hashable(base, f) && Hashable(over, f) then Items(Fold(Tables(base), f, over)) else BadKey
  }

  /** _merge_arrays. */
  function MergeArrays(base: seq<Value>, over: seq<Value>): Result {
    match DetectField(base + over)
    case None => Ok(Array(base + over))
    case Some(f) =>
      match MergedByKey(base, over, f)
      case Items(items) => Ok(Array(items))
      case BadKey => TypeError
  }

  /** The method form of _merge_by_key: a result list, and the last index of each key so far. */
  method MergeByKey(base: seq<Value>, over: seq<Value>, f: Field) returns (r: ListResult)
    ensures r == MergedByKey(base, over, f)
  {
    var ok: bool, result: seq<Value>, indexByKey: map<Key, nat>;
    ok, result, indexByKey := CopyBase(base, f);
    if !ok { return BadKey; }
    assert over[..0] == [];
    for i := 0 to |over|
      invariant result == Fold(Tables(base), f, over[..i]) && Hashable(over[..i], f)
      invariant IndexOf(result, f, indexByKey)
    {
      var item := over[i];
      assert over[..i + 1][..i] == over[..i];
      if Unhashable(item, f) { return BadKey; }
      IndexAppend(result, f, indexByKey, item);
      IndexReplace(result, f, indexByKey, item);
      match KeyOf(item, f) {
        case None => result := result + [item];
        case Some(key) =>
          if key in indexByKey {
            result := result[indexByKey[key] := item];
          } else {
            indexByKey := indexByKey[key := |result|];
            result := result + [item];
          }
      }
    }
    assert over[..|over|] == over;
    return Items(result);
  }

  /** The first loop of _merge_by_key. */
  method CopyBase(base: seq<Value>, f: Field) returns (ok: bool, result: seq<Value>, indexByKey: map<Key, nat>)
    ensures ok <==> Hashable(base, f)
    ensures ok ==> result == Tables(base) && IndexOf(result, f, indexByKey)
  {
    ok, result, indexByKey := true, [], map[];
    for i := 0 to |base|
      invariant ok && result == Tables(base[..i]) && Hashable(base[..i], f)
      invariant IndexOf(result, f, indexByKey)
    {
      var item := base[i];
      assert base[..i + 1][..i] == base[..i];
      if !item.Table? { continue; }
      if Unhashable(item, f) { return false, result, indexByKey; }
      IndexAppend(result, f, indexByKey, item);
      if KeyOf(item, f).Some? {
        indexByKey := indexByKey[KeyOf(item, f).value := |result|];
      }
      result := result + [item];
    }
    assert base[..|base|] == base;
  }

  /** The index maps each key of the list, and no other, to its last position. */
  ghost predicate IndexOf(s: seq<Value>, f: Field, index: map<Key, nat>) {
    forall k :: (k in index <==> LastIndex(s, f, k) >= 0) && (k in index ==> index[k] == LastIndex(s, f, k))
  }

  lemma IndexAppend(s: seq<Value>, f: Field, index: map<Key, nat>, item: Value)
    requires IndexOf(s, f, index)
    ensures IndexOf(s + [item], f, if KeyOf(item, f).Some? then index[KeyOf(item, f).value := |s|] else index)
  {
    forall k { LastIndexAppend(s, f, k, item); }
  }

  lemma IndexReplace(s: seq<Value>, f: Field, index: map<Key, nat>, item: Value)
    requires IndexOf(s, f, index)
    ensures KeyOf(item, f).Some? && KeyOf(item, f).value in index ==>
      index[KeyOf(item, f).value] < |s| && IndexOf(s[index[KeyOf(item, f).value] := item], f, index)
  {
    if KeyOf(item, f).Some? && KeyOf(item, f).value in index {
      forall k { LastIndexUpdate(s, f, k, index[KeyOf(item, f).value], item); }
    }
  }

  // ---- Tables ----

  /** deep_merge. */
  function DeepMerge(base: Value, over: Value): Result
    decreases over
  {
    match (base, over)
    case (Table(b), Table(o)) =>
      if exists k :: k in b && k in o && DeepMerge(b[k], o[k]).TypeError? then TypeError
      else Ok(Table(map k | k in b.Keys + o.Keys ::
        if k !in o then b[k] else if k !in b then o[k] else DeepMerge(b[k], o[k]).value))
    case (Array(b), Array(o)) => MergeArrays(b, o)
    case _ => Ok(over)
  }

  lemma MergedTables(b: map<Field, Value>, o: map<Field, Value>, result: map<Field, Value>)
    requires result.Keys == b.Keys + o.Keys
    requires forall k :: k in o && k in b ==> DeepMerge(b[k], o[k]) == Ok(result[k])
    requires forall k :: k in o && k !in b ==> result[k] == o[k]
    requires forall k :: k in b && k !in o ==> result[k] == b[k]
    ensures DeepMerge(Table(b), Table(o)) == Ok(Table(result))
  {
    var r := DeepMerge(Table(b), Table(o));
    assert r.Ok?;
    assert r.value.fields == result;
  }

  /** The loop form of deep_merge: a copy of base that the override's entries are merged into one by one. */
  method Merge(base: Value, over: Value) returns (r: Result)
    ensures r == DeepMerge(base, over)
    decreases over
  {
    if base.Table? && over.Table? {
      var b, o := base.fields, over.fields;
      var result, todo := b, o.Keys;
      while todo != {}
        invariant todo <= o.Keys && result.Keys == b.Keys + (o.Keys - todo)
        invariant forall k :: k in o && k !in todo && k in b ==> DeepMerge(b[k], o[k]) == Ok(result[k])
        invariant forall k :: k in o && k !in todo && k !in b ==> result[k] == o[k]
        invariant forall k :: k in b && (k !in o || k in todo) ==> result[k] == b[k]
        decreases todo
      {
        var k :| k in todo;
        if k in result {
          assert k in b;
          var merged := Merge(result[k], o[k]);
          if merged.TypeError? { return TypeError; }
          result := result[k := merged.value];
        } else {
          result := result[k := o[k]];
        }
        todo := todo - {k};
      }
      MergedTables(b, o, result);
      return Ok(Table(result));
    }
    if base.Array? && over.Array? {
      var b, o := base.items, over.items;
      match DetectField(b + o) {
        case None => return Ok(Array(b + o));
        case Some(f) =>
          var merged := MergeByKey(b, o, f);
          if merged.BadKey? { return TypeError; }
          return Ok(Array(merged.items));
      }
    }
    return Ok(over);
  }

  // ---- When layers agree ----

  /** Two values can be layered in any grouping with others: same kind, tables agreeing on shared keys,
      arrays that on their own are keyed by the same field or both by none. Empty arrays agree with any. */
  ghost predicate Agree(a: Value, b: Value)
    decreases a
  {
    match (a, b)
    case (Leaf(_), Leaf(_)) => true
    case (Table(m), Table(n)) => forall k :: k in m && k in n ==> Agree(m[k], n[k])
    case (Array(x), Array(y)) => SameMode(x, y)
    case _ => false
  }

  predicate SameMode(x: seq<Value>, y: seq<Value>) {
    x == [] || y == [] || DetectField(x) == DetectField(y)
  }

  /** An array keyed by id has no id twice. (One keyed by code may repeat codes.) */
  predicate WellKeyedList(x: seq<Value>) {
    DetectField(x) == Some(ID) ==> UniqueKeys(x, ID)
  }

  ghost predicate WellKeyed(v: Value) {
    match v
    case Leaf(_) => true
    case Table(m) => forall k :: k in m ==> WellKeyed(m[k])
    case Array(x) => WellKeyedList(x)
  }

  lemma {:induction false} AgreeSymmetric(a: Value, b: Value)
    ensures Agree(a, b) == Agree(b, a)
    decreases a
  {
    if a.Table? && b.Table? {
      forall k | k in a.fields && k in b.fields { AgreeSymmetric(a.fields[k], b.fields[k]); }
    }
  }

  // ---- Detection over merged arrays ----

  lemma DetectNoneAppend(x: seq<Value>, y: seq<Value>)
    requires x != [] && DetectField(x) == None
    ensures DetectField(x + y) == None && DetectField(y + x) == None
  {
    var i :| 0 <= i < |x| && !HasField(x[i], CODE);
    var j :| 0 <= j < |x| && !HasField(x[j], ID);
    assert (x + y)[i] == x[i] && (x + y)[j] == x[j] && (y + x)[|y| + i] == x[i] && (y + x)[|y| + j] == x[j];
  }

  lemma DetectAppend(x: seq<Value>, y: seq<Value>)
    requires SameMode(x, y)
    ensures x != [] ==> DetectField(x + y) == DetectField(x)
    ensures y != [] ==> DetectField(x + y) == DetectField(y)
  {
    if x == [] {
      assert x + y == y;
    } else if y == [] {
      assert x + y == x;
    } else if DetectField(x) == None {
      DetectNoneAppend(x, y);
    } else {
      var s := x + y;
      if DetectField(x) == Some(CODE) {
        assert AllHave(s, CODE);
      } else {
        assert AllHave(s, ID);
        var i :| 0 <= i < |x| && !HasField(x[i], CODE);
        assert s[i] == x[i];
      }
    }
  }

  lemma {:induction false} TablesAll(x: seq<Value>, f: Field)
    requires AllHave(x, f)
    ensures Tables(x) == x
  {
    if x != [] {
      var front := x[..|x| - 1];
      assert AllHave(front, f);
      TablesAll(front, f);
      assert x == front + [x[|x| - 1]];
    }
  }

  /** The keyed list that an array stands for once its layers' common field is f. */
  ghost predicate KeyedBy(x: seq<Value>, f: Field) {
    x == [] || (DetectField(x) == Some(f) && (f == ID ==> UniqueKeys(x, ID)))
  }

  lemma KeyedAll(x: seq<Value>, f: Field)
    requires KeyedBy(x, f)
    ensures AllHave(x, f) && Tables(x) == x
  {
    TablesAll(x, f);
  }

  lemma FoldAllHave(x: seq<Value>, f: Field, y: seq<Value>)
    requires AllHave(x, f) && AllHave(y, f)
    ensures AllHave(Fold(x, f, y), f)
    ensures Hashable(x, f) && Hashable(y, f) ==> Hashable(Fold(x, f, y), f)
  {
    forall i | 0 <= i < |Fold(x, f, y)| ensures HasField(Fold(x, f, y)[i], f) {
      FoldMembers(x, f, y, Fold(x, f, y)[i]);
    }
    if Hashable(x, f) && Hashable(y, f) {
      forall i | 0 <= i < |Fold(x, f, y)| ensures !Unhashable(Fold(x, f, y)[i], f) {
        FoldMembers(x, f, y, Fold(x, f, y)[i]);
      }
    }
  }

  lemma FoldEmpty(x: seq<Value>, f: Field, y: seq<Value>)
    ensures Fold(x, f, y) == [] <==> x == [] && y == []
  {
    if x != [] { FoldKeepsOrder(x, f, y, 0); }
    if y != [] {
      var front, w := y[..|y| - 1], y[|y| - 1];
      assert |Fold(x, f, y)| >= 1;
    }
  }

  /** A merged keyed array is still keyed by the field its layers were keyed by. */
  lemma FoldKeyedBy(x: seq<Value>, f: Field, y: seq<Value>)
    requires f == CODE || f == ID
    requires KeyedBy(x, f) && KeyedBy(y, f) && Hashable(x, f) && Hashable(y, f)
    ensures KeyedBy(Fold(x, f, y), f) && Hashable(Fold(x, f, y), f)
  {
    KeyedAll(x, f);
    KeyedAll(y, f);
    FoldAllHave(x, f, y);
    FoldEmpty(x, f, y);
    var m := Fold(x, f, y);
    if f == ID {
      FoldUnique(x, f, y);
      if y != [] {
        CodelessStays(x, y);
      } else if x != [] {
        assert m == x;
      }
    }
  }

  lemma CodelessStays(x: seq<Value>, y: seq<Value>)
    requires KeyedBy(y, ID) && y != [] && Hashable(y, ID)
    ensures !AllHave(Fold(x, ID, y), CODE)
  {
    var i :| 0 <= i < |y| && !HasField(y[i], CODE);
    assert HasField(y[i], ID) && !Unhashable(y[i], ID);
    FoldKeepsOverride(x, ID, y, i);
    var j :| 0 <= j < |Fold(x, ID, y)| && Fold(x, ID, y)[j] == y[i];
  }

  lemma MergeKeyed(x: seq<Value>, y: seq<Value>, f: Field)
    requires f == CODE || f == ID
    requires KeyedBy(x, f) && KeyedBy(y, f)
    ensures MergeArrays(x, y) == if Hashable(x, f) && Hashable(y, f) then Ok(Array(Fold(x, f, y))) else TypeError
  {
    DetectAppend(x, y);
    KeyedAll(x, f);
    if x + y == [] { assert x == [] && y == []; }
  }

  lemma MergePlain(x: seq<Value>, y: seq<Value>)
    requires DetectField(x) == None && DetectField(y) == None
    ensures MergeArrays(x, y) == Ok(Array(x + y)) && DetectField(x + y) == None
  {
    DetectAppend(x, y);
    if x == [] && y == [] { assert x + y == []; }
  }

  // ---- Associativity ----

  function ThenMerge(r: Result, over: Value): Result {
    match r case TypeError => TypeError case Ok(v) => DeepMerge(v, over)
  }

  function MergeOnto(base: Value, r: Result): Result {
    match r case TypeError => TypeError case Ok(v) => DeepMerge(base, v)
  }

  lemma ArraysAssociative(x: seq<Value>, y: seq<Value>, z: seq<Value>)
    requires SameMode(x, y) && SameMode(y, z) && SameMode(x, z)
    requires WellKeyedList(x) && WellKeyedList(y) && WellKeyedList(z)
    ensures ThenMerge(MergeArrays(x, y), Array(z)) == MergeOnto(Array(x), MergeArrays(y, z))
  {
    var d := if x != [] then DetectField(x) else if y != [] then DetectField(y) else DetectField(z);
    match d
    case None =>
      MergePlain(x, y);
      MergePlain(y, z);
      MergePlain(x + y, z);
      MergePlain(x, y + z);
      assert (x + y) + z == x + (y + z);
    case Some(f) => KeyedAssociative(x, y, z, f);
  }

  /** MergeKeyed for two array values. */
  lemma KeyedValues(x: seq<Value>, y: seq<Value>, f: Field)
    requires f == CODE || f == ID
    requires KeyedBy(x, f) && KeyedBy(y, f)
    ensures DeepMerge(Array(x), Array(y))
      == if Hashable(x, f) && Hashable(y, f) then Ok(Array(Fold(x, f, y))) else TypeError
  {
    MergeKeyed(x, y, f);
  }

  lemma LeftGrouping(x: seq<Value>, y: seq<Value>, z: seq<Value>, f: Field)
    requires f == CODE || f == ID
    requires KeyedBy(x, f) && KeyedBy(y, f) && KeyedBy(z, f)
    ensures ThenMerge(MergeArrays(x, y), Array(z)) ==
      if Hashable(x, f) && Hashable(y, f) && Hashable(z, f) then Ok(Array(Fold(Fold(x, f, y), f, z))) else TypeError
  {
    MergeKeyed(x, y, f);
    if Hashable(x, f) && Hashable(y, f) {
      FoldKeyedBy(x, f, y);
      KeyedValues(Fold(x, f, y), z, f);
    }
  }

  lemma RightGrouping(x: seq<Value>, y: seq<Value>, z: seq<Value>, f: Field)
    requires f == CODE || f == ID
    requires KeyedBy(x, f) && KeyedBy(y, f) && KeyedBy(z, f)
    ensures MergeOnto(Array(x), MergeArrays(y, z)) ==
      if Hashable(x, f) && Hashable(y, f) && Hashable(z, f) then Ok(Array(Fold(x, f, Fold(y, f, z)))) else TypeError
  {
    MergeKeyed(y, z, f);
    if Hashable(y, f) && Hashable(z, f) {
      FoldKeyedBy(y, f, z);
      KeyedValues(x, Fold(y, f, z), f);
    }
  }

  lemma KeyedAssociative(x: seq<Value>, y: seq<Value>, z: seq<Value>, f: Field)
    requires f == CODE || f == ID
    requires KeyedBy(x, f) && KeyedBy(y, f) && KeyedBy(z, f)
    ensures ThenMerge(MergeArrays(x, y), Array(z)) == MergeOnto(Array(x), MergeArrays(y, z))
  {
    LeftGrouping(x, y, z, f);
    RightGrouping(x, y, z, f);
    FoldAssociative(x, f, y, z);
  }

  /** Both groupings of three layers give the same result, and fail on the same inputs, when the layers agree. */
  lemma {:induction false} MergeAssociative(a: Value, b: Value, c: Value)
    requires Agree(a, b) && Agree(b, c) && Agree(a, c)
    requires WellKeyed(a) && WellKeyed(b) && WellKeyed(c)
    ensures ThenMerge(DeepMerge(a, b), c) == MergeOnto(a, DeepMerge(b, c))
    decreases a
  {
    if a.Array? {
      ArraysAssociative(a.items, b.items, c.items);
    } else if a.Table? {
      var x, y, z := a.fields, b.fields, c.fields;
      forall k | k in x && k in y && k in z
        ensures ThenMerge(DeepMerge(x[k], y[k]), z[k]) == MergeOnto(x[k], DeepMerge(y[k], z[k]))
      {
        MergeAssociative(x[k], y[k], z[k]);
      }
      TablesAssociative(x, y, z);
    }
  }

  function At(m: map<Field, Value>, k: Field): Option<Value> {
    if k in m then Some(m[k]) else None
  }

  /** Merging at one field: what either side lacks, the other supplies. */
  function MergeAt(x: Option<Value>, y: Option<Value>): Option<Result> {
    match (x, y)
    case (None, None) => None
    case (Some(v), None) => Some(Ok(v))
    case (None, Some(w)) => Some(Ok(w))
    case (Some(v), Some(w)) => Some(DeepMerge(v, w))
  }

  predicate FailsAt(x: map<Field, Value>, y: map<Field, Value>, k: Field) {
    MergeAt(At(x, k), At(y, k)) == Some(TypeError)
  }

  lemma TablesByField(x: map<Field, Value>, y: map<Field, Value>)
    ensures DeepMerge(Table(x), Table(y)).TypeError? <==> exists k :: FailsAt(x, y, k)
    ensures DeepMerge(Table(x), Table(y)).Ok? ==>
      var m := DeepMerge(Table(x), Table(y)).value;
      m.Table? && m.fields.Keys == x.Keys + y.Keys &&
      forall k :: k in m.fields ==> MergeAt(At(x, k), At(y, k)) == Some(Ok(m.fields[k]))
  {
    if k :| k in x && k in y && DeepMerge(x[k], y[k]).TypeError? { assert FailsAt(x, y, k); }
  }

  function ThenAt(r: Option<Result>, z: Option<Value>): Option<Result> {
    match r
    case None => MergeAt(None, z)
    case Some(TypeError) => Some(TypeError)
    case Some(Ok(v)) => MergeAt(Some(v), z)
  }

  function OntoAt(x: Option<Value>, r: Option<Result>): Option<Result> {
    match r
    case None => MergeAt(x, None)
    case Some(TypeError) => Some(TypeError)
    case Some(Ok(v)) => MergeAt(x, Some(v))
  }

  /** Both groupings of three tables, seen at one field. */
  function LeftAt(x: map<Field, Value>, y: map<Field, Value>, z: map<Field, Value>, k: Field): Option<Result> {
    ThenAt(MergeAt(At(x, k), At(y, k)), At(z, k))
  }

  function RightAt(x: map<Field, Value>, y: map<Field, Value>, z: map<Field, Value>, k: Field): Option<Result> {
    OntoAt(At(x, k), MergeAt(At(y, k), At(z, k)))
  }

  /** r is the merged table that has at each field what at says there, or the error if that fails anywhere. */
  ghost predicate ByField(r: Result, keys: set<Field>, at: Field -> Option<Result>) {
    && (r.TypeError? <==> exists k :: at(k) == Some(TypeError))
    && (r.Ok? ==> r.value.Table? && r.value.fields.Keys == keys)
    && (r.Ok? ==> forall k :: k in keys ==> at(k) == Some(Ok(r.value.fields[k])))
  }

  lemma LeftByField(x: map<Field, Value>, y: map<Field, Value>, z: map<Field, Value>)
    ensures ByField(ThenMerge(DeepMerge(Table(x), Table(y)), Table(z)), x.Keys + y.Keys + z.Keys,
                    k => LeftAt(x, y, z, k))
  {
    var at := k => LeftAt(x, y, z, k);
    var xy := DeepMerge(Table(x), Table(y));
    TablesByField(x, y);
    if xy.TypeError? {
      var k :| FailsAt(x, y, k);
      assert at(k) == Some(TypeError);
    } else {
      var m := xy.value.fields;
      TablesByField(m, z);
      forall k ensures at(k) == MergeAt(At(m, k), At(z, k)) { assert k in m <==> k in x || k in y; }
      if k :| FailsAt(m, z, k) { assert at(k) == Some(TypeError); }
      if k :| at(k) == Some(TypeError) { assert FailsAt(m, z, k); }
    }
  }

  lemma RightByField(x: map<Field, Value>, y: map<Field, Value>, z: map<Field, Value>)
    ensures ByField(MergeOnto(Table(x), DeepMerge(Table(y), Table(z))), x.Keys + y.Keys + z.Keys,
                    k => RightAt(x, y, z, k))
  {
    var at := k => RightAt(x, y, z, k);
    var yz := DeepMerge(Table(y), Table(z));
    TablesByField(y, z);
    if yz.TypeError? {
      var k :| FailsAt(y, z, k);
      assert at(k) == Some(TypeError);
    } else {
      var m := yz.value.fields;
      TablesByField(x, m);
      forall k ensures at(k) == MergeAt(At(x, k), At(m, k)) { assert k in m <==> k in y || k in z; }
      if k :| FailsAt(x, m, k) { assert at(k) == Some(TypeError); }
      if k :| at(k) == Some(TypeError) { assert FailsAt(x, m, k); }
    }
  }

  lemma SameByField(r: Result, r': Result, keys: set<Field>, at: Field -> Option<Result>, at': Field -> Option<Result>)
    requires ByField(r, keys, at) && ByField(r', keys, at')
    requires forall k :: at(k) == at'(k)
    ensures r == r'
  {
    if r.Ok? {
      forall k | k in keys ensures r.value.fields[k] == r'.value.fields[k] {
        assert at(k) == at'(k);
      }
      assert r.value.fields == r'.value.fields;
    }
  }

  lemma FieldAssociative(x: map<Field, Value>, y: map<Field, Value>, z: map<Field, Value>, k: Field)
    requires k in x && k in y && k in z ==>
      ThenMerge(DeepMerge(x[k], y[k]), z[k]) == MergeOnto(x[k], DeepMerge(y[k], z[k]))
    ensures LeftAt(x, y, z, k) == RightAt(x, y, z, k)
  {
  }

  lemma TablesAssociative(x: map<Field, Value>, y: map<Field, Value>, z: map<Field, Value>)
    requires forall k :: k in x && k in y && k in z ==>
      ThenMerge(DeepMerge(x[k], y[k]), z[k]) == MergeOnto(x[k], DeepMerge(y[k], z[k]))
    ensures ThenMerge(DeepMerge(Table(x), Table(y)), Table(z)) == MergeOnto(Table(x), DeepMerge(Table(y), Table(z)))
  {
    LeftByField(x, y, z);
    RightByField(x, y, z);
    forall k { FieldAssociative(x, y, z, k); }
    SameByField(ThenMerge(DeepMerge(Table(x), Table(y)), Table(z)), MergeOnto(Table(x), DeepMerge(Table(y), Table(z))),
                x.Keys + y.Keys + z.Keys, k => LeftAt(x, y, z, k), k => RightAt(x, y, z, k));
  }

  // ---- Agreement survives merging, so any number of layers may be regrouped ----

  /** The merge of two agreeing layers is well keyed and agrees with whatever agreed with both. */
  lemma {:induction false} MergeAgrees(a: Value, b: Value, c: Value)
    requires Agree(a, b) && Agree(a, c) && Agree(b, c)
    requires WellKeyed(a) && WellKeyed(b) && WellKeyed(c)
    requires DeepMerge(a, b).Ok?
    ensures WellKeyed(DeepMerge(a, b).value) && Agree(DeepMerge(a, b).value, c)
    decreases a
  {
    if a.Array? {
      ArraysAgree(a.items, b.items, c.items);
    } else if a.Table? {
      var x, y, z := a.fields, b.fields, c.fields;
      TablesByField(x, y);
      var m := DeepMerge(a, b).value.fields;
      forall k | k in m ensures WellKeyed(m[k]) && (k in z ==> Agree(m[k], z[k])) {
        assert MergeAt(At(x, k), At(y, k)) == Some(Ok(m[k]));
        if k in x && k in y {
          AgreeReflexive(y[k]);
          MergeAgrees(x[k], y[k], if k in z then z[k] else y[k]);
        }
      }
    }
  }

  lemma {:induction false} AgreeReflexive(a: Value)
    ensures Agree(a, a)
    decreases a
  {
    if a.Table? {
      forall k | k in a.fields { AgreeReflexive(a.fields[k]); }
    }
  }

  lemma ArraysAgree(x: seq<Value>, y: seq<Value>, z: seq<Value>)
    requires SameMode(x, y) && SameMode(y, z) && SameMode(x, z)
    requires WellKeyedList(x) && WellKeyedList(y) && WellKeyedList(z)
    requires MergeArrays(x, y).Ok?
    ensures var m := MergeArrays(x, y).value; m.Array? && WellKeyedList(m.items) && SameMode(m.items, z)
  {
    var d := if x != [] then DetectField(x) else if y != [] then DetectField(y) else DetectField(z);
    match d
    case None => MergePlain(x, y);
    case Some(f) =>
      MergeKeyed(x, y, f);
      FoldKeyedBy(x, f, y);
  }

  function MergeBoth(r: Result, s: Result): Result {
    match r case TypeError => TypeError case Ok(v) => MergeOnto(v, s)
  }

  /** The four-layer fold of the central configuration equals every other grouping of the same layers. */
  lemma FourLayers(a: Value, b: Value, c: Value, d: Value)
    requires Agree(a, b) && Agree(a, c) && Agree(a, d) && Agree(b, c) && Agree(b, d) && Agree(c, d)
    requires WellKeyed(a) && WellKeyed(b) && WellKeyed(c) && WellKeyed(d)
    ensures var fold := ThenMerge(ThenMerge(DeepMerge(a, b), c), d);
      && fold == ThenMerge(MergeOnto(a, DeepMerge(b, c)), d)
      && fold == MergeOnto(a, ThenMerge(DeepMerge(b, c), d))
      && fold == MergeOnto(a, MergeOnto(b, DeepMerge(c, d)))
      && fold == MergeBoth(DeepMerge(a, b), DeepMerge(c, d))
  {
    MergeAssociative(a, b, c);
    MergeAssociative(b, c, d);
    if DeepMerge(b, c).Ok? {
      var bc := DeepMerge(b, c).value;
      AgreeSymmetric(a, b);
      AgreeSymmetric(a, c);
      MergeAgrees(b, c, d);
      MergeAgrees(b, c, a);
      AgreeSymmetric(bc, a);
      MergeAssociative(a, bc, d);
    }
    if DeepMerge(a, b).Ok? {
      MergeAgrees(a, b, c);
      MergeAgrees(a, b, d);
      MergeAssociative(DeepMerge(a, b).value, c, d);
    }
  }

  // ---- Why layers have to agree ----

  /** A scalar between two tables: one grouping keeps the first table's entries, the other drops them. */
  lemma KindsMatter(k: Field, v: Value, s: Scalar)
    ensures var a, b, c := Table(map[k := v]), Leaf(s), Table(map[]);
      ThenMerge(DeepMerge(a, b), c) == Ok(Table(map[])) && MergeOnto(a, DeepMerge(b, c)) == Ok(a)
  {
    var a := map[k := v];
    TablesByField(a, map[]);
    var m := DeepMerge(Table(a), Table(map[])).value;
    assert m.fields == a;
  }

  function Item(id: Scalar): Value { Table(map[ID := Leaf(id)]) }

  function Coded(id: Scalar, code: Scalar): Value { Table(map[ID := Leaf(id), CODE := Leaf(code)]) }

  lemma ItemKeys(id: Scalar, code: Scalar)
    ensures KeyOf(Item(id), ID) == KeyOf(Coded(id, code), ID) == Some(ScalarKey(id))
    ensures KeyOf(Coded(id, code), CODE) == Some(ScalarKey(code))
    ensures HasField(Item(id), ID) && !HasField(Item(id), CODE)
    ensures HasField(Coded(id, code), ID) && HasField(Coded(id, code), CODE)
  {
    assert |CODE.name| != |ID.name|;
  }

  lemma FoldOne(base: seq<Value>, f: Field, u: Value)
    ensures Fold(base, f, [u]) == Step(base, f, u)
  {
    FoldAppend(base, f, [], u);
    assert [] + [u] == [u];
  }

  lemma FoldTwo(base: seq<Value>, f: Field, u: Value, w: Value)
    ensures Fold(base, f, [u, w]) == Step(Step(base, f, u), f, w)
  {
    FoldAppend(base, f, [u], w);
    assert [u] + [w] == [u, w];
    FoldOne(base, f, u);
  }

  lemma ReplaceOne(f: Field, u: Value, w: Value)
    requires KeyOf(u, f).Some? && KeyOf(u, f) == KeyOf(w, f)
    ensures Step([u], f, w) == [w]
  {
    LastIndexIs([u], f, KeyOf(u, f).value, 0);
  }

  lemma AppendOne(f: Field, u: Value, w: Value)
    requires KeyOf(u, f) != KeyOf(w, f)
    ensures Step([u], f, w) == [u, w]
  {
    assert [u] + [w] == [u, w];
    if KeyOf(w, f).Some? { assert LastIndex([u], f, KeyOf(w, f).value) < 0; }
  }

  /** Arrays that are keyed and arrays that are not, at one path: the groupings differ. */
  lemma ModesMatter(i: Scalar, c: Scalar)
    ensures var x, z := [Coded(i, c)], [Leaf(i)];
      && ThenMerge(MergeArrays(x, x), Array(z)) == Ok(Array(x + z))
      && MergeOnto(Array(x), MergeArrays(x, z)) == Ok(Array(x + (x + z)))
  {
    var u := Coded(i, c);
    var x, z := [u], [Leaf(i)];
    ItemKeys(i, c);
    assert AllHave(x, CODE) && !HasField(z[0], CODE) && !HasField(z[0], ID);
    MergeKeyed(x, x, CODE);
    FoldOne(x, CODE, u);
    ReplaceOne(CODE, u, u);
    DetectNoneAppend(z, x);
    DetectNoneAppend(x + z, x);
  }

  /** A list keyed by id that repeats its ids can lose all its items without a code, and then be taken for one
      keyed by code: the groupings differ. */
  lemma RepeatedIdsMatter(i: Scalar, j: Scalar, c: Scalar)
    requires ScalarKey(i) != ScalarKey(j)
    ensures var y, z := [Item(i)], [Item(i), Coded(i, c)] + [Item(j), Coded(j, c)];
      && ThenMerge(MergeArrays([], y), Array(z)) == Ok(Array([Coded(i, c), Coded(j, c)]))
      && MergeOnto(Array([]), MergeArrays(y, z)) == Ok(Array([Coded(j, c)]))
  {
    ItemKeys(i, c);
    var y := [Item(i)];
    IdListMerges(i, j, c);
    CodeListMerges(i, j, c);
    assert AllHave(y, ID) && !HasField(y[0], CODE);
    MergeKeyed([], y, ID);
    FoldOne([], ID, Item(i));
    assert Step([], ID, Item(i)) == [] + y == y;
  }

  lemma IdListMerges(i: Scalar, j: Scalar, c: Scalar)
    requires ScalarKey(i) != ScalarKey(j)
    ensures MergeArrays([Item(i)], [Item(i), Coded(i, c)] + [Item(j), Coded(j, c)])
      == Ok(Array([Coded(i, c), Coded(j, c)]))
  {
    var y, z1, z2 := [Item(i)], [Item(i), Coded(i, c)], [Item(j), Coded(j, c)];
    ItemKeys(i, c);
    ItemKeys(j, c);
    IdListFolds(i, j, c);
    PairHas(Item(i), Coded(i, c));
    PairHas(Item(j), Coded(j, c));
    assert AllHave(z1 + z2, ID) && Hashable(z1 + z2, ID);
    MergeById(y, z1 + z2);
  }

  lemma PairHas(u: Value, w: Value)
    requires HasField(u, ID) && HasField(w, ID) && !Unhashable(u, ID) && !Unhashable(w, ID)
    ensures AllHave([u, w], ID) && Hashable([u, w], ID)
  {
  }

  lemma MergeById(x: seq<Value>, y: seq<Value>)
    requires AllHave(x, ID) && AllHave(y, ID) && Hashable(x, ID) && Hashable(y, ID)
    requires x != [] && !HasField(x[0], CODE)
    ensures MergeArrays(x, y) == Ok(Array(Fold(x, ID, y)))
  {
    var all := x + y;
    assert AllHave(all, ID) && !HasField(all[0], CODE);
    TablesAll(x, ID);
  }

  lemma IdListFolds(i: Scalar, j: Scalar, c: Scalar)
    requires ScalarKey(i) != ScalarKey(j)
    ensures Fold([Item(i)], ID, [Item(i), Coded(i, c)] + [Item(j), Coded(j, c)]) == [Coded(i, c), Coded(j, c)]
  {
    ItemKeys(i, c);
    ItemKeys(j, c);
    FoldConcat([Item(i)], ID, [Item(i), Coded(i, c)], [Item(j), Coded(j, c)]);
    FoldTwo([Item(i)], ID, Item(i), Coded(i, c));
    StepTwice([Item(i)], ID, Item(i), Coded(i, c));
    ReplaceOne(ID, Item(i), Coded(i, c));
    FoldTwo([Coded(i, c)], ID, Item(j), Coded(j, c));
    StepTwice([Coded(i, c)], ID, Item(j), Coded(j, c));
    AppendOne(ID, Coded(i, c), Coded(j, c));
  }

  lemma CodeListMerges(i: Scalar, j: Scalar, c: Scalar)
    ensures MergeArrays([], [Coded(i, c), Coded(j, c)]) == Ok(Array([Coded(j, c)]))
  {
    ItemKeys(i, c);
    ItemKeys(j, c);
    var m := [Coded(i, c), Coded(j, c)];
    assert AllHave(m, CODE);
    MergeKeyed([], m, CODE);
    FoldTwo([], CODE, Coded(i, c), Coded(j, c));
    StepTwice([], CODE, Coded(i, c), Coded(j, c));
    assert Step([], CODE, Coded(j, c)) == [] + [Coded(j, c)] == [Coded(j, c)];
  }

  lemma {:induction false} FoldConcat(base: seq<Value>, f: Field, y: seq<Value>, z: seq<Value>)
    ensures Fold(base, f, y + z) == Fold(Fold(base, f, y), f, z)
  {
    if z == [] {
      assert y + z == y;
    } else {
      var front, w := z[..|z| - 1], z[|z| - 1];
      FoldConcat(base, f, y, front);
      assert y + z == (y + front) + [w];
      FoldAppend(base, f, y + front, w);
    }
  }

  // ---- Looking up a path ----

  /** extract_key, on the path split at its dots. */
  function Extract(v: Value, path: seq<Field>): Option<Value>
    decreases |path|
  {
    if path == [] then Some(v)
    else if v.Table? && path[0] in v.fields then Extract(v.fields[path[0]], path[1..])
    else None
  }

  /** Extracting from merged layers is merging what the path finds in each. */
  lemma {:induction false} ExtractMerged(a: Value, b: Value, path: seq<Field>)
    requires Agree(a, b) && DeepMerge(a, b).Ok?
    ensures MergeAt(Extract(a, path), Extract(b, path)) ==
      match Extract(DeepMerge(a, b).value, path) case None => None case Some(v) => Some(Ok(v))
    decreases |path|
  {
    if path != [] && a.Table? {
      var k := path[0];
      TablesByField(a.fields, b.fields);
      var m := DeepMerge(a, b).value.fields;
      assert k in m ==> MergeAt(At(a.fields, k), At(b.fields, k)) == Some(Ok(m[k]));
      if k in a.fields && k in b.fields {
        ExtractMerged(a.fields[k], b.fields[k], path[1..]);
      }
    }
  }
}
