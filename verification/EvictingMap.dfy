/** A map of per-key state machines that drops its oldest key when it holds too many. As long as a key stays, it sees
    nothing but its own calls. */
module EvictingMap {
  import opened Options

  datatype Key = Key(text: string)

  /** The states, and their keys in insertion order. */
  datatype Store<B> = Store(states: map<Key, B>, order: seq<Key>)

  /** One call: from the key's state, if it has one, and the time, to its new state and the answer. */
  type Machine<!B, !A> = (Option<B>, int) -> (B, A)

  datatype Op = Call(key: Key, now: int) | Reset(key: Key) | ResetAll

  function WithoutKey(s: seq<Key>, k: Key): seq<Key> {
    if s == [] then [] else (if s[0] == k then [] else [s[0]]) + WithoutKey(s[1..], k)
  }

  /** evictIfNeeded. */
  function Evict<B>(maxKeys: nat, st: Store<B>): Store<B> {
    if |st.order| > maxKeys then Store(st.states - {st.order[0]}, st.order[1..]) else st
  }

  /** A key without a state gets one, at the end of the order, and may push out the oldest. */
  function CallKey<B, A>(machine: Machine<B, A>, maxKeys: nat, st: Store<B>, k: Key, now: int): (Store<B>, A) {
    if k in st.states then
      var (b, a) := machine(Some(st.states[k]), now);
      (st.(states := st.states[k := b]), a)
    else
      var (b, a) := machine(None, now);
      (Evict(maxKeys, Store(st.states[k := b], st.order + [k])), a)
  }

  function ResetKey<B>(st: Store<B>, k: Key): Store<B> {
    Store(st.states - {k}, WithoutKey(st.order, k))
  }

  function Apply<B, A>(machine: Machine<B, A>, maxKeys: nat, st: Store<B>, op: Op): Store<B> {
    match op
    case Call(k, now) => CallKey(machine, maxKeys, st, k, now).0
    case Reset(k) => ResetKey(st, k)
    case ResetAll => Store(map[], [])
  }

  function Run<B, A>(machine: Machine<B, A>, maxKeys: nat, st: Store<B>, ops: seq<Op>): Store<B> {
    if ops == [] then st else Apply(machine, maxKeys, Run(machine, maxKeys, st, ops[..|ops| - 1]), ops[|ops| - 1])
  }

  // ---- The key list ----

  /** The order lists exactly the keys that have a state, each once. */
  ghost predicate Lists(order: seq<Key>, keys: set<Key>) {
    if order == [] then keys == {}
    else order[0] in keys && Lists(order[1..], keys - {order[0]})
  }

  lemma {:induction false} ListsAppend(order: seq<Key>, keys: set<Key>, k: Key)
    requires Lists(order, keys) && k !in keys
    ensures Lists(order + [k], keys + {k})
  {
    if order == [] {
      assert [k][1..] == [] && {k} - {k} == {} && keys + {k} == {k};
    } else {
      ListsAppend(order[1..], keys - {order[0]}, k);
      assert (order + [k])[1..] == order[1..] + [k];
      assert keys + {k} - {order[0]} == keys - {order[0]} + {k};
    }
  }

  lemma {:induction false} ListsWithout(order: seq<Key>, keys: set<Key>, k: Key)
    requires Lists(order, keys)
    ensures Lists(WithoutKey(order, k), keys - {k}) && |WithoutKey(order, k)| <= |order|
  {
    if order != [] {
      var o := order[0];
      ListsWithout(order[1..], keys - {o}, k);
      var rest := WithoutKey(order[1..], k);
      if o == k {
        assert keys - {o} - {k} == keys - {k};
        assert WithoutKey(order, k) == rest;
      } else {
        assert WithoutKey(order, k) == [o] + rest;
        assert ([o] + rest)[1..] == rest;
        assert keys - {k} - {o} == keys - {o} - {k};
      }
    }
  }

  lemma {:induction false} ListsSize(order: seq<Key>, keys: set<Key>)
    requires Lists(order, keys)
    ensures |order| == |keys|
  {
    if order != [] {
      ListsSize(order[1..], keys - {order[0]});
    }
  }

  /** In every state: the order lists the keys, there are at most maxKeys, and every state satisfies inv. */
  ghost predicate Consistent<B>(maxKeys: nat, inv: B -> bool, st: Store<B>) {
    Lists(st.order, st.states.Keys) && |st.order| <= maxKeys && forall k :: k in st.states ==> inv(st.states[k])
  }

  ghost predicate Preserves<B(!new), A>(machine: Machine<B, A>, inv: B -> bool) {
    && (forall now :: inv(machine(None, now).0))
    && forall b, now :: inv(b) ==> inv(machine(Some(b), now).0)
  }

  lemma ApplyConsistent<B(!new), A>(machine: Machine<B, A>, maxKeys: nat, inv: B -> bool, st: Store<B>, op: Op)
    requires Preserves(machine, inv) && Consistent(maxKeys, inv, st)
    ensures Consistent(maxKeys, inv, Apply(machine, maxKeys, st, op))
  {
    match op
    case Call(k, now) =>
      if k in st.states {
        assert st.states[k := machine(Some(st.states[k]), now).0].Keys == st.states.Keys;
      } else {
        var more := Store(st.states[k := machine(None, now).0], st.order + [k]);
        ListsAppend(st.order, st.states.Keys, k);
        assert more.states.Keys == st.states.Keys + {k};
        assert (more.states - {more.order[0]}).Keys == more.states.Keys - {more.order[0]};
      }
    case Reset(k) =>
      ListsWithout(st.order, st.states.Keys, k);
      assert (st.states - {k}).Keys == st.states.Keys - {k};
    case ResetAll =>
  }

  /** No run ever holds more than maxKeys keys, or a state outside the invariant. */
  lemma {:induction false} RunConsistent<B(!new), A>(
      machine: Machine<B, A>, maxKeys: nat, inv: B -> bool, st: Store<B>, ops: seq<Op>)
    requires Preserves(machine, inv) && Consistent(maxKeys, inv, st)
    ensures Consistent(maxKeys, inv, Run(machine, maxKeys, st, ops))
    ensures |Run(machine, maxKeys, st, ops).states| <= maxKeys
  {
    if ops != [] {
      var front := ops[..|ops| - 1];
      RunConsistent(machine, maxKeys, inv, st, front);
      ApplyConsistent(machine, maxKeys, inv, Run(machine, maxKeys, st, front), ops[|ops| - 1]);
    }
    var end := Run(machine, maxKeys, st, ops);
    ListsSize(end.order, end.states.Keys);
  }

  // ---- One key on its own ----

  /** The times of the calls for k. */
  function TimesOf(ops: seq<Op>, k: Key): seq<int> {
    if ops == [] then []
    else TimesOf(ops[..|ops| - 1], k) + var op := ops[|ops| - 1]; if op.Call? && op.key == k then [op.now] else []
  }

  /** The answers that the calls for k get. */
  function AnswersTo<B, A>(machine: Machine<B, A>, maxKeys: nat, st: Store<B>, ops: seq<Op>, k: Key): seq<A> {
    if ops == [] then []
    else
      var front, op := ops[..|ops| - 1], ops[|ops| - 1];
      AnswersTo(machine, maxKeys, st, front, k) +
        if op.Call? && op.key == k then [CallKey(machine, maxKeys, Run(machine, maxKeys, st, front), k, op.now).1]
        else []
  }

  /** k has a state at the start and after every operation: it is neither evicted nor reset. */
  predicate Stays<B, A>(machine: Machine<B, A>, maxKeys: nat, st: Store<B>, ops: seq<Op>, k: Key) {
    k in Run(machine, maxKeys, st, ops).states && (ops == [] || Stays(machine, maxKeys, st, ops[..|ops| - 1], k))
  }

  /** One machine run on its own. */
  function After<B, A>(machine: Machine<B, A>, b: B, times: seq<int>): B {
    if times == [] then b else machine(Some(After(machine, b, times[..|times| - 1])), times[|times| - 1]).0
  }

  function Answers<B, A>(machine: Machine<B, A>, b: B, times: seq<int>): seq<A> {
    if times == [] then []
    else
      var front := times[..|times| - 1];
      Answers(machine, b, front) + [machine(Some(After(machine, b, front)), times[|times| - 1]).1]
  }

  /** A key that stays behaves as if it were alone: whatever other keys do, its state and the answers it gets are those
      of its own machine fed with its own calls. */
  lemma {:induction false} KeyAlone<B, A>(machine: Machine<B, A>, maxKeys: nat, st: Store<B>, ops: seq<Op>, k: Key)
    requires Stays(machine, maxKeys, st, ops, k)
    ensures k in st.states && k in Run(machine, maxKeys, st, ops).states
    ensures Run(machine, maxKeys, st, ops).states[k] == After(machine, st.states[k], TimesOf(ops, k))
    ensures AnswersTo(machine, maxKeys, st, ops, k) == Answers(machine, st.states[k], TimesOf(ops, k))
  {
    if ops != [] {
      var front, op := ops[..|ops| - 1], ops[|ops| - 1];
      KeyAlone(machine, maxKeys, st, front, k);
      var times, answers := TimesOf(front, k), AnswersTo(machine, maxKeys, st, front, k);
      if op.Call? && op.key == k {
        assert (times + [op.now])[..|times|] == times;
      } else {
        assert times + [] == times && answers + [] == answers;
      }
    }
  }
}
