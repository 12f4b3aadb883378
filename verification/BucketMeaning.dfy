/** What the limiter answers, number by number: the exact effect of a call on a bucket, bursts of a fresh key, the exact
    balance of a bucket that never fills up, and which key is forgotten. */
module BucketMeaning {
  import opened EvictingMap
  import opened Options
  import opened RateLimiter

  // ---- One call ----

  /** What a bucket holds when a call finds it: what it held and what the time since has earned, at most a full load. */
  function Found(l: Limits, b: Bucket, now: int): real
    requires l.windowMs > 0.0
  {
    var earned := if now > b.lastRefill then (now - b.lastRefill) as real * (l.capacity / l.windowMs) else 0.0;
    if b.tokens + earned <= l.capacity then b.tokens + earned else l.capacity
  }

  ghost predicate IsFloor(n: int, x: real) {
    n as real <= x < n as real + 1.0
  }

  lemma FoundIsRefilled(l: Limits, b: Bucket, now: int)
    requires Sensible(l) && Filled(l, b)
    ensures Refill(l, b, now).tokens == Found(l, b, now)
    ensures Refill(l, b, now).lastRefill == if now > b.lastRefill then now else b.lastRefill
  {
    RefillFacts(l, b, now);
  }

  /** A call is allowed exactly if it finds a token. It then takes that one token, and no more, and answers with the
      whole tokens left; a denied call takes nothing. The clock becomes the later of the two times. */
  lemma ConsumeExactly(l: Limits, b: Bucket, now: int)
    requires Sensible(l) && Filled(l, b)
    ensures var (b', a) := Consume(l, Some(b), now);
      var have := Found(l, b, now);
      && (a.Allowed? <==> have >= 1.0)
      && b'.tokens == (if a.Allowed? then have - 1.0 else have)
      && (a.Allowed? ==> IsFloor(a.remaining, have - 1.0))
      && b'.lastRefill == if now > b.lastRefill then now else b.lastRefill
  {
    FoundIsRefilled(l, b, now);
  }

  /** The first call of a key is allowed and takes one token of a full load. */
  lemma FirstCall(l: Limits, now: int)
    requires Sensible(l)
    ensures var (b, a) := Consume(l, None, now);
      && b == Bucket(l.capacity - 1.0, now)
      && a.Allowed? && IsFloor(a.remaining, l.capacity - 1.0)
  {
  }

  // ---- Bursts ----

  function Moments(now: int, n: nat): seq<int> {
    seq(n, _ => now)
  }

  /** How many calls a full load pays for. */
  function Whole(l: Limits): int {
    l.capacity.Floor
  }

  /** The bucket after i calls at one moment. */
  ghost predicate AfterBurst(l: Limits, now: int, b: Bucket, i: int) {
    && b.lastRefill == now
    && b.tokens == l.capacity - (if i <= Whole(l) then i else Whole(l)) as real
  }

  lemma BurstCall(l: Limits, now: int, b: Bucket, i: nat)
    requires Sensible(l) && AfterBurst(l, now, b, i)
    ensures var (b', a) := Consume(l, Some(b), now);
      && AfterBurst(l, now, b', i + 1)
      && (a.Allowed? <==> i + 1 <= Whole(l)) && (a.Allowed? ==> a.remaining == Whole(l) - (i + 1))
  {
  }

  /** Answers to a burst: as many are allowed as a full load pays for, and they count down to 0. */
  ghost predicate CountsDown(l: Limits, answers: seq<Answer>) {
    forall i {:trigger CountsAt(l, answers, i)} :: 0 <= i < |answers| ==> CountsAt(l, answers, i)
  }

  ghost predicate CountsAt(l: Limits, answers: seq<Answer>, i: nat)
    requires i < |answers|
  {
    && (answers[i].Allowed? <==> i + 1 <= Whole(l))
    && (answers[i].Allowed? ==> answers[i].remaining == Whole(l) - (i + 1))
  }

  lemma OneMoreAnswer(l: Limits, answers: seq<Answer>, a: Answer)
    requires CountsDown(l, answers)
    requires a.Allowed? <==> |answers| + 1 <= Whole(l)
    requires a.Allowed? ==> a.remaining == Whole(l) - (|answers| + 1)
    ensures CountsDown(l, answers + [a])
  {
    forall i | 0 <= i < |answers + [a]| ensures CountsAt(l, answers + [a], i) {
      assert i < |answers| ==> CountsAt(l, answers, i);
    }
  }

  lemma Turn(l: Limits, b: Bucket, front: seq<int>, now: int)
    requires Sensible(l)
    ensures var (b', a) := Consume(l, Some(After(Consumer(l), b, front)), now);
      && After(Consumer(l), b, front + [now]) == b'
      && Answers(Consumer(l), b, front + [now]) == Answers(Consumer(l), b, front) + [a]
  {
    assert (front + [now])[..|front|] == front;
  }

  lemma {:induction false} BurstState(l: Limits, now: int, b: Bucket, n: nat)
    requires Sensible(l) && AfterBurst(l, now, b, 1)
    ensures AfterBurst(l, now, After(Consumer(l), b, Moments(now, n)), n + 1)
  {
    if n > 0 {
      BurstState(l, now, b, n - 1);
      assert Moments(now, n) == Moments(now, n - 1) + [now];
      Turn(l, b, Moments(now, n - 1), now);
      BurstCall(l, now, After(Consumer(l), b, Moments(now, n - 1)), n);
    }
  }

  lemma {:induction false} BurstAnswers(l: Limits, now: int, b: Bucket, first: Answer, n: nat)
    requires Sensible(l) && AfterBurst(l, now, b, 1) && CountsDown(l, [first])
    ensures var answers := [first] + Answers(Consumer(l), b, Moments(now, n));
      |answers| == n + 1 && CountsDown(l, answers)
  {
    if n == 0 {
      assert [first] + [] == [first];
    } else {
      BurstAnswers(l, now, b, first, n - 1);
      BurstState(l, now, b, n - 1);
      var before := Answers(Consumer(l), b, Moments(now, n - 1));
      assert |before| == n - 1;
      var a := NextAnswer(l, now, b, n);
      OneMoreAnswer(l, [first] + before, a);
      Regroup(first, before, a);
    }
  }

  lemma NextAnswer(l: Limits, now: int, b: Bucket, n: nat) returns (a: Answer)
    requires Sensible(l) && n > 0 && AfterBurst(l, now, After(Consumer(l), b, Moments(now, n - 1)), n)
    ensures Answers(Consumer(l), b, Moments(now, n)) == Answers(Consumer(l), b, Moments(now, n - 1)) + [a]
    ensures a.Allowed? <==> n + 1 <= Whole(l)
    ensures a.Allowed? ==> a.remaining == Whole(l) - (n + 1)
  {
    var mid := After(Consumer(l), b, Moments(now, n - 1));
    assert Moments(now, n) == Moments(now, n - 1) + [now];
    Turn(l, b, Moments(now, n - 1), now);
    BurstCall(l, now, mid, n);
    a := Consume(l, Some(mid), now).1;
  }

  lemma Regroup(first: Answer, before: seq<Answer>, a: Answer)
    ensures [first] + (before + [a]) == ([first] + before) + [a]
  {
  }

  /** A burst of a fresh key: of n + 1 calls at one moment exactly those up to the capacity rounded down are allowed,
      and their answers count down to 0. */
  lemma Burst(l: Limits, now: int, n: nat)
    requires Sensible(l)
    ensures var (b, first) := Consume(l, None, now);
      var answers := [first] + Answers(Consumer(l), b, Moments(now, n));
      |answers| == n + 1 && CountsDown(l, answers)
  {
    var (b, first) := Consume(l, None, now);
    assert CountsAt(l, [first], 0);
    BurstAnswers(l, now, b, first, n);
  }

  // ---- The exact balance ----

  /** What the bucket has earned by now still fits into it. */
  ghost predicate RoomAt(l: Limits, b: Bucket, now: int)
    requires l.windowMs > 0.0
  {
    now > b.lastRefill ==> b.tokens + (now - b.lastRefill) as real * (l.capacity / l.windowMs) <= l.capacity
  }

  /** No call of the run finds the bucket filled up: what it earns is never cut off. */
  ghost predicate NeverFull(l: Limits, b: Bucket, times: seq<int>)
    requires Sensible(l)
    decreases |times|
  {
    times == [] ||
    (var front, now := times[..|times| - 1], times[|times| - 1];
     NeverFull(l, b, front) && RoomAt(l, After(Consumer(l), b, front), now))
  }

  /** Every call of the run pays exactly one for what it grants, out of what was there and what has been earned. */
  ghost predicate Steady<B, A>(machine: Machine<B, A>, level: B -> real, clock: B -> int, granted: A -> bool, r: real,
                               b: B, times: seq<int>)
    decreases |times|
  {
    times == [] ||
    (var front := times[..|times| - 1];
     var mid := After(machine, b, front);
     var (end, a) := machine(Some(mid), times[|times| - 1]);
     && Steady(machine, level, clock, granted, r, b, front)
     && level(end) + (if granted(a) then 1.0 else 0.0) == level(mid) + Span(clock(mid), clock(end), r))
  }

  lemma {:induction false} SteadyBalance<B, A>(machine: Machine<B, A>, level: B -> real, clock: B -> int,
                                               granted: A -> bool, r: real, b: B, times: seq<int>)
    requires Steady(machine, level, clock, granted, r, b, times)
    ensures var end := After(machine, b, times);
      Granted(Answers(machine, b, times), granted) as real + level(end) == level(b) + Span(clock(b), clock(end), r)
    decreases |times|
  {
    if times != [] {
      var front, now := times[..|times| - 1], times[|times| - 1];
      SteadyBalance(machine, level, clock, granted, r, b, front);
      var mid := After(machine, b, front);
      var (end, a) := machine(Some(mid), now);
      SpansAdd(clock(b), clock(mid), clock(end), r);
      var before := Answers(machine, b, front);
      assert (before + [a])[..|before|] == before;
    }
  }

  lemma {:induction false} NeverFullIsSteady(l: Limits, b: Bucket, times: seq<int>)
    requires Sensible(l) && Filled(l, b) && NeverFull(l, b, times)
    ensures Filled(l, After(Consumer(l), b, times))
    ensures Steady(Consumer(l), Tokens(), Clock(), IsAllowed(), Rate(l), b, times)
    decreases |times|
  {
    if times != [] {
      var front, now := times[..|times| - 1], times[|times| - 1];
      NeverFullIsSteady(l, b, front);
      var mid := After(Consumer(l), b, front);
      TurnBalance(l, mid, now);
      ConsumeKeeps(l, mid, now);
    }
  }

  /** Nothing is lost: if the bucket never fills up, the allowed calls and the tokens left are the tokens there were and
      what the advance of its clock has earned. */
  lemma ExactBalance(l: Limits, b: Bucket, times: seq<int>)
    requires Sensible(l) && Filled(l, b) && NeverFull(l, b, times)
    ensures var end := After(Consumer(l), b, times);
      Granted(Answers(Consumer(l), b, times), IsAllowed()) as real + end.tokens
        == b.tokens + Span(b.lastRefill, end.lastRefill, Rate(l))
  {
    NeverFullIsSteady(l, b, times);
    SteadyBalance(Consumer(l), Tokens(), Clock(), IsAllowed(), Rate(l), b, times);
  }

  lemma TurnBalance(l: Limits, b: Bucket, now: int)
    requires Sensible(l) && Filled(l, b) && RoomAt(l, b, now)
    ensures var (b', a) := Consume(l, Some(b), now);
      (if a.Allowed? then 1.0 else 0.0) + b'.tokens == b.tokens + Span(b.lastRefill, b'.lastRefill, Rate(l))
  {
    ConsumeExactly(l, b, now);
  }

  // ---- Which key is forgotten ----

  /** A call on a known key touches that key's state only. On a new key it opens a state at the end of the order; if the
      map was full, the key that was opened first is forgotten. */
  lemma CallExactly<B, A>(machine: Machine<B, A>, maxKeys: nat, st: Store<B>, k: Key, now: int)
    requires Lists(st.order, st.states.Keys) && |st.order| <= maxKeys && maxKeys > 0
    ensures var (st', a) := CallKey(machine, maxKeys, st, k, now);
      var (b, answer) := machine(if k in st.states then Some(st.states[k]) else None, now);
      && a == answer && k in st'.states && st'.states[k] == b
      && (k in st.states ==> st'.order == st.order && st'.states.Keys == st.states.Keys)
      && (k !in st.states && |st.order| < maxKeys ==>
            st'.order == st.order + [k] && st'.states.Keys == st.states.Keys + {k})
      && (k !in st.states && |st.order| == maxKeys ==>
            st'.order == st.order[1..] + [k] && st'.states.Keys == st.states.Keys - {st.order[0]} + {k})
      && forall other :: other in st'.states && other != k ==>
                           other in st.states && st'.states[other] == st.states[other]
  {
    if k !in st.states && |st.order| == maxKeys {
      FirstIsListed(st.order, st.states.Keys);
      assert (st.order + [k])[1..] == st.order[1..] + [k];
    }
  }

  lemma FirstIsListed(order: seq<Key>, keys: set<Key>)
    requires Lists(order, keys) && order != []
    ensures order[0] in keys
  {
  }

  /** A reset forgets its key, and nothing else. */
  lemma ResetExactly<B>(st: Store<B>, k: Key, before: seq<Key>, behind: seq<Key>)
    requires st.order == before + [k] + behind && k !in before && k !in behind
    ensures ResetKey(st, k) == Store(st.states - {k}, before + behind)
  {
    WithoutAbsent(behind, k);
    WithoutOnce(before, k, behind);
  }

  lemma {:induction false} WithoutAbsent(s: seq<Key>, k: Key)
    requires k !in s
    ensures WithoutKey(s, k) == s
  {
    if s != [] {
      WithoutAbsent(s[1..], k);
      assert s == [s[0]] + s[1..];
    }
  }

  lemma {:induction false} WithoutOnce(before: seq<Key>, k: Key, behind: seq<Key>)
    requires k !in before && WithoutKey(behind, k) == behind
    ensures WithoutKey(before + [k] + behind, k) == before + behind
  {
    var s := before + [k] + behind;
    if before == [] {
      assert s[1..] == behind && [] + behind == behind;
    } else {
      WithoutOnce(before[1..], k, behind);
      assert s[1..] == before[1..] + [k] + behind;
      assert [before[0]] + (before[1..] + behind) == before + behind;
    }
  }
}
