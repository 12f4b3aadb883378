/** The per-key token bucket, in exact arithmetic: how many calls a run may allow, what retryAfterMs promises,
    and the bound on the number of keys. */
module RateLimiter {
  import opened Options
  import opened EvictingMap

  datatype Bucket = Bucket(tokens: real, lastRefill: int)

  datatype Limits = Limits(capacity: real, windowMs: real)

  datatype Answer = Allowed(remaining: int) | Denied(retryAfterMs: int)

  ghost predicate Sensible(l: Limits) {
    l.capacity >= 1.0 && l.windowMs > 0.0
  }

  /** A bucket holds between no token and a full load. */
  ghost predicate Filled(l: Limits, b: Bucket) {
    0.0 <= b.tokens <= l.capacity
  }

  function Rate(l: Limits): real
    requires l.windowMs > 0.0
  {
    l.capacity / l.windowMs
  }

  function Min(a: real, b: real): real { if a <= b then a else b }

  /** refill: the clock of a bucket never goes back. */
  function Refill(l: Limits, b: Bucket, now: int): Bucket
    requires l.windowMs > 0.0
  {
    var elapsed := now - b.lastRefill;
    if elapsed <= 0 then b
    else Bucket(Min(l.capacity, b.tokens + (elapsed as real * l.capacity) / l.windowMs), now)
  }

  function Ceil(x: real): int { -((-x).Floor) }

  /** The time in which the missing tokens are earned. */
  function EarnTime(l: Limits, need: real): real
    requires l.capacity > 0.0
  {
    (need * l.windowMs) / l.capacity
  }

  /** The same in whole milliseconds. */
  function Wait(l: Limits, need: real): int
    requires l.capacity > 0.0
  {
    Ceil(EarnTime(l, need))
  }

  /** The decision on a refilled bucket. */
  function Take(l: Limits, b: Bucket): (Bucket, Answer)
    requires l.capacity > 0.0
  {
    if b.tokens >= 1.0 then (b.(tokens := b.tokens - 1.0), Allowed((b.tokens - 1.0).Floor))
    else (b, Denied(Wait(l, 1.0 - b.tokens)))
  }

  /** consume, for one key: a first call finds a full bucket. */
  function Consume(l: Limits, b: Option<Bucket>, now: int): (Bucket, Answer)
    requires Sensible(l)
  {
    match b
    case None => Take(l, Bucket(l.capacity, now))
    case Some(b) => Take(l, Refill(l, b, now))
  }

  // ---- One bucket ----

  lemma RateIs(l: Limits, elapsed: int)
    requires Sensible(l)
    ensures (elapsed as real * l.capacity) / l.windowMs == elapsed as real * Rate(l)
    ensures Rate(l) > 0.0
    ensures elapsed >= 0 ==> elapsed as real * Rate(l) >= 0.0
  {
    var e, c, w := elapsed as real, l.capacity, l.windowMs;
    assert (e * c) / w == e * (c / w);
    assert c / w > 0.0;
  }

  lemma RefillFacts(l: Limits, b: Bucket, now: int)
    requires Sensible(l) && Filled(l, b)
    ensures Filled(l, Refill(l, b, now))
    ensures Refill(l, b, now).lastRefill == if now > b.lastRefill then now else b.lastRefill
    ensures b.tokens <= Refill(l, b, now).tokens
    ensures Refill(l, b, now).tokens <= b.tokens + (Refill(l, b, now).lastRefill - b.lastRefill) as real * Rate(l)
    ensures now >= b.lastRefill ==>
      Refill(l, b, now).tokens == Min(l.capacity, b.tokens + (now - b.lastRefill) as real * Rate(l))
  {
    RateIs(l, now - b.lastRefill);
  }

  /** Refilling in pieces is refilling once. */
  lemma RefillTwice(l: Limits, b: Bucket, t: int, u: int)
    requires Sensible(l) && Filled(l, b) && t <= u
    ensures Refill(l, Refill(l, b, t), u) == Refill(l, b, u)
  {
    if b.lastRefill < t {
      RateIs(l, t - b.lastRefill);
      RateIs(l, u - t);
      RateIs(l, u - b.lastRefill);
      var r, x, y := Rate(l), (t - b.lastRefill) as real, (u - t) as real;
      assert (u - b.lastRefill) as real == x + y;
      assert (x + y) * r == x * r + y * r;
    }
  }

  /** What every call keeps: the load stays within bounds, the clock only advances, and tokens are gained at most at
      the rate and lost one per allowed call. */
  lemma ConsumeKeeps(l: Limits, b: Bucket, now: int)
    requires Sensible(l) && Filled(l, b)
    ensures var (b', a) := Consume(l, Some(b), now);
      && Filled(l, b') && b.lastRefill <= b'.lastRefill
      && b'.tokens + (if a.Allowed? then 1.0 else 0.0) <= b.tokens + (b'.lastRefill - b.lastRefill) as real * Rate(l)
  {
    RefillFacts(l, b, now);
  }

  // ---- retryAfterMs ----

  lemma CeilFacts(x: real, d: int)
    ensures d as real >= x <==> d >= Ceil(x)
  {
    if d as real >= x {
      assert (-d) as real <= -x;
    }
  }

  lemma DivGe(p: real, w: real, x: real)
    requires w > 0.0
    ensures p / w >= x <==> p >= x * w
    ensures p / w <= x <==> p <= x * w
  {
    var q := p / w;
    assert q * w == p;
    if q > x { assert (q - x) * w > 0.0; }
    if q < x { assert (x - q) * w > 0.0; }
  }

  /** d milliseconds at the rate earn what is needed exactly if d is at least the rounded-up wait. */
  lemma WaitEarns(l: Limits, need: real, d: int)
    requires Sensible(l)
    ensures (d as real * l.capacity) / l.windowMs >= need <==> d >= Wait(l, need)
  {
    var have, want := d as real * l.capacity, need * l.windowMs;
    DivGe(have, l.windowMs, need);
    assert have / l.windowMs >= need <==> have >= want;
    DivGe(want, l.capacity, d as real);
    assert want / l.capacity <= d as real <==> want <= have;
    assert EarnTime(l, need) == want / l.capacity;
    CeilFacts(EarnTime(l, need), d);
  }

  lemma RefillBy(l: Limits, b: Bucket, d: nat, earned: real)
    requires Sensible(l) && d > 0 && earned == (d as real * l.capacity) / l.windowMs
    ensures Refill(l, b, b.lastRefill + d).tokens == Min(l.capacity, b.tokens + earned)
  {
    var elapsed := b.lastRefill + d - b.lastRefill;
    assert elapsed == d;
  }

  lemma TakeDenies(l: Limits, b: Bucket, need: real, wait: int)
    requires Sensible(l) && b.tokens < 1.0 && need == 1.0 - b.tokens && wait == Wait(l, need)
    ensures Take(l, b).1 == Denied(wait)
  {
  }

  lemma WaitFacts(l: Limits, b: Bucket, d: nat) returns (earned: real, wait: int)
    requires Sensible(l) && b.tokens < 1.0 && d > 0
    ensures Refill(l, b, b.lastRefill + d).tokens == Min(l.capacity, b.tokens + earned)
    ensures Take(l, b).1 == Denied(wait)
    ensures earned >= 1.0 - b.tokens <==> d >= wait
  {
    var need := 1.0 - b.tokens;
    WaitEarns(l, need, d);
    earned, wait := (d as real * l.capacity) / l.windowMs, Wait(l, need);
    TakeDenies(l, b, need, wait);
    RefillBy(l, b, d, earned);
  }

  /** For a bucket that denies: after d more milliseconds on its clock it would allow exactly if d is at least the
      announced wait. */
  lemma WaitIsExact(l: Limits, b: Bucket, d: nat)
    requires Sensible(l) && Filled(l, b) && b.tokens < 1.0
    ensures Refill(l, b, b.lastRefill + d).tokens >= 1.0 <==> d >= Take(l, b).1.retryAfterMs
  {
    WaitIsPositive(l, b);
    if d > 0 {
      var earned, wait := WaitFacts(l, b, d);
    }
  }

  lemma WaitIsPositive(l: Limits, b: Bucket)
    requires Sensible(l) && b.tokens < 1.0
    ensures Take(l, b).1.Denied? && Take(l, b).1.retryAfterMs >= 1
  {
    var need := 1.0 - b.tokens;
    assert need * l.windowMs > 0.0;
    assert (need * l.windowMs) / l.capacity > 0.0;
    CeilFacts(EarnTime(l, need), 0);
  }

  predicate AllDenied(l: Limits, b: Bucket, times: seq<int>)
    requires Sensible(l)
    decreases |times|
  {
    times == [] ||
    (var (b', a) := Consume(l, Some(b), times[0]);
     a.Denied? && AllDenied(l, b', times[1..]))
  }

  function AfterDenied(l: Limits, b: Bucket, times: seq<int>): Bucket
    requires Sensible(l)
    decreases |times|
  {
    if times == [] then b else AfterDenied(l, Consume(l, Some(b), times[0]).0, times[1..])
  }

  lemma DeniedOnlyRefills(l: Limits, b: Bucket, t: int)
    requires Sensible(l) && Consume(l, Some(b), t).1.Denied?
    ensures Consume(l, Some(b), t).0 == Refill(l, b, t)
  {
  }

  /** Denied calls only move the clock: a later refill finds what it would have found without them. */
  lemma {:induction false} DeniedCallsVanish(l: Limits, b: Bucket, times: seq<int>, u: int)
    requires Sensible(l) && Filled(l, b) && AllDenied(l, b, times)
    requires forall i :: 0 <= i < |times| ==> times[i] <= u
    ensures Filled(l, AfterDenied(l, b, times)) && Refill(l, AfterDenied(l, b, times), u) == Refill(l, b, u)
    decreases |times|
  {
    if times != [] {
      var t := times[0];
      DeniedOnlyRefills(l, b, t);
      RefillFacts(l, b, t);
      RefillTwice(l, b, t, u);
      DeniedCallsVanish(l, Refill(l, b, t), times[1..], u);
    }
  }

  /** After a denial, and any denied calls since, a call at time u is allowed exactly if u has reached the bucket's
      clock plus the announced wait. */
  lemma RetryAfterExact(l: Limits, b: Bucket, t: int, times: seq<int>, u: int)
    requires Sensible(l) && Filled(l, b) && Consume(l, Some(b), t).1.Denied?
    requires AllDenied(l, Consume(l, Some(b), t).0, times) && forall i :: 0 <= i < |times| ==> times[i] <= u
    ensures var (b', a) := Consume(l, Some(b), t);
      AllowsAt(l, AfterDenied(l, b', times), u) <==> u >= b'.lastRefill + a.retryAfterMs
  {
    var (b', a) := Consume(l, Some(b), t);
    ConsumeKeeps(l, b, t);
    DeniedCallsVanish(l, b', times, u);
    WaitIsPositive(l, b');
    WaitIsExact(l, b', if u >= b'.lastRefill then u - b'.lastRefill else 0);
  }

  predicate AllowsAt(l: Limits, b: Bucket, u: int)
    requires Sensible(l)
  {
    Consume(l, Some(b), u).1.Allowed?
  }

  /** d milliseconds after the denied call at t, the limiter does what retryAfterMs said it would. */
  predicate KeepsPromise(l: Limits, b: Bucket, t: int, d: nat)
    requires Sensible(l) && Consume(l, Some(b), t).1.Denied?
  {
    var (b', a) := Consume(l, Some(b), t);
    AllowsAt(l, b', t + d) <==> d >= a.retryAfterMs
  }

  lemma PromiseAt(l: Limits, b: Bucket, t: int, d: nat)
    requires Sensible(l) && Filled(l, b) && Consume(l, Some(b), t).1.Denied?
    ensures var (b', a) := Consume(l, Some(b), t);
      && b'.lastRefill == (if t > b.lastRefill then t else b.lastRefill) && a.retryAfterMs >= 1
      && (KeepsPromise(l, b, t, d) <==> (t + d >= b'.lastRefill + a.retryAfterMs <==> d >= a.retryAfterMs))
  {
    var (b', a) := Consume(l, Some(b), t);
    RefillFacts(l, b, t);
    DeniedOnlyRefills(l, b, t);
    RetryAfterExact(l, b, t, [], t + d);
    WaitIsPositive(l, b');
  }

  /** Read as a wait from the time of the denied call, retryAfterMs is exact if and only if that call was not
      behind the bucket's clock. */
  lemma RetryAfterPromise(l: Limits, b: Bucket, t: int)
    requires Sensible(l) && Filled(l, b) && Consume(l, Some(b), t).1.Denied?
    ensures (forall d: nat :: KeepsPromise(l, b, t, d)) <==> t >= b.lastRefill
  {
    forall d: nat ensures t >= b.lastRefill ==> KeepsPromise(l, b, t, d) { PromiseAt(l, b, t, d); }
    PromiseAt(l, b, t, 0);
    var wait: nat := Consume(l, Some(b), t).1.retryAfterMs;
    PromiseAt(l, b, t, wait);
    assert t < b.lastRefill ==> !KeepsPromise(l, b, t, wait);
  }

  // ---- Runs of one bucket ----

  /** What the passage of the clock from a to b earns at rate r. */
  function Span(a: int, b: int, r: real): real {
    (b - a) as real * r
  }

  lemma SpansAdd(a: int, b: int, c: int, r: real)
    ensures Span(a, b, r) + Span(b, c, r) == Span(a, c, r)
  {
    var x, y := (b - a) as real, (c - b) as real;
    assert (c - a) as real == x + y;
    assert (x + y) * r == x * r + y * r;
  }

  /** A machine whose every call advances its clock, earns at rate r at most, and pays one when it grants. */
  ghost predicate Metered<B(!new), A>(
      machine: Machine<B, A>, inv: B -> bool, level: B -> real, clock: B -> int, granted: A -> bool, r: real)
  {
    forall b, now {:trigger machine(Some(b), now)} :: inv(b) ==>
      var (b', a) := machine(Some(b), now);
      && inv(b') && clock(b) <= clock(b')
      && level(b') + (if granted(a) then 1.0 else 0.0) <= level(b) + Span(clock(b), clock(b'), r)
  }

  function Granted<A>(answers: seq<A>, granted: A -> bool): nat {
    if answers == [] then 0
    else Granted(answers[..|answers| - 1], granted) + if granted(answers[|answers| - 1]) then 1 else 0
  }

  lemma {:induction false} MeteredBalance<B(!new), A>(
      machine: Machine<B, A>, inv: B -> bool, level: B -> real, clock: B -> int, granted: A -> bool, r: real,
      b: B, times: seq<int>)
    requires Metered(machine, inv, level, clock, granted, r) && inv(b)
    ensures var end := After(machine, b, times);
      && inv(end) && clock(b) <= clock(end)
      && Granted(Answers(machine, b, times), granted) as real + level(end) <= level(b) + Span(clock(b), clock(end), r)
  {
    if times != [] {
      var front, now := times[..|times| - 1], times[|times| - 1];
      MeteredBalance(machine, inv, level, clock, granted, r, b, front);
      var mid := After(machine, b, front);
      var (end, a) := machine(Some(mid), now);
      SpansAdd(clock(b), clock(mid), clock(end), r);
      var before := Answers(machine, b, front);
      assert (before + [a])[..|before|] == before;
    }
  }

  function Consumer(l: Limits): Machine<Bucket, Answer>
    requires Sensible(l)
  {
    (b: Option<Bucket>, now: int) => Consume(l, b, now)
  }

  function IsFilled(l: Limits): Bucket -> bool {
    (b: Bucket) => 0.0 <= b.tokens <= l.capacity
  }

  function Tokens(): Bucket -> real { (b: Bucket) => b.tokens }

  function Clock(): Bucket -> int { (b: Bucket) => b.lastRefill }

  function IsAllowed(): Answer -> bool { (a: Answer) => a.Allowed? }

  lemma ConsumerIsMetered(l: Limits)
    requires Sensible(l)
    ensures Metered(Consumer(l), IsFilled(l), Tokens(), Clock(), IsAllowed(), Rate(l))
  {
    forall b, now | IsFilled(l)(b)
      ensures var (b', a) := Consumer(l)(Some(b), now);
        && IsFilled(l)(b') && b.lastRefill <= b'.lastRefill
        && b'.tokens + (if a.Allowed? then 1.0 else 0.0) <= b.tokens + Span(b.lastRefill, b'.lastRefill, Rate(l))
    {
      ConsumeKeeps(l, b, now);
    }
  }

  /** The bound, as a balance: allowed calls plus the tokens left never exceed the tokens there were plus what the
      advance of the bucket's clock has earned. */
  lemma BucketBalance(l: Limits, b: Bucket, times: seq<int>)
    requires Sensible(l) && Filled(l, b)
    ensures var end := After(Consumer(l), b, times);
      && Filled(l, end) && b.lastRefill <= end.lastRefill
      && Granted(Answers(Consumer(l), b, times), IsAllowed()) as real + end.tokens
         <= b.tokens + Span(b.lastRefill, end.lastRefill, Rate(l))
  {
    ConsumerIsMetered(l);
    MeteredBalance(Consumer(l), IsFilled(l), Tokens(), Clock(), IsAllowed(), Rate(l), b, times);
  }

  // ---- The limiter ----

  lemma ConsumerPreserves(l: Limits)
    requires Sensible(l)
    ensures Preserves(Consumer(l), IsFilled(l))
  {
    forall b, now | IsFilled(l)(b) ensures IsFilled(l)(Consumer(l)(Some(b), now).0) {
      ConsumeKeeps(l, b, now);
    }
  }

  /** In every run of calls and resets, tokens stay between 0 and capacity and there are at most maxKeys keys. */
  lemma RunStaysInBounds(l: Limits, maxKeys: nat, ops: seq<Op>)
    requires Sensible(l)
    ensures var end := Run(Consumer(l), maxKeys, Store(map[], []), ops);
      |end.states| <= maxKeys && forall k :: k in end.states ==> 0.0 <= end.states[k].tokens <= l.capacity
  {
    ConsumerPreserves(l);
    RunConsistent(Consumer(l), maxKeys, IsFilled(l), Store(map[], []), ops);
  }

  /** Token bucket bound: over any contiguous run in which the key stays, with timestamps in any order and whatever
      other keys do, its allowed calls are at most capacity plus capacity per window times the advance of
      its clock. */
  lemma TokenBucketBound(l: Limits, maxKeys: nat, st: Store<Bucket>, ops: seq<Op>, k: Key)
    requires Sensible(l) && Stays(Consumer(l), maxKeys, st, ops, k)
    requires k in st.states && Filled(l, st.states[k])
    ensures var end := Run(Consumer(l), maxKeys, st, ops);
      && k in end.states
      && Granted(AnswersTo(Consumer(l), maxKeys, st, ops, k), IsAllowed()) as real
         <= l.capacity + Span(st.states[k].lastRefill, end.states[k].lastRefill, Rate(l))
  {
    KeyAlone(Consumer(l), maxKeys, st, ops, k);
    BucketBalance(l, st.states[k], TimesOf(ops, k));
  }

  /** The same from the call that creates the bucket on, that call included. */
  lemma FreshKeyBound(l: Limits, now: int, times: seq<int>)
    requires Sensible(l)
    ensures var (b, a) := Consume(l, None, now);
      && a.Allowed?
      && (1 + Granted(Answers(Consumer(l), b, times), IsAllowed())) as real
        <= l.capacity + Span(now, After(Consumer(l), b, times).lastRefill, Rate(l))
  {
    BucketBalance(l, Consume(l, None, now).0, times);
  }

  /** The closure state of createRateLimiter. */
  class RateLimiter {
    const limits: Limits
    const maxKeys: nat
    var buckets: map<Key, Bucket>
    var order: seq<Key>

    function View(): Store<Bucket>
      reads this
    {
      Store(buckets, order)
    }

    ghost predicate Valid()
      reads this
    {
      Sensible(limits) && Consistent(maxKeys, IsFilled(limits), View())
    }

    constructor (tokensPerWindow: real, windowMs: real, maxKeys: nat := 10_000)
      requires tokensPerWindow >= 1.0 && windowMs > 0.0
      ensures Valid() && limits == Limits(tokensPerWindow, windowMs) && this.maxKeys == maxKeys
      ensures View() == Store(map[], [])
    {
      limits := Limits(tokensPerWindow, windowMs);
      this.maxKeys := maxKeys;
      buckets, order := map[], [];
    }

    method ConsumeOne(key: Key, now: int) returns (a: Answer)
      requires Valid()
      modifies this
      ensures Valid() && (View(), a) == CallKey(Consumer(limits), maxKeys, old(View()), key, now)
    {
      ConsumerPreserves(limits);
      ApplyConsistent(Consumer(limits), maxKeys, IsFilled(limits), View(), Call(key, now));
      if key !in buckets {
        var (state, answer) := Consume(limits, None, now);
        buckets, order := buckets[key := state], order + [key];
        if |order| > maxKeys {
          buckets, order := buckets - {order[0]}, order[1..];
        }
        return answer;
      }
      var (state, answer) := Consume(limits, Some(buckets[key]), now);
      buckets := buckets[key := state];
      return answer;
    }

    method ResetOne(key: Key)
      requires Valid()
      modifies this
      ensures Valid() && View() == ResetKey(old(View()), key)
    {
      ConsumerPreserves(limits);
      ApplyConsistent(Consumer(limits), maxKeys, IsFilled(limits), View(), Reset(key));
      buckets, order := buckets - {key}, WithoutKey(order, key);
    }

    method Clear()
      requires Valid()
      modifies this
      ensures Valid() && View() == Store(map[], [])
    {
      buckets, order := map[], [];
    }
  }
}
