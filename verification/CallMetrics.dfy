/** The record the engine keeps of the calls of one function on one worker, and sums over all records. */
module CallMetrics {
  import opened Options

  // ---- Metrics ----

  datatype MetricKey = MetricKey(text: string)

  /** The key is one text, so names that contain '@' may share a record. */
  function KeyOf(fn: string, workerName: string): MetricKey {
    MetricKey(fn + "@" + workerName)
  }

  datatype EndKind = Fine | Failed | TimedOut

  /** Latency counts: up to 10 ms, 50, 100, 500, 1000, 5000, 30000, and beyond. */
  type Histogram = h: seq<nat> | |h| == 8 witness [0, 0, 0, 0, 0, 0, 0, 0]

  /** A record; `min` is None for the Infinity it starts from. */
  datatype Metrics = Metrics(calls: nat, errors: nat, timeouts: nat, totalMs: int, min: Option<int>, max: int,
                             buckets: Histogram, lastCallAt: int)

  const BOUNDS := [10, 50, 100, 500, 1000, 5000, 30000]

  function NewMetrics(): Metrics {
    Metrics(0, 0, 0, 0, None, 0, [0, 0, 0, 0, 0, 0, 0, 0], 0)
  }

  function BucketOf(dur: int): (b: nat)
    ensures b <= |BOUNDS|
    ensures b > 0 ==> BOUNDS[b - 1] < dur
    ensures b < |BOUNDS| ==> dur <= BOUNDS[b]
  {
    if dur <= 10 then 0
    else if dur <= 50 then 1
    else if dur <= 100 then 2
    else if dur <= 500 then 3
    else if dur <= 1000 then 4
    else if dur <= 5000 then 5
    else if dur <= 30000 then 6
    else 7
  }

  function Sum(counts: seq<nat>): nat {
    if counts == [] then 0 else counts[0] + Sum(counts[1..])
  }

  function Bump(m: Metrics, dur: int, kind: EndKind): Metrics
  {
    var b := BucketOf(dur);
    m.(calls := m.calls + 1, totalMs := m.totalMs + dur,
       min := if m.min.None? || dur < m.min.value then Some(dur) else m.min,
       max := if dur > m.max then dur else m.max,
       buckets := m.buckets[b := m.buckets[b] + 1],
       errors := m.errors + (if kind == Fine then 0 else 1),
       timeouts := m.timeouts + (if kind == TimedOut then 1 else 0))
  }

  /** The mean lies between the extremes. */
  ghost predicate MeanBetween(m: Metrics) {
    && (m.calls > 0 ==> m.min.Some? && m.min.value <= m.max && m.calls * m.min.value <= m.totalMs)
    && (m.calls == 0 ==> m.totalMs == 0) && m.totalMs <= m.calls * m.max
  }

  ghost predicate Sound(m: Metrics) {
    && m.calls == Sum(m.buckets)
    && m.timeouts <= m.errors <= m.calls
    && (m.calls == 0 <==> m.min.None?) && MeanBetween(m)
  }

  lemma {:induction false} SumBump(counts: seq<nat>, b: nat)
    requires b < |counts|
    ensures Sum(counts[b := counts[b] + 1]) == Sum(counts) + 1
  {
    var after := counts[b := counts[b] + 1];
    if b == 0 {
      assert after[1..] == counts[1..];
    } else {
      assert after[1..] == counts[1..][b - 1 := counts[b] + 1];
      SumBump(counts[1..], b - 1);
    }
  }

  lemma Widen(n: nat, total: int, was: int, now: int, dur: int)
    ensures n * was <= total && now <= was && now <= dur ==> (n + 1) * now <= total + dur
    ensures total <= n * was && now >= was && now >= dur ==> total + dur <= (n + 1) * now
  {
    assert (n + 1) * now == n * now + now;
    if now <= was {
      assert n * now <= n * was;
    }
    if now >= was {
      assert n * now >= n * was;
    }
  }

  lemma BumpMean(m: Metrics, dur: int, kind: EndKind)
    requires Sound(m)
    ensures MeanBetween(Bump(m, dur, kind))
  {
    var after := Bump(m, dur, kind);
    Widen(m.calls, m.totalMs, m.max, after.max, dur);
    if m.calls > 0 {
      Widen(m.calls, m.totalMs, m.min.value, after.min.value, dur);
    }
  }

  lemma BumpSound(m: Metrics, dur: int, kind: EndKind)
    requires Sound(m)
    ensures Sound(Bump(m, dur, kind))
  {
    SumBump(m.buckets, BucketOf(dur));
    BumpMean(m, dur, kind);
  }

  // ---- Sums over the records ----

  ghost function Total(records: map<MetricKey, Metrics>, part: Metrics -> nat): nat
    decreases |records|
  {
    if records == map[] then 0
    else
      var k :| k in records;
      part(records[k]) + Total(records - {k}, part)
  }

  lemma {:induction false} TotalWithout(records: map<MetricKey, Metrics>, part: Metrics -> nat, k: MetricKey)
    requires k in records
    ensures Total(records, part) == part(records[k]) + Total(records - {k}, part)
    decreases |records|
  {
    var j :| j in records && Total(records, part) == part(records[j]) + Total(records - {j}, part);
    if j != k {
      TotalWithout(records - {j}, part, k);
      TotalWithout(records - {k}, part, j);
      assert records - {j} - {k} == records - {k} - {j};
    }
  }

  lemma TotalUpdate(records: map<MetricKey, Metrics>, part: Metrics -> nat, k: MetricKey, m: Metrics)
    ensures Total(records[k := m], part)
      == part(m) + Total(records, part) - (if k in records then part(records[k]) else 0)
  {
    var after := records[k := m];
    TotalWithout(after, part, k);
    assert after - {k} == records - {k};
    if k in records {
      TotalWithout(records, part, k);
    } else {
      assert records - {k} == records;
    }
  }
}
