/** Usage accounting: the SQLite tracker, which keeps one row of counters per key, against the in-memory tracker, which
    keeps the log of all uses. */
module Usage {
  import opened Options
  import opened Providers

  datatype Key = Key(id: string)

  datatype Entry = Entry(key: Key, provider: Provider, tokens: int, at: int)

  /** What getUsage returns. */
  datatype Usage = Usage(provider: Provider, requests: nat, tokens: int, lastUsedAt: int, limit: int)

  /** What the utilization queries return, as far as it is modelled. */
  datatype ProviderUtilization = ProviderUtilization(current: nat, limit: int, pct: real)

  const DEFAULT_LIMIT := 1000

  // ---- The table ----

  /** The tables usage and tier_config. */
  datatype Tables = Tables(rows: map<Key, Usage>, config: map<Provider, int>)

  function LimitOf(config: map<Provider, int>, p: Provider): int {
    if p in config then config[p] else DEFAULT_LIMIT
  }

  /** The upsert of record: provider and limit are those of the first use of the key. */
  function Record(t: Tables, e: Entry): Tables {
    var row :=
      if e.key in t.rows then
        var row := t.rows[e.key];
        row.(requests := row.requests + 1, tokens := row.tokens + e.tokens, lastUsedAt := e.at)
      else Usage(e.provider, 1, e.tokens, e.at, LimitOf(t.config, e.provider));
    t.(rows := t.rows[e.key := row])
  }

  datatype Op = Use(entry: Entry) | SetLimit(provider: Provider, limit: int)

  function Apply(t: Tables, op: Op): Tables {
    match op
    case Use(e) => Record(t, e)
    case SetLimit(p, n) => t.(config := t.config[p := n])
  }

  function After(ops: seq<Op>): Tables {
    if ops == [] then Tables(map[], map[]) else Apply(After(ops[..|ops| - 1]), ops[|ops| - 1])
  }

  // ---- The log ----

  function LogOf(ops: seq<Op>): seq<Entry> {
    if ops == [] then []
    else LogOf(ops[..|ops| - 1]) + match ops[|ops| - 1] case Use(e) => [e] case SetLimit(_, _) => []
  }

  function OfKey(log: seq<Entry>, key: Key): seq<Entry> {
    if log == [] then []
    else OfKey(log[..|log| - 1], key) + if log[|log| - 1].key == key then [log[|log| - 1]] else []
  }

  function CountOf(log: seq<Entry>, p: Provider): nat {
    if log == [] then 0 else CountOf(log[..|log| - 1], p) + if log[|log| - 1].provider == p then 1 else 0
  }

  function Tokens(log: seq<Entry>): int {
    if log == [] then 0 else Tokens(log[..|log| - 1]) + log[|log| - 1].tokens
  }

  function Latest(log: seq<Entry>): int
    requires log != []
  {
    var last := log[|log| - 1].at;
    if |log| == 1 then last
    else var rest := Latest(log[..|log| - 1]); if last > rest then last else rest
  }

  /** getUsage of the in-memory tracker, on the uses of one key. */
  function UsageFromLog(uses: seq<Entry>, limits: map<Provider, int>): Option<Usage> {
    if uses == [] then None
    else Some(Usage(uses[0].provider, |uses|, Tokens(uses), Latest(uses), LimitOf(limits, uses[0].provider)))
  }

  // ---- A row summarises the uses of its key ----

  ghost predicate Summarises(row: Usage, uses: seq<Entry>) {
    && uses != [] && row.provider == uses[0].provider && row.requests == |uses| && row.tokens == Tokens(uses)
    && row.lastUsedAt == uses[|uses| - 1].at
  }

  ghost predicate RowFits(rows: map<Key, Usage>, key: Key, uses: seq<Entry>) {
    if key in rows then Summarises(rows[key], uses) else uses == []
  }

  lemma TokensGrow(uses: seq<Entry>, e: Entry)
    ensures Tokens(uses + [e]) == Tokens(uses) + e.tokens
  {
    assert (uses + [e])[..|uses|] == uses;
  }

  lemma OfKeyGrows(log: seq<Entry>, e: Entry, key: Key)
    ensures OfKey(log + [e], key) == if e.key == key then OfKey(log, key) + [e] else OfKey(log, key)
  {
    assert OfKey(log, key) + [] == OfKey(log, key);
    assert (log + [e])[..|log|] == log;
  }

  lemma RecordFits(t: Tables, e: Entry, uses: seq<Entry>)
    requires RowFits(t.rows, e.key, uses)
    ensures RowFits(Record(t, e).rows, e.key, uses + [e])
  {
    TokensGrow(uses, e);
    assert uses != [] ==> (uses + [e])[0] == uses[0];
  }

  lemma {:induction false} RowIsSummary(ops: seq<Op>, key: Key)
    ensures RowFits(After(ops).rows, key, OfKey(LogOf(ops), key))
  {
    if ops != [] {
      var front, op := ops[..|ops| - 1], ops[|ops| - 1];
      RowIsSummary(front, key);
      match op
      case SetLimit(_, _) =>
        assert LogOf(ops) == LogOf(front);
      case Use(e) =>
        OfKeyGrows(LogOf(front), e, key);
        if e.key == key {
          RecordFits(After(front), e, OfKey(LogOf(front), key));
        }
    }
  }

  lemma {:induction false} LatestIsLast(uses: seq<Entry>)
    requires uses != []
    ensures Latest(uses) == uses[|uses| - 1].at <==> forall i :: 0 <= i < |uses| ==> uses[i].at <= uses[|uses| - 1].at
  {
    LatestIsMax(uses);
  }

  lemma {:induction false} LatestIsMax(uses: seq<Entry>)
    requires uses != []
    ensures forall i :: 0 <= i < |uses| ==> uses[i].at <= Latest(uses)
    ensures exists i :: 0 <= i < |uses| && uses[i].at == Latest(uses)
  {
    var front, n := uses[..|uses| - 1], |uses| - 1;
    if front == [] {
      assert uses[0].at == Latest(uses);
    } else {
      LatestIsMax(front);
      var i :| 0 <= i < |front| && front[i].at == Latest(front);
      assert uses[i].at == Latest(uses) || uses[n].at == Latest(uses);
      forall j | 0 <= j < |uses| ensures uses[j].at <= Latest(uses) {
        assert j < n ==> uses[j] == front[j];
      }
    }
  }

  /** The limit that was configured for its provider when the key was first used. */
  function CapturedLimit(ops: seq<Op>, key: Key): Option<int> {
    if ops == [] then None
    else
      var front, op := ops[..|ops| - 1], ops[|ops| - 1];
      var before := CapturedLimit(front, key);
      if before.Some? || op.SetLimit? || op.entry.key != key then before
      else Some(LimitOf(After(front).config, op.entry.provider))
  }

  /** A row keeps the limit of the key's first use, whatever is configured later. */
  lemma {:induction false} RowKeepsLimit(ops: seq<Op>, key: Key)
    ensures CapturedLimit(ops, key) == if key in After(ops).rows then Some(After(ops).rows[key].limit) else None
  {
    if ops != [] {
      RowKeepsLimit(ops[..|ops| - 1], key);
    }
  }

  /** The last limit set for a provider, if there is one. */
  function LastSet(ops: seq<Op>, p: Provider): Option<int> {
    if ops == [] then None
    else
      match ops[|ops| - 1]
      case Use(_) => LastSet(ops[..|ops| - 1], p)
      case SetLimit(q, n) => if q == p then Some(n) else LastSet(ops[..|ops| - 1], p)
  }

  /** A provider's limit is the one set last, or 1000. */
  lemma {:induction false} LimitIsLastSet(ops: seq<Op>, p: Provider)
    ensures LimitOf(After(ops).config, p) == match LastSet(ops, p) case None => 1000 case Some(n) => n
  {
    if ops != [] {
      LimitIsLastSet(ops[..|ops| - 1], p);
    }
  }

  /** The two trackers agree on whether a key was used, on its first provider, on the number of requests and on the
      tokens, after every run; they agree on the last use exactly if the key's latest entry has its greatest time, and
      on the limit exactly if the log's limit for the provider is the one configured at the first use. */
  lemma UsageAgrees(ops: seq<Op>, key: Key, limits: map<Provider, int>)
    ensures var uses := OfKey(LogOf(ops), key);
      var fromLog := UsageFromLog(uses, limits);
      && (key in After(ops).rows <==> fromLog.Some?)
      && (key in After(ops).rows ==>
            var row := After(ops).rows[key];
            && fromLog.value.(lastUsedAt := row.lastUsedAt, limit := row.limit) == row
            && (fromLog.value.lastUsedAt == row.lastUsedAt
                <==> forall i :: 0 <= i < |uses| ==> uses[i].at <= uses[|uses| - 1].at)
            && (fromLog.value.limit == row.limit <==> Some(LimitOf(limits, row.provider)) == CapturedLimit(ops, key)))
  {
    RowIsSummary(ops, key);
    RowKeepsLimit(ops, key);
    var uses := OfKey(LogOf(ops), key);
    if uses != [] {
      LatestIsLast(uses);
    }
  }

  // ---- Utilization of a key ----

  /** The share of a limit that has been used; a limit that is not positive counts as unused. */
  function Ratio(n: nat, limit: int): real {
    if limit > 0 then n as real / limit as real else 0.0
  }

  lemma RatioTimes(n: nat, limit: int)
    requires limit > 0
    ensures Ratio(n, limit) * limit as real == n as real
  {
  }

  lemma RatioAtLeastOne(n: nat, limit: int)
    requires limit > 0
    ensures Ratio(n, limit) >= 1.0 <==> n >= limit
  {
    var q := Ratio(n, limit);
    RatioTimes(n, limit);
    if q >= 1.0 {
      assert q * limit as real >= 1.0 * limit as real;
    } else {
      assert q * limit as real < 1.0 * limit as real;
    }
  }

  lemma RatioInjective(m: nat, n: nat, limit: int)
    requires limit > 0 && Ratio(m, limit) == Ratio(n, limit)
    ensures m == n
  {
    RatioTimes(m, limit);
    RatioTimes(n, limit);
  }

  /** utilization_pct of getProviderUtilization; the provider asked about plays no part in it. */
  function Utilization(t: Tables, key: Key): real {
    if key in t.rows then Ratio(t.rows[key].requests, t.rows[key].limit) else 0.0
  }

  /** The same of the in-memory tracker, from the uses of the key. */
  function UtilizationFromLog(uses: seq<Entry>, p: Provider, limits: map<Provider, int>): real {
    Ratio(CountOf(uses, p), LimitOf(limits, p))
  }

  lemma {:induction false} CountIsAll(uses: seq<Entry>, p: Provider)
    ensures CountOf(uses, p) <= |uses|
    ensures CountOf(uses, p) == |uses| <==> forall i :: 0 <= i < |uses| ==> uses[i].provider == p
  {
    if uses != [] {
      var front := uses[..|uses| - 1];
      CountIsAll(front, p);
      forall i | 0 <= i < |front| ensures front[i] == uses[i] {}
      assert forall i :: 0 <= i < |front| ==> (uses[i].provider == p <==> front[i].provider == p);
    }
  }

  function RequestsOf(rows: map<Key, Usage>, key: Key): nat {
    if key in rows then rows[key].requests else 0
  }

  /** The table counts every use of the key, the log only those with the provider asked about: the utilization agrees
      exactly if all uses of the key had that provider. */
  lemma UtilizationAgrees(ops: seq<Op>, key: Key, p: Provider)
    ensures var uses := OfKey(LogOf(ops), key);
      RequestsOf(After(ops).rows, key) == CountOf(uses, p) <==> forall i :: 0 <= i < |uses| ==> uses[i].provider == p
  {
    RowIsSummary(ops, key);
    CountIsAll(OfKey(LogOf(ops), key), p);
  }

  /** So do the percentages, if the limit that the row captured is the log's positive limit for the provider. */
  lemma PercentagesAgree(ops: seq<Op>, key: Key, p: Provider, limits: map<Provider, int>)
    requires key in After(ops).rows && After(ops).rows[key].limit == LimitOf(limits, p) > 0
    ensures var uses := OfKey(LogOf(ops), key);
      Utilization(After(ops), key) == UtilizationFromLog(uses, p, limits)
      <==> forall i :: 0 <= i < |uses| ==> uses[i].provider == p
  {
    UtilizationAgrees(ops, key, p);
    var uses := OfKey(LogOf(ops), key);
    if Utilization(After(ops), key) == UtilizationFromLog(uses, p, limits) {
      RatioInjective(After(ops).rows[key].requests, CountOf(uses, p), LimitOf(limits, p));
    }
  }

  // ---- Utilization of a provider ----

  function Share(row: Usage, p: Provider): nat {
    if row.provider == p then row.requests else 0
  }

  /** SUM(request_count) over the rows of the provider. */
  ghost function SumRequests(rows: map<Key, Usage>, p: Provider): nat
    decreases |rows|
  {
    if rows == map[] then 0
    else
      var k :| k in rows;
      Share(rows[k], p) + SumRequests(rows - {k}, p)
  }

  lemma {:induction false} SumWithout(rows: map<Key, Usage>, p: Provider, k: Key)
    requires k in rows
    ensures SumRequests(rows, p) == Share(rows[k], p) + SumRequests(rows - {k}, p)
    decreases |rows|
  {
    var j :| j in rows && SumRequests(rows, p) == Share(rows[j], p) + SumRequests(rows - {j}, p);
    if j != k {
      SumWithout(rows - {j}, p, k);
      SumWithout(rows - {k}, p, j);
      assert rows - {j} - {k} == rows - {k} - {j};
    }
  }

  lemma SumUpdate(rows: map<Key, Usage>, p: Provider, k: Key, row: Usage)
    ensures SumRequests(rows[k := row], p) + (if k in rows then Share(rows[k], p) else 0)
      == SumRequests(rows, p) + Share(row, p)
  {
    SumWithout(rows[k := row], p, k);
    assert rows[k := row] - {k} == rows - {k};
    if k in rows {
      SumWithout(rows, p, k);
    } else {
      assert rows - {k} == rows;
    }
  }

  /** Every key is used with one provider. */
  ghost predicate OneProviderEach(log: seq<Entry>) {
    forall i, j :: 0 <= i < |log| && 0 <= j < |log| && log[i].key == log[j].key ==> log[i].provider == log[j].provider
  }

  lemma {:induction false} OfKeyComesFromLog(log: seq<Entry>, key: Key)
    ensures forall e :: e in OfKey(log, key) ==> e in log && e.key == key
  {
    if log != [] {
      OfKeyComesFromLog(log[..|log| - 1], key);
    }
  }

  lemma SameProvider(log: seq<Entry>, e: Entry)
    requires OneProviderEach(log + [e]) && OfKey(log, e.key) != []
    ensures OfKey(log, e.key)[0].provider == e.provider
  {
    OfKeyComesFromLog(log, e.key);
    var first := OfKey(log, e.key)[0];
    assert first in OfKey(log, e.key);
    var i :| 0 <= i < |log| && log[i] == first;
    assert (log + [e])[i] == first && (log + [e])[|log|] == e;
  }

  /** If every key is used with one provider, the rows of a provider add up to its entries in the log. */
  lemma {:induction false} AggregateAgrees(ops: seq<Op>, p: Provider)
    requires OneProviderEach(LogOf(ops))
    ensures SumRequests(After(ops).rows, p) == CountOf(LogOf(ops), p)
  {
    if ops != [] {
      var front, op := ops[..|ops| - 1], ops[|ops| - 1];
      var log, t := LogOf(front), After(front);
      match op
      case SetLimit(_, _) =>
        assert LogOf(ops) == log;
        AggregateAgrees(front, p);
      case Use(e) =>
        assert LogOf(ops)[..|log|] == log;
        assert OneProviderEach(log) by {
          assert forall i :: 0 <= i < |log| ==> log[i] == LogOf(ops)[i];
        }
        AggregateAgrees(front, p);
        RowIsSummary(front, e.key);
        if e.key in t.rows {
          SameProvider(log, e);
        }
        SumUpdate(t.rows, p, e.key, Record(t, e).rows[e.key]);
    }
  }

  ghost predicate AggregatesAgree(ops: seq<Op>) {
    forall p :: SumRequests(After(ops).rows, p) == CountOf(LogOf(ops), p)
  }

  /** The trackers have agreed on every provider's requests all along. */
  ghost predicate AgreeThroughout(ops: seq<Op>) {
    AggregatesAgree(ops) && (ops == [] || AgreeThroughout(ops[..|ops| - 1]))
  }

  lemma EachPrefix(log: seq<Entry>, e: Entry)
    requires OneProviderEach(log + [e])
    ensures OneProviderEach(log)
  {
    assert forall i :: 0 <= i < |log| ==> (log + [e])[i] == log[i];
  }

  /** The log so far is in order and e is not: its key was used with another provider. */
  lemma KeyUsedOtherwise(ops: seq<Op>, e: Entry)
    requires OneProviderEach(LogOf(ops)) && !OneProviderEach(LogOf(ops) + [e])
    ensures e.key in After(ops).rows && After(ops).rows[e.key].provider != e.provider
  {
    var log := LogOf(ops);
    var all := log + [e];
    assert forall i :: 0 <= i < |log| ==> all[i] == log[i];
    var i, j :| 0 <= i < |all| && 0 <= j < |all| && all[i].key == all[j].key && all[i].provider != all[j].provider;
    var k := if i < |log| then i else j;
    assert k < |log| && log[k].key == e.key && log[k].provider != e.provider;
    RowIsSummary(ops, e.key);
    InOfKey(log, k);
    OfKeyComesFromLog(log, e.key);
    var first := OfKey(log, e.key)[0];
    assert first in OfKey(log, e.key);
    var m :| 0 <= m < |log| && log[m] == first;
  }

  lemma {:induction false} InOfKey(log: seq<Entry>, k: nat)
    requires k < |log|
    ensures log[k] in OfKey(log, log[k].key)
  {
    if k < |log| - 1 {
      InOfKey(log[..|log| - 1], k);
    }
  }

  /** The first use of a key with another provider counts in the log and not in the table. */
  lemma StrayUse(ops: seq<Op>, e: Entry)
    requires AggregatesAgree(ops) && OneProviderEach(LogOf(ops)) && !OneProviderEach(LogOf(ops) + [e])
    ensures SumRequests(Record(After(ops), e).rows, e.provider) != CountOf(LogOf(ops) + [e], e.provider)
  {
    var t, log := After(ops), LogOf(ops);
    KeyUsedOtherwise(ops, e);
    SumUpdate(t.rows, e.provider, e.key, Record(t, e).rows[e.key]);
    assert (log + [e])[..|log|] == log;
  }

  /** The trackers agree on the requests of all providers at every moment of a run if and only if every key is used with
      one provider. */
  lemma {:induction false} AggregateExactly(ops: seq<Op>)
    ensures AgreeThroughout(ops) <==> OneProviderEach(LogOf(ops))
  {
    if OneProviderEach(LogOf(ops)) {
      forall p ensures SumRequests(After(ops).rows, p) == CountOf(LogOf(ops), p) {
        AggregateAgrees(ops, p);
      }
    }
    if ops != [] {
      var front, op := ops[..|ops| - 1], ops[|ops| - 1];
      AggregateExactly(front);
      if op.SetLimit? {
        assert LogOf(ops) == LogOf(front);
      } else {
        LastUse(front, op.entry);
        assert ops == front + [op];
      }
    }
  }

  lemma LastUse(front: seq<Op>, e: Entry)
    ensures OneProviderEach(LogOf(front + [Use(e)])) ==> OneProviderEach(LogOf(front))
    ensures OneProviderEach(LogOf(front)) && AggregatesAgree(front) && !OneProviderEach(LogOf(front + [Use(e)]))
      ==> !AggregatesAgree(front + [Use(e)])
  {
    AfterOne(front, Use(e));
    if OneProviderEach(LogOf(front + [Use(e)])) {
      EachPrefix(LogOf(front), e);
    } else if OneProviderEach(LogOf(front)) && AggregatesAgree(front) {
      StrayUse(front, e);
    }
  }

  // ---- The tracker objects ----

  lemma AfterOne(ops: seq<Op>, op: Op)
    ensures After(ops + [op]) == Apply(After(ops), op)
    ensures LogOf(ops + [op]) == if op.Use? then LogOf(ops) + [op.entry] else LogOf(ops)
  {
    assert (ops + [op])[..|ops|] == ops;
  }

  /** The SQLite tracker; `ops` is what has been done with it. */
  class UsageTracker {
    var rows: map<Key, Usage>
    var tierConfig: map<Provider, int>
    ghost var ops: seq<Op>

    ghost predicate Valid()
      reads this
    {
      Tables(rows, tierConfig) == After(ops)
    }

    constructor ()
      ensures Valid() && ops == []
    {
      rows, tierConfig, ops := map[], map[], [];
    }

    method RecordUse(key: Key, provider: Provider, tokens: int, now: int)
      requires Valid()
      modifies this
      ensures Valid() && ops == old(ops) + [Use(Entry(key, provider, tokens, now))]
      ensures Tables(rows, tierConfig) == Record(old(Tables(rows, tierConfig)), Entry(key, provider, tokens, now))
    {
      AfterOne(ops, Use(Entry(key, provider, tokens, now)));
      ops := ops + [Use(Entry(key, provider, tokens, now))];
      if key !in rows {
        rows := rows[key := Usage(provider, 1, tokens, now, LimitOf(tierConfig, provider))];
      } else {
        var row := rows[key];
        rows := rows[key := row.(requests := row.requests + 1, tokens := row.tokens + tokens, lastUsedAt := now)];
      }
    }

    method SetFreeTierLimit(provider: Provider, limit: int)
      requires Valid()
      modifies this
      ensures Valid() && ops == old(ops) + [SetLimit(provider, limit)] && rows == old(rows)
    {
      AfterOne(ops, SetLimit(provider, limit));
      ops := ops + [SetLimit(provider, limit)];
      tierConfig := tierConfig[provider := limit];
    }

    method GetUsage(key: Key) returns (usage: Option<Usage>)
      requires Valid()
      ensures usage.Some? <==> OfKey(LogOf(ops), key) != []
      ensures usage.Some? ==> Summarises(usage.value, OfKey(LogOf(ops), key))
      ensures usage.Some? ==> Some(usage.value.limit) == CapturedLimit(ops, key)
    {
      RowIsSummary(ops, key);
      RowKeepsLimit(ops, key);
      return if key in rows then Some(rows[key]) else None;
    }

    /** The sum behind getAggregateProviderUtilization. */
    method AggregateRequests(provider: Provider) returns (total: nat)
      requires Valid()
      ensures total == SumRequests(rows, provider)
      ensures OneProviderEach(LogOf(ops)) ==> total == CountOf(LogOf(ops), provider)
    {
      total := 0;
      var left := rows;
      while left != map[]
        invariant total + SumRequests(left, provider) == SumRequests(rows, provider)
        decreases |left|
      {
        var k :| k in left.Keys;
        SumWithout(left, provider, k);
        if left[k].provider == provider {
          total := total + left[k].requests;
        }
        left := left - {k};
      }
      if OneProviderEach(LogOf(ops)) {
        AggregateAgrees(ops, provider);
      }
    }

    /** getAggregateProviderUtilization, without the rate and the last use. */
    method GetAggregateProviderUtilization(provider: Provider) returns (u: ProviderUtilization)
      requires Valid()
      ensures u.current == SumRequests(rows, provider) && u.limit == LimitOf(tierConfig, provider)
      ensures u.pct == Ratio(u.current, u.limit)
      ensures OneProviderEach(LogOf(ops)) ==> u.current == CountOf(LogOf(ops), provider)
    {
      var total := AggregateRequests(provider);
      var limit := LimitOf(tierConfig, provider);
      return ProviderUtilization(total, limit, Ratio(total, limit));
    }
  }

  /** The in-memory tracker; `limits` is its table of provider limits. */
  class InMemoryUsageTracker {
    var entries: seq<Entry>
    var limits: map<Provider, int>

    constructor (limits: map<Provider, int>)
      ensures entries == [] && this.limits == limits
    {
      entries := [];
      this.limits := limits;
    }

    method RecordUse(key: Key, provider: Provider, tokens: int, now: int)
      modifies this`entries
      ensures entries == old(entries) + [Entry(key, provider, tokens, now)]
    {
      entries := entries + [Entry(key, provider, tokens, now)];
    }

    method Matching(key: Key) returns (uses: seq<Entry>)
      ensures uses == OfKey(entries, key)
    {
      uses := [];
      for i := 0 to |entries|
        invariant uses == OfKey(entries[..i], key)
      {
        OfKeyGrows(entries[..i], entries[i], key);
        assert entries[..i + 1] == entries[..i] + [entries[i]];
        if entries[i].key == key {
          uses := uses + [entries[i]];
        }
      }
      assert entries[..|entries|] == entries;
    }

    method GetUsage(key: Key) returns (usage: Option<Usage>)
      ensures usage == UsageFromLog(OfKey(entries, key), limits)
    {
      var uses := Matching(key);
      if |uses| == 0 {
        return None;
      }
      var tokens, latest := 0, uses[0].at;
      for i := 0 to |uses|
        invariant tokens == Tokens(uses[..i])
        invariant (i == 0 ==> latest == uses[0].at) && (i > 0 ==> latest == Latest(uses[..i]))
      {
        assert uses[..i + 1][..i] == uses[..i];
        tokens := tokens + uses[i].tokens;
        latest := if uses[i].at > latest then uses[i].at else latest;
      }
      assert uses[..|uses|] == uses;
      return Some(Usage(uses[0].provider, |uses|, tokens, latest, LimitOf(limits, uses[0].provider)));
    }

    method CountFor(uses: seq<Entry>, provider: Provider) returns (n: nat)
      ensures n == CountOf(uses, provider)
    {
      n := 0;
      for i := 0 to |uses|
        invariant n == CountOf(uses[..i], provider)
      {
        assert uses[..i + 1][..i] == uses[..i];
        if uses[i].provider == provider {
          n := n + 1;
        }
      }
      assert uses[..|uses|] == uses;
    }
  }
}
