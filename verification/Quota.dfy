/** Zero-cost enforcement: the circuit breaker's decision, the filter in front of a request, and how far recorded usage
    can get past a provider's free-tier limit. */
module Quota {
  import opened Providers
  import opened Usage
  import Failover

  datatype Tier = Free | Paid

  /** Providers that are not configured count as paid. */
  function Classify(tiers: map<Provider, Tier>, p: Provider): Tier {
    if p in tiers then tiers[p] else Paid
  }

  datatype Reason = PaidTier | Exhausted

  datatype Decision = Allowed | Refused(reason: Reason)

  function Decide(tiers: map<Provider, Tier>, t: Tables, key: Key, p: Provider): Decision {
    if Classify(tiers, p) == Paid then Refused(PaidTier)
    else if Utilization(t, key) >= 1.0 then Refused(Exhausted)
    else Allowed
  }

  /** The breaker refuses a free provider exactly if its row holds a positive limit that has been reached. */
  lemma RefusedExactly(tiers: map<Provider, Tier>, t: Tables, key: Key, p: Provider)
    ensures Decide(tiers, t, key, p) == Refused(PaidTier) <==> Classify(tiers, p) == Paid
    ensures Decide(tiers, t, key, p) == Refused(Exhausted)
      <==> Classify(tiers, p) == Free && key in t.rows && 0 < t.rows[key].limit <= t.rows[key].requests
  {
    if key in t.rows && t.rows[key].limit > 0 {
      RatioAtLeastOne(t.rows[key].requests, t.rows[key].limit);
    }
  }

  // ---- The filter in front of a request ----

  /** The gateway uses the provider's name as its key. */
  function KeyFor(p: Provider): Key {
    Key(p.id)
  }

  function Decided(tiers: map<Provider, Tier>, t: Tables, entry: string): Decision {
    var p := Provider(entry[..Failover.SlashIndex(entry)]);
    Decide(tiers, t, KeyFor(p), p)
  }

  /** The allowed entries, in their order. */
  function Kept(tiers: map<Provider, Tier>, t: Tables, entries: seq<string>): seq<string> {
    if entries == [] then []
    else
      var last := entries[|entries| - 1];
      Kept(tiers, t, entries[..|entries| - 1]) + if Decided(tiers, t, last).Allowed? then [last] else []
  }

  function Reasons(tiers: map<Provider, Tier>, t: Tables, entries: seq<string>): seq<Reason> {
    if entries == [] then []
    else
      var d := Decided(tiers, t, entries[|entries| - 1]);
      Reasons(tiers, t, entries[..|entries| - 1]) + if d.Allowed? then [] else [d.reason]
  }

  /** Exactly the allowed entries are kept and every other entry gives a reason; so a request is turned away exactly if
      all its providers are refused. */
  lemma {:induction false} FilterIsExact(tiers: map<Provider, Tier>, t: Tables, entries: seq<string>, e: string)
    ensures e in Kept(tiers, t, entries) <==> e in entries && Decided(tiers, t, e).Allowed?
    ensures |Kept(tiers, t, entries)| + |Reasons(tiers, t, entries)| == |entries|
    ensures Kept(tiers, t, entries) == [] <==> forall k :: 0 <= k < |entries| ==> Decided(tiers, t, entries[k]).Refused?
  {
    if entries != [] {
      var front := entries[..|entries| - 1];
      FilterIsExact(tiers, t, front, e);
      assert entries == front + [entries[|entries| - 1]];
    }
  }

  /** The provider is configured as free, and its row does not hold a positive limit that has been reached. */
  ghost predicate MayBeUsed(tiers: map<Provider, Tier>, t: Tables, id: string) {
    && Provider(id) in tiers && tiers[Provider(id)] == Free
    && (Key(id) in t.rows && t.rows[Key(id)].limit > 0 ==> t.rows[Key(id)].requests < t.rows[Key(id)].limit)
  }

  lemma {:induction false} SlashIs(id: string, rest: string)
    requires '/' !in id && (rest == "" || rest[0] == '/')
    ensures Failover.SlashIndex(id + rest) == |id|
  {
    if id == "" {
      assert id + rest == rest;
    } else {
      assert (id + rest)[1..] == id[1..] + rest;
      SlashIs(id[1..], rest);
    }
  }

  /** An entry passes exactly if the provider named before its first slash is configured as free and below its limit. It
      is refused as paid exactly if that provider is not configured as free. */
  lemma EntryPasses(tiers: map<Provider, Tier>, t: Tables, id: string, rest: string)
    requires '/' !in id && (rest == "" || rest[0] == '/')
    ensures Kept(tiers, t, [id + rest]) == if MayBeUsed(tiers, t, id) then [id + rest] else []
    ensures Reasons(tiers, t, [id + rest]) ==
         if MayBeUsed(tiers, t, id) then []
         else if Provider(id) in tiers && tiers[Provider(id)] == Free then [Exhausted] else [PaidTier]
  {
    SlashIs(id, rest);
    var entry := id + rest;
    assert entry[..|id|] == id;
    assert Kept(tiers, t, []) == [] && Reasons(tiers, t, []) == [];
    RefusedExactly(tiers, t, Key(id), Provider(id));
  }

  /** Entries are looked at one by one, in order. */
  lemma {:induction false} FilterConcat(tiers: map<Provider, Tier>, t: Tables, a: seq<string>, b: seq<string>)
    ensures Kept(tiers, t, a + b) == Kept(tiers, t, a) + Kept(tiers, t, b)
    ensures Reasons(tiers, t, a + b) == Reasons(tiers, t, a) + Reasons(tiers, t, b)
  {
    if b == [] {
      assert a + b == a;
      assert Kept(tiers, t, a) + [] == Kept(tiers, t, a) && Reasons(tiers, t, a) + [] == Reasons(tiers, t, a);
    } else {
      var front, last := b[..|b| - 1], b[|b| - 1];
      FilterConcat(tiers, t, a, front);
      assert a + b == a + front + [last] && b == front + [last];
      OneMoreEntry(tiers, t, a + front, last);
      OneMoreEntry(tiers, t, front, last);
      Regroup(Kept(tiers, t, a), Kept(tiers, t, front), Kept(tiers, t, [last]));
      Regroup(Reasons(tiers, t, a), Reasons(tiers, t, front), Reasons(tiers, t, [last]));
    }
  }

  lemma OneMoreEntry(tiers: map<Provider, Tier>, t: Tables, entries: seq<string>, last: string)
    ensures Kept(tiers, t, entries + [last]) == Kept(tiers, t, entries) + Kept(tiers, t, [last])
    ensures Reasons(tiers, t, entries + [last]) == Reasons(tiers, t, entries) + Reasons(tiers, t, [last])
  {
    assert (entries + [last])[..|entries|] == entries;
    assert Kept(tiers, t, []) == [] && Reasons(tiers, t, []) == [];
  }

  lemma Regroup<T>(a: seq<T>, b: seq<T>, c: seq<T>)
    ensures a + (b + c) == (a + b) + c
  {
  }

  method FilterProviders(tiers: map<Provider, Tier>, t: Tables, entries: seq<string>)
    returns (filtered: seq<string>, refusedReasons: seq<Reason>)
    ensures filtered == Kept(tiers, t, entries) && refusedReasons == Reasons(tiers, t, entries)
  {
    filtered, refusedReasons := [], [];
    for i := 0 to |entries|
      invariant filtered == Kept(tiers, t, entries[..i]) && refusedReasons == Reasons(tiers, t, entries[..i])
    {
      assert entries[..i + 1][..i] == entries[..i];
      var decision := Decided(tiers, t, entries[i]);
      if decision.Allowed? {
        filtered := filtered + [entries[i]];
      } else {
        refusedReasons := refusedReasons + [decision.reason];
      }
    }
    assert entries[..|entries|] == entries;
  }

  // ---- Sub-tasks of one request ----

  datatype SubResult = Routed(provider: Provider, tokens: int, at: int, content: string) | Unrouted

  predicate AllRouted(results: seq<SubResult>) {
    forall i :: 0 <= i < |results| ==> results[i].Routed?
  }

  function UsesOf(results: seq<SubResult>): seq<Op>
    requires AllRouted(results)
  {
    if results == [] then []
    else
      var r := results[|results| - 1];
      UsesOf(results[..|results| - 1]) + [Use(Entry(KeyFor(r.provider), r.provider, r.tokens, r.at))]
  }

  /** Every routed sub-task is one use, of its own provider under that provider's name, with its own tokens and time. */
  lemma {:induction false} EverySubTaskIsUsed(results: seq<SubResult>)
    requires AllRouted(results)
    ensures |UsesOf(results)| == |results|
    ensures forall i :: 0 <= i < |results| ==>
      var r := results[i];
      UsesOf(results)[i] == Use(Entry(Key(r.provider.id), r.provider, r.tokens, r.at))
  {
    if results != [] {
      EverySubTaskIsUsed(results[..|results| - 1]);
    }
  }

  /** The loop over the sub-tasks of a multi-intent request: every routed sub-task is recorded, up to the first that is
      not, and the request is answered exactly if all are routed. */
  method RunSubTasks(tracker: UsageTracker, results: seq<SubResult>) returns (contents: seq<string>, answered: bool)
    requires tracker.Valid()
    modifies tracker
    ensures tracker.Valid() && |contents| <= |results| && AllRouted(results[..|contents|])
    ensures tracker.ops == old(tracker.ops) + UsesOf(results[..|contents|])
    ensures forall i :: 0 <= i < |contents| ==> contents[i] == results[i].content
    ensures if answered then |contents| == |results| else |contents| < |results| && results[|contents|].Unrouted?
  {
    contents := [];
    for i := 0 to |results|
      invariant tracker.Valid() && |contents| == i && AllRouted(results[..i])
      invariant tracker.ops == old(tracker.ops) + UsesOf(results[..i])
      invariant forall j :: 0 <= j < i ==> contents[j] == results[j].content
    {
      var r := results[i];
      if r.Unrouted? {
        return contents, false;
      }
      tracker.RecordUse(KeyFor(r.provider), r.provider, r.tokens, r.at);
      assert results[..i + 1][..i] == results[..i];
      contents := contents + [r.content];
    }
    return contents, true;
  }

  // ---- Runs ----

  /** The tables, and for every provider the sub-tasks let through whose use is not yet recorded. */
  datatype State = State(tables: Tables, outstanding: map<Provider, nat>)

  function Outstanding(s: State, p: Provider): nat {
    if p in s.outstanding then s.outstanding[p] else 0
  }

  /** A request lets n sub-tasks through to an allowed provider; each ends with a recorded use or without one. */
  datatype Event =
    | Admits(provider: Provider, n: nat)
    | Ends(provider: Provider, used: bool, tokens: int, at: int)
    | Limits(provider: Provider, limit: int)

  /** Every provider has at most k sub-tasks outstanding. */
  predicate Enabled(tiers: map<Provider, Tier>, k: nat, s: State, ev: Event) {
    match ev
    case Admits(p, n) => Decide(tiers, s.tables, KeyFor(p), p).Allowed? && Outstanding(s, p) + n <= k
    case Ends(p, _, _, _) => Outstanding(s, p) > 0
    case Limits(_, _) => true
  }

  function Step(s: State, ev: Event): State {
    match ev
    case Admits(p, n) => s.(outstanding := s.outstanding[p := Outstanding(s, p) + n])
    case Ends(p, used, tokens, at) =>
      State(if used then Record(s.tables, Entry(KeyFor(p), p, tokens, at)) else s.tables,
            s.outstanding[p := if Outstanding(s, p) > 0 then Outstanding(s, p) - 1 else 0])
    case Limits(p, limit) => s.(tables := Apply(s.tables, SetLimit(p, limit)))
  }

  predicate Legal(tiers: map<Provider, Tier>, k: nat, s: State, events: seq<Event>)
    decreases |events|
  {
    events == [] || (Enabled(tiers, k, s, events[0]) && Legal(tiers, k, Step(s, events[0]), events[1..]))
  }

  function Run(s: State, events: seq<Event>): State
    decreases |events|
  {
    if events == [] then s else Run(Step(s, events[0]), events[1..])
  }

  /** What is kept for every provider: recorded and outstanding calls together stay below limit + k, and a paid provider
      has neither. */
  ghost predicate Bounded(tiers: map<Provider, Tier>, k: nat, s: State, p: Provider) {
    var key := KeyFor(p);
    && Outstanding(s, p) <= k
    && (Classify(tiers, p) == Paid ==> Outstanding(s, p) == 0 && key !in s.tables.rows)
    && (key in s.tables.rows && s.tables.rows[key].limit >= 1 ==>
          s.tables.rows[key].requests + Outstanding(s, p) <= s.tables.rows[key].limit - 1 + k)
  }

  lemma StepBounded(tiers: map<Provider, Tier>, k: nat, s: State, ev: Event, p: Provider)
    requires Enabled(tiers, k, s, ev) && Bounded(tiers, k, s, p)
    ensures Bounded(tiers, k, Step(s, ev), p)
  {
    if ev.Admits? && ev.provider == p {
      RefusedExactly(tiers, s.tables, KeyFor(p), p);
    }
    assert !ev.Limits? && KeyFor(ev.provider) == KeyFor(p) ==> ev.provider == p;
  }

  lemma {:induction false} RunBounded(tiers: map<Provider, Tier>, k: nat, s: State, events: seq<Event>, p: Provider)
    requires Legal(tiers, k, s, events) && Bounded(tiers, k, s, p)
    ensures Bounded(tiers, k, Run(s, events), p)
    decreases |events|
  {
    if events != [] {
      StepBounded(tiers, k, s, events[0], p);
      RunBounded(tiers, k, Step(s, events[0]), events[1..], p);
    }
  }

  function Start(): State {
    State(Tables(map[], map[]), map[])
  }

  /** Quota bound: with at most k outstanding sub-tasks per provider, the recorded requests of a provider whose row
      captured a positive limit are at most limit - 1 + k, so never above the limit when calls are sequential; and
      a paid provider is never used. */
  lemma QuotaBound(tiers: map<Provider, Tier>, k: nat, events: seq<Event>, p: Provider)
    requires Legal(tiers, k, Start(), events)
    ensures var rows := Run(Start(), events).tables.rows;
      && (KeyFor(p) in rows && rows[KeyFor(p)].limit >= 1 ==>
            && rows[KeyFor(p)].requests <= rows[KeyFor(p)].limit - 1 + k
            && (k <= 1 ==> rows[KeyFor(p)].requests <= rows[KeyFor(p)].limit))
      && (Classify(tiers, p) == Paid ==> KeyFor(p) !in rows)
  {
    RunBounded(tiers, k, Start(), events, p);
  }

  // ---- The bound is reached ----

  /** r requests recorded under this limit, o outstanding. */
  ghost predicate At(s: State, p: Provider, limit: int, r: nat, o: nat) {
    && Outstanding(s, p) == o && LimitOf(s.tables.config, p) == limit
    && (if KeyFor(p) !in s.tables.rows then r == 0
        else s.tables.rows[KeyFor(p)].limit == limit && s.tables.rows[KeyFor(p)].requests == r)
  }

  lemma AdmitAt(tiers: map<Provider, Tier>, k: nat, s: State, p: Provider, limit: int, r: nat, n: nat)
    requires Classify(tiers, p) == Free && At(s, p, limit, r, 0) && r < limit && n <= k
    ensures Enabled(tiers, k, s, Admits(p, n)) && At(Step(s, Admits(p, n)), p, limit, r, n)
  {
    RefusedExactly(tiers, s.tables, KeyFor(p), p);
  }

  lemma EndAt(tiers: map<Provider, Tier>, k: nat, s: State, p: Provider, limit: int, r: nat, o: nat)
    requires At(s, p, limit, r, o) && o > 0
    ensures Enabled(tiers, k, s, Ends(p, true, 0, 0)) && At(Step(s, Ends(p, true, 0, 0)), p, limit, r + 1, o - 1)
  {
  }

  /** From a quiet state below the limit, or while the last k calls come in. */
  lemma {:induction false} Drive(tiers: map<Provider, Tier>, k: nat, s: State, p: Provider, limit: int, r: nat, o: nat)
    returns (events: seq<Event>)
    requires Classify(tiers, p) == Free && k >= 1 && limit >= 1 && At(s, p, limit, r, o)
    requires (o == 0 && r <= limit - 1) || r + o == limit - 1 + k
    ensures Legal(tiers, k, s, events) && At(Run(s, events), p, limit, limit - 1 + k, 0)
    decreases limit + k - r, if o == 0 then 1 else 0
  {
    var end := Ends(p, true, 0, 0);
    if o > 0 {
      EndAt(tiers, k, s, p, limit, r, o);
      var rest := Drive(tiers, k, Step(s, end), p, limit, r + 1, o - 1);
      events := [end] + rest;
    } else if r == limit - 1 + k {
      events := [];
    } else if r == limit - 1 {
      AdmitAt(tiers, k, s, p, limit, r, k);
      var rest := Drive(tiers, k, Step(s, Admits(p, k)), p, limit, r, k);
      events := [Admits(p, k)] + rest;
    } else {
      AdmitAt(tiers, k, s, p, limit, r, 1);
      var mid := Step(s, Admits(p, 1));
      EndAt(tiers, k, mid, p, limit, r, 1);
      var rest := Drive(tiers, k, Step(mid, end), p, limit, r + 1, 0);
      var tail := [end] + rest;
      assert Legal(tiers, k, mid, tail) && Run(mid, tail) == Run(Step(mid, end), rest);
      events := [Admits(p, 1)] + tail;
    }
  }

  /** No smaller bound holds: for every positive limit and every k there is a run that records limit - 1 +
      k requests. */
  lemma BoundIsReached(tiers: map<Provider, Tier>, k: nat, p: Provider, limit: int) returns (events: seq<Event>)
    requires Classify(tiers, p) == Free && k >= 1 && limit >= 1
    ensures Legal(tiers, k, Start(), events)
    ensures var rows := Run(Start(), events).tables.rows;
      KeyFor(p) in rows && rows[KeyFor(p)].limit == limit && rows[KeyFor(p)].requests == limit - 1 + k
  {
    var configure := Limits(p, limit);
    var rest := Drive(tiers, k, Step(Start(), configure), p, limit, 0, 0);
    events := [configure] + rest;
  }
}
