/** The distributor: every node of a stage runs at once, results are yielded in completion order by a race
    over a shrinking list, and each node is retried on other capable workers. */
module Distributor {
  import opened Dag
  import opened Outcomes
  import opened Stages
  import Kahn
  import Planner

  /** A pending promise of the entries list: it will carry its index and the result of its node. */
  datatype Entry = Entry(idx: nat, node: Id)

  datatype Yield<T> = Yield(node: Id, value: T)

  function YieldIds<T>(ys: seq<Yield<T>>): seq<Id> {
    seq(|ys|, i requires 0 <= i < |ys| => ys[i].node)
  }

  /** Which entry settles first; any function of what has been seen so far is a completion order. */
  type Race<!T> = (seq<Entry>, seq<Yield<T>>) -> nat

  ghost predicate Indexed(entries: seq<Entry>) {
    forall i :: 0 <= i < |entries| ==> entries[i].idx == i
  }

  function Nodes(entries: seq<Entry>): seq<Id> {
    seq(|entries|, i requires 0 <= i < |entries| => entries[i].node)
  }

  /** What is left after the entry at position p has been replaced by the last one, re-indexed, and the
      last one popped. */
  lemma SwapRemoved(entries: seq<Entry>, p: nat, after: seq<Entry>)
    requires Indexed(entries) && p < |entries|
    requires after == entries[p := Entry(p, entries[|entries| - 1].node)][..|entries| - 1]
    ensures Indexed(after)
    ensures multiset(Nodes(entries)) == multiset(Nodes(after)) + multiset{entries[p].node}
  {
    var n := |entries| - 1;
    var a, b := Nodes(entries), Nodes(after);
    assert a == a[..n] + [a[n]];
    if p < n {
      assert b == a[..n][p := a[n]];
      assert a[..n] == a[..p] + [a[p]] + a[p + 1..n];
      assert b == a[..p] + [a[n]] + a[p + 1..n];
    } else {
      assert b == a[..n];
    }
  }

  /** One stage of distribute. It either yielded every node of the stage exactly once, or stops at a node
      that failed, having yielded only nodes of the stage that did not. */
  method DistributeStage<T>(ids: seq<Id>, outcome: Id -> Outcome<T>, race: Race<T>, before: seq<Yield<T>>)
    returns (yielded: seq<Yield<T>>, failed: seq<Id>)
    ensures before <= yielded
    ensures forall i :: |before| <= i < |yielded| ==> outcome(yielded[i].node) == Value(yielded[i].value)
    ensures failed == [] ==> multiset(YieldIds(yielded[|before|..])) == multiset(ids)
    ensures failed != [] ==> |failed| == 1 && outcome(failed[0]).Error?
    ensures failed != [] ==> multiset(YieldIds(yielded[|before|..])) + multiset(failed) <= multiset(ids)
  {
    var entries := seq(|ids|, i requires 0 <= i < |ids| => Entry(i, ids[i]));
    assert Nodes(entries) == ids;
    yielded, failed := before, [];
    ghost var own: seq<Id> := [];
    while |entries| > 0
      invariant Indexed(entries)
      invariant before <= yielded && own == YieldIds(yielded[|before|..])
      invariant forall i :: |before| <= i < |yielded| ==> outcome(yielded[i].node) == Value(yielded[i].value)
      invariant multiset(own) + multiset(Nodes(entries)) == multiset(ids)
      decreases |entries|
    {
      var p := race(entries, yielded) % |entries|;
      var winner := entries[p];
      var lastIdx := |entries| - 1;
      ghost var all := entries;
      SwapRemoved(entries, p, entries[p := Entry(p, entries[lastIdx].node)][..lastIdx]);
      if outcome(winner.node).Error? {
        failed := [winner.node];
        return;
      }
      yielded := yielded + [Yield(winner.node, outcome(winner.node).value)];
      assert YieldIds(yielded[|before|..]) == own + [winner.node];
      own := own + [winner.node];
      if winner.idx != lastIdx {
        entries := entries[winner.idx := Entry(winner.idx, entries[lastIdx].node)];
      }
      entries := entries[..lastIdx];
      assert entries == all[p := Entry(p, all[lastIdx].node)][..lastIdx];
    }
    assert Nodes(entries) == [];
  }

  datatype Distribution<T> =
    | Yielded(yielded: seq<Yield<T>>)
    | Threw(yielded: seq<Yield<T>>, node: Id)
    | NoStages(why: StageResult)

  /** Yielded nodes come after their dependencies, and at most once each. */
  ghost predicate ProperYields<T>(adj: Deps, yielded: seq<Yield<T>>) {
    NoDup(YieldIds(yielded)) && DepsFirst(adj, YieldIds(yielded))
  }

  lemma OneOfEach(ids: seq<Id>, extra: seq<Id>)
    requires NoDup(ids) && multiset(extra) <= multiset(ids)
    ensures NoDup(extra) && ToSet(extra) <= ToSet(ids)
    ensures multiset(extra) == multiset(ids) ==> ToSet(extra) == ToSet(ids)
  {
    forall x ensures x in multiset(ids) <==> x in ids {
      Planner.OnceInMultiset(ids, x);
    }
    forall i, j | 0 <= i < j < |extra| ensures extra[i] != extra[j] {
      if extra[i] == extra[j] {
        TwiceInMultiset(extra, i, j);
        Planner.OnceInMultiset(ids, extra[i]);
        assert false;
      }
    }
    forall x | x in extra ensures x in ids { assert x in multiset(extra); }
  }

  lemma TwiceInMultiset(s: seq<Id>, i: nat, j: nat)
    requires i < j < |s| && s[i] == s[j]
    ensures multiset(s)[s[i]] >= 2
  {
    assert s == s[..i] + [s[i]] + s[i + 1..j] + [s[j]] + s[j + 1..];
  }

  /** Adding some nodes of one stage, each once, to the yielded of all earlier stages. */
  lemma {:induction false} StageYields(adj: Deps, stages: seq<seq<Node>>, k: nat, base: seq<Id>, extra: seq<Id>)
    requires Layered(adj, stages) && k < |stages|
    requires NoDup(base) && DepsFirst(adj, base) && ToSet(base) == ToSet(FlatIds(stages[..k]))
    requires NoDup(extra) && ToSet(extra) <= ToSet(StageIds(stages[k]))
    ensures NoDup(base + extra) && DepsFirst(adj, base + extra)
  {
    StageApart(adj, stages, k);
    if extra == [] {
      assert base + extra == base;
    } else {
      var m := |extra| - 1;
      StageYields(adj, stages, k, base, extra[..m]);
      var front, x := base + extra[..m], extra[m];
      assert base + extra == front + [x];
      assert x in ToSet(extra);
      forall d | d in DepsOf(adj, x) ensures d in ToSet(front) {
        assert d in ToSet(FlatIds(stages[..k]));
        assert d in base;
      }
      Planner.AppendDepsFirst(adj, front, x);
      assert x !in front by { assert x !in ToSet(base); }
    }
  }

  lemma StageApart(adj: Deps, stages: seq<seq<Node>>, k: nat)
    requires Layered(adj, stages) && k < |stages|
    ensures ToSet(FlatIds(stages[..k + 1])) == ToSet(FlatIds(stages[..k])) + ToSet(StageIds(stages[k]))
    ensures ToSet(FlatIds(stages[..k])) !! ToSet(StageIds(stages[k]))
    ensures forall x, d :: x in StageIds(stages[k]) && d in DepsOf(adj, x) ==> d in ToSet(FlatIds(stages[..k]))
    ensures NoDup(StageIds(stages[k]))
  {
    StageDeps(adj, stages, k);
    FlatPrefixNoDup(stages, k + 1);
    var f, g := FlatIds(stages[..k]), StageIds(stages[k]);
    forall i, j | 0 <= i < |f| && 0 <= j < |g| ensures f[i] != g[j] {
      assert (f + g)[i] == f[i] && (f + g)[|f| + j] == g[j];
    }
    forall i, j | 0 <= i < j < |g| ensures g[i] != g[j] {
      assert (f + g)[|f| + i] == g[i] && (f + g)[|f| + j] == g[j];
    }
  }

  ghost predicate Through<T>(adj: Deps, stages: seq<seq<Node>>, k: nat, outcome: Id -> Outcome<T>,
                             yielded: seq<Yield<T>>)
    requires k <= |stages|
  {
    && ProperYields(adj, yielded) && ToSet(YieldIds(yielded)) == ToSet(FlatIds(stages[..k]))
    && forall i :: 0 <= i < |yielded| ==> outcome(yielded[i].node) == Value(yielded[i].value)
  }

  lemma StageDone<T>(adj: Deps, stages: seq<seq<Node>>, k: nat, outcome: Id -> Outcome<T>,
                     before: seq<Yield<T>>, yielded: seq<Yield<T>>)
    requires Layered(adj, stages) && k < |stages| && Through(adj, stages, k, outcome, before)
    requires before <= yielded && multiset(YieldIds(yielded[|before|..])) <= multiset(StageIds(stages[k]))
    requires forall i :: |before| <= i < |yielded| ==> outcome(yielded[i].node) == Value(yielded[i].value)
    ensures ProperYields(adj, yielded)
    ensures multiset(YieldIds(yielded[|before|..])) == multiset(StageIds(stages[k])) ==>
      Through(adj, stages, k + 1, outcome, yielded)
  {
    var base, extra := YieldIds(before), YieldIds(yielded[|before|..]);
    assert YieldIds(yielded) == base + extra;
    StageApart(adj, stages, k);
    OneOfEach(StageIds(stages[k]), extra);
    StageYields(adj, stages, k, base, extra);
    assert ToSet(base + extra) == ToSet(base) + ToSet(extra);
  }

  /** distribute: for every completion order each node is yielded at most once and after its dependencies; if no
      node fails, all of them are. */
  method Distribute<T>(nodes: seq<Node>, outcome: Id -> Outcome<T>, race: Race<T>) returns (r: Distribution<T>)
    ensures r.NoStages? <==> !(UniqueIds(nodes) && DepsKnown(nodes) && !Cyclic(DepMap(nodes)))
    ensures !r.NoStages? ==> ProperYields(DepMap(nodes), r.yielded)
    ensures !r.NoStages? ==>
      forall i :: 0 <= i < |r.yielded| ==> outcome(r.yielded[i].node) == Value(r.yielded[i].value)
    ensures r.Yielded? ==> ToSet(YieldIds(r.yielded)) == Ids(nodes)
    ensures r.Threw? ==> outcome(r.node).Error? && r.node in Ids(nodes)
  {
    var staged := Kahn.ComputeStages(nodes);
    if !staged.Stages? { return NoStages(staged); }
    var stages := staged.stages;
    ghost var adj := DepMap(nodes);
    var yielded: seq<Yield<T>> := [];
    var k := 0;
    while k < |stages|
      invariant 0 <= k <= |stages| && Through(adj, stages, k, outcome, yielded)
    {
      var ids := StageIds(stages[k]);
      var yielded', failed := DistributeStage(ids, outcome, race, yielded);
      StageDone(adj, stages, k, outcome, yielded, yielded');
      if failed != [] {
        FailedIsNode(nodes, stages, k, failed[0], multiset(YieldIds(yielded'[|yielded|..])));
        return Threw(yielded', failed[0]);
      }
      yielded := yielded';
      k := k + 1;
    }
    assert stages[..|stages|] == stages;
    return Yielded(yielded);
  }

  lemma FailedIsNode(nodes: seq<Node>, stages: seq<seq<Node>>, k: nat, node: Id, rest: multiset<Id>)
    requires IsStaging(nodes, stages) && k < |stages|
    requires rest + multiset([node]) <= multiset(StageIds(stages[k]))
    ensures node in Ids(nodes)
  {
    assert node in multiset(StageIds(stages[k]));
    assert InStage(stages, k, node);
    FlatMembers(stages, node);
    assert node in ToSet(FlatIds(stages));
  }

  datatype Aggregation<T> = Aggregated(results: map<Id, T>) | NodeThrew(node: Id) | NothingStaged

  /** aggregate: it returns exactly if the graph can be staged and no node fails, for every completion order, and then
      holds every node's own result. */
  method Aggregate<T>(nodes: seq<Node>, outcome: Id -> Outcome<T>, race: Race<T>) returns (r: Aggregation<T>)
    ensures r.Aggregated? <==> UniqueIds(nodes) && DepsKnown(nodes) && !Cyclic(DepMap(nodes))
                               && forall id :: id in Ids(nodes) ==> outcome(id).Value?
    ensures r.Aggregated? ==> r.results.Keys == Ids(nodes)
    ensures r.Aggregated? ==> forall id :: id in r.results ==> outcome(id) == Value(r.results[id])
    ensures r.NodeThrew? ==> r.node in Ids(nodes) && outcome(r.node).Error?
  {
    var d := Distribute(nodes, outcome, race);
    if d.NoStages? {
      return NothingStaged;
    }
    if d.Threw? {
      return NodeThrew(d.node);
    }
    var results: map<Id, T> := map[];
    for i := 0 to |d.yielded|
      invariant results.Keys == ToSet(YieldIds(d.yielded)[..i])
      invariant forall id :: id in results ==> outcome(id) == Value(results[id])
    {
      assert YieldIds(d.yielded)[..i + 1] == YieldIds(d.yielded)[..i] + [d.yielded[i].node];
      results := results[d.yielded[i].node := d.yielded[i].value];
    }
    assert YieldIds(d.yielded)[..|d.yielded|] == YieldIds(d.yielded);
    forall id | id in Ids(nodes) ensures outcome(id).Value? { assert id in results; }
    return Aggregated(results);
  }

  // ---- Retrying one node ----

  datatype Capability = Capability(name: string)

  datatype Requirement = Anything | Needs(capability: Capability)

  datatype PoolWorker = PoolWorker(id: Id, capabilities: seq<Capability>)

  /** An empty capability name counts as no requirement. */
  predicate Capable(w: PoolWorker, required: Requirement) {
    required.Needs? && required.capability.name != "" ==> required.capability in w.capabilities
  }

  function Candidates(pool: seq<PoolWorker>, required: Requirement, tried: set<Id>): seq<PoolWorker> {
    if pool == [] then []
    else Candidates(pool[..|pool| - 1], required, tried) +
         var w := pool[|pool| - 1]; if w.id !in tried && Capable(w, required) then [w] else []
  }

  function Stamp(stamps: map<Id, int>, w: PoolWorker): int {
    if w.id in stamps then stamps[w.id] else 0
  }

  /** The head of the candidates after a stable sort by time stamp. */
  function LeastRecent(candidates: seq<PoolWorker>, stamps: map<Id, int>): (w: PoolWorker)
    requires candidates != []
  {
    var last := candidates[|candidates| - 1];
    if |candidates| == 1 then last
    else
      var w := LeastRecent(candidates[..|candidates| - 1], stamps);
      if Stamp(stamps, w) <= Stamp(stamps, last) then w else last
  }

  function CapableIds(pool: seq<PoolWorker>, required: Requirement): set<Id> {
    if pool == [] then {} else
      CapableIds(pool[..|pool| - 1], required) + var w := pool[|pool| - 1]; if Capable(w, required) then {w.id} else {}
  }

  lemma {:induction false} CandidatesAre(pool: seq<PoolWorker>, required: Requirement, tried: set<Id>, w: PoolWorker)
    ensures w in Candidates(pool, required, tried) <==> w in pool && Capable(w, required) && w.id !in tried
  {
    if pool != [] {
      CandidatesAre(pool[..|pool| - 1], required, tried, w);
      assert pool == pool[..|pool| - 1] + [pool[|pool| - 1]];
    }
  }

  ghost predicate CapableAt(pool: seq<PoolWorker>, required: Requirement, id: Id, i: nat)
    requires i < |pool|
  {
    Capable(pool[i], required) && pool[i].id == id
  }

  lemma {:induction false} CapableIdsAre(pool: seq<PoolWorker>, required: Requirement, id: Id)
    ensures id in CapableIds(pool, required) <==> exists i :: 0 <= i < |pool| && CapableAt(pool, required, id, i)
  {
    if pool != [] {
      var n := |pool| - 1;
      CapableIdsAre(pool[..n], required, id);
      assert forall i :: 0 <= i < n ==> CapableAt(pool, required, id, i) == CapableAt(pool[..n], required, id, i);
      assert CapableAt(pool, required, id, n) <==> Capable(pool[n], required) && pool[n].id == id;
    }
  }

  datatype Attempt = Attempt(worker: PoolWorker, stamps: map<Id, int>)

  datatype Dispatch = Succeeded(worker: Id) | DispatchError(attempts: nat)

  predicate Eligible(w: PoolWorker, required: Requirement, tried: set<Id>) {
    Capable(w, required) && w.id !in tried
  }

  /** Position i of the pool comes first among the eligible ones: used least recently, and earlier in the pool than any
      other that was used as long ago. */
  ghost predicate Heads(pool: seq<PoolWorker>, required: Requirement, tried: set<Id>, stamps: map<Id, int>, i: nat)
    requires i < |pool|
  {
    && Eligible(pool[i], required, tried)
    && forall j {:trigger Outranks(pool, stamps, i, j)} ::
         0 <= j < |pool| && Eligible(pool[j], required, tried) ==> Outranks(pool, stamps, i, j)
  }

  predicate Outranks(pool: seq<PoolWorker>, stamps: map<Id, int>, i: nat, j: nat)
    requires i < |pool| && j < |pool|
  {
    Stamp(stamps, pool[i]) < Stamp(stamps, pool[j]) || (Stamp(stamps, pool[i]) == Stamp(stamps, pool[j]) && i <= j)
  }

  /** The chosen worker can do the job, was not tried before, and comes first among all such. */
  ghost predicate WellChosen(pool: seq<PoolWorker>, required: Requirement, tried: set<Id>, a: Attempt) {
    exists i :: 0 <= i < |pool| && pool[i] == a.worker && Heads(pool, required, tried, a.stamps, i)
  }

  lemma LeastRecentOfOne(w: PoolWorker, stamps: map<Id, int>)
    ensures LeastRecent([w], stamps) == w
  {
  }

  lemma LeastRecentOfMore(candidates: seq<PoolWorker>, w: PoolWorker, stamps: map<Id, int>)
    requires candidates != []
    ensures var head := LeastRecent(candidates, stamps);
      LeastRecent(candidates + [w], stamps) == if Stamp(stamps, head) <= Stamp(stamps, w) then head else w
  {
    assert (candidates + [w])[..|candidates|] == candidates;
  }

  lemma NobodyEligible(pool: seq<PoolWorker>, required: Requirement, tried: set<Id>, j: nat)
    requires Candidates(pool, required, tried) == [] && j < |pool|
    ensures !Eligible(pool[j], required, tried)
  {
    CandidatesAre(pool, required, tried, pool[j]);
  }

  /** A head stays first if the worker after the others does not undercut it. */
  lemma StaysFirst(pool: seq<PoolWorker>, required: Requirement, tried: set<Id>, stamps: map<Id, int>, i: nat)
    requires i < |pool| - 1 && Heads(pool[..|pool| - 1], required, tried, stamps, i)
    requires Eligible(pool[|pool| - 1], required, tried) ==> Stamp(stamps, pool[i]) <= Stamp(stamps, pool[|pool| - 1])
    ensures Heads(pool, required, tried, stamps, i)
  {
    var front := pool[..|pool| - 1];
    forall j | 0 <= j < |pool| && Eligible(pool[j], required, tried) ensures Outranks(pool, stamps, i, j) {
      if j < |pool| - 1 {
        assert front[j] == pool[j];
        assert Outranks(front, stamps, i, j);
      }
    }
  }

  /** The last worker comes first if it undercuts the head of the others. */
  lemma LastIsFirst(pool: seq<PoolWorker>, required: Requirement, tried: set<Id>, stamps: map<Id, int>, i: nat)
    requires i < |pool| - 1 && Heads(pool[..|pool| - 1], required, tried, stamps, i)
    requires Eligible(pool[|pool| - 1], required, tried) && Stamp(stamps, pool[|pool| - 1]) < Stamp(stamps, pool[i])
    ensures Heads(pool, required, tried, stamps, |pool| - 1)
  {
    var front, n := pool[..|pool| - 1], |pool| - 1;
    forall j | 0 <= j < |pool| && Eligible(pool[j], required, tried) ensures Outranks(pool, stamps, n, j) {
      if j < n {
        assert front[j] == pool[j];
        assert Outranks(front, stamps, i, j);
      }
    }
  }

  lemma OnlyLast(pool: seq<PoolWorker>, required: Requirement, tried: set<Id>, stamps: map<Id, int>)
    requires pool != [] && Candidates(pool[..|pool| - 1], required, tried) == []
    requires Eligible(pool[|pool| - 1], required, tried)
    ensures Heads(pool, required, tried, stamps, |pool| - 1)
  {
    var front, n := pool[..|pool| - 1], |pool| - 1;
    forall j | 0 <= j < |pool| && Eligible(pool[j], required, tried) ensures Outranks(pool, stamps, n, j) {
      if j < n {
        NobodyEligible(front, required, tried, j);
      }
    }
  }

  lemma CandidatesStep(pool: seq<PoolWorker>, required: Requirement, tried: set<Id>)
    requires pool != []
    ensures var before, last := Candidates(pool[..|pool| - 1], required, tried), pool[|pool| - 1];
      Candidates(pool, required, tried) == if Eligible(last, required, tried) then before + [last] else before
  {
    var before := Candidates(pool[..|pool| - 1], required, tried);
    assert before + [] == before;
  }

  lemma {:induction false} LeastRecentHeads(pool: seq<PoolWorker>, required: Requirement, tried: set<Id>,
                                            stamps: map<Id, int>)
    returns (i: nat)
    requires Candidates(pool, required, tried) != []
    ensures i < |pool| && pool[i] == LeastRecent(Candidates(pool, required, tried), stamps)
    ensures Heads(pool, required, tried, stamps, i)
  {
    var n := |pool| - 1;
    var before, last := Candidates(pool[..n], required, tried), pool[n];
    CandidatesStep(pool, required, tried);
    if before == [] {
      i := n;
      OnlyLast(pool, required, tried, stamps);
      LeastRecentOfOne(last, stamps);
      assert before + [last] == [last];
    } else {
      i := LeastRecentHeads(pool[..n], required, tried, stamps);
      LeastRecentOfMore(before, last, stamps);
      if Eligible(last, required, tried) && Stamp(stamps, last) < Stamp(stamps, pool[i]) {
        LastIsFirst(pool, required, tried, stamps, i);
        i := n;
      } else {
        StaysFirst(pool, required, tried, stamps, i);
      }
    }
  }

  function Workers(attempts: seq<Attempt>): set<Id> {
    if attempts == [] then {} else Workers(attempts[..|attempts| - 1]) + {attempts[|attempts| - 1].worker.id}
  }

  /** Every attempt, in order, was well chosen given the earlier ones and the time stamps it found. */
  ghost predicate WellTried(pool: seq<PoolWorker>, required: Requirement, stampsAt: nat -> map<Id, int>,
                            attempts: seq<Attempt>)
  {
    attempts == [] ||
    (var front, last := attempts[..|attempts| - 1], attempts[|attempts| - 1];
     && WellTried(pool, required, stampsAt, front)
     && WellChosen(pool, required, Workers(front), last)
     && last.stamps == stampsAt(|front|))
  }

  /** Well-tried workers are distinct and capable. */
  lemma {:induction false} TriedAreDistinct(pool: seq<PoolWorker>, required: Requirement,
                                            stampsAt: nat -> map<Id, int>, attempts: seq<Attempt>)
    requires WellTried(pool, required, stampsAt, attempts)
    ensures Workers(attempts) <= CapableIds(pool, required) && |Workers(attempts)| == |attempts|
  {
    if attempts != [] {
      var front, last := attempts[..|attempts| - 1], attempts[|attempts| - 1];
      TriedAreDistinct(pool, required, stampsAt, front);
      var i :| 0 <= i < |pool| && pool[i] == last.worker && Heads(pool, required, Workers(front), last.stamps, i);
      assert CapableAt(pool, required, last.worker.id, i);
      CapableIdsAre(pool, required, last.worker.id);
    }
  }

  function Min(a: int, b: int): int { if a <= b then a else b }

  function Max(a: int, b: int): int { if a >= b then a else b }

  predicate AllFailed(fails: nat -> bool, n: nat) {
    n == 0 || (AllFailed(fails, n - 1) && fails(n - 1))
  }

  /** The worker lists the capability, where one is named. */
  predicate CanDo(w: PoolWorker, required: Requirement) {
    match required
    case Anything => true
    case Needs(capability) => capability == Capability("") || capability in w.capabilities
  }

  /** When a worker was last used; one that never was comes before all times. */
  function LastUse(stamps: map<Id, int>, id: Id): int {
    if id !in stamps then 0 else stamps[id]
  }

  /** A choice, spelled out: a worker of the pool that can do the job and was not tried. Every other such worker was
      used later, or as long ago and stands behind it in the pool. */
  lemma ChoiceMeans(pool: seq<PoolWorker>, required: Requirement, tried: set<Id>, a: Attempt) returns (i: nat)
    requires WellChosen(pool, required, tried, a)
    ensures i < |pool| && pool[i] == a.worker && CanDo(a.worker, required) && a.worker.id !in tried
    ensures forall j :: 0 <= j < |pool| && j != i && CanDo(pool[j], required) && pool[j].id !in tried ==>
      && LastUse(a.stamps, a.worker.id) <= LastUse(a.stamps, pool[j].id)
      && (LastUse(a.stamps, a.worker.id) == LastUse(a.stamps, pool[j].id) ==> i < j)
  {
    i :| 0 <= i < |pool| && pool[i] == a.worker && Heads(pool, required, tried, a.stamps, i);
    forall j | 0 <= j < |pool| && j != i && CanDo(pool[j], required) && pool[j].id !in tried
      ensures LastUse(a.stamps, a.worker.id) <= LastUse(a.stamps, pool[j].id)
      ensures LastUse(a.stamps, a.worker.id) == LastUse(a.stamps, pool[j].id) ==> i < j
    {
      assert Outranks(pool, a.stamps, i, j);
    }
  }

  /** The workers whose number bounds the attempts are those of the pool that can do the job. */
  lemma CapableMeans(pool: seq<PoolWorker>, required: Requirement, id: Id)
    ensures id in CapableIds(pool, required) <==> exists w :: w in pool && w.id == id && CanDo(w, required)
  {
    CapableIdsAre(pool, required, id);
    if id in CapableIds(pool, required) {
      var i :| 0 <= i < |pool| && CapableAt(pool, required, id, i);
      assert pool[i] in pool;
    }
    if w :| w in pool && w.id == id && CanDo(w, required) {
      var i :| 0 <= i < |pool| && pool[i] == w;
      assert CapableAt(pool, required, id, i);
    }
  }

  /** selectWorker: none exactly when every capable worker was tried; otherwise a well-chosen one. */
  method SelectWorker(pool: seq<PoolWorker>, required: Requirement, tried: set<Id>, stamps: map<Id, int>)
    returns (selected: seq<PoolWorker>)
    ensures selected == [] <==> CapableIds(pool, required) <= tried
    ensures selected != [] ==> WellChosen(pool, required, tried, Attempt(selected[0], stamps))
  {
    var candidates := Candidates(pool, required, tried);
    NoneLeft(pool, required, tried);
    if candidates == [] { return []; }
    ghost var i := LeastRecentHeads(pool, required, tried, stamps);
    return [LeastRecent(candidates, stamps)];
  }

  lemma NoneLeft(pool: seq<PoolWorker>, required: Requirement, tried: set<Id>)
    ensures Candidates(pool, required, tried) == [] <==> CapableIds(pool, required) <= tried
  {
    var candidates := Candidates(pool, required, tried);
    forall w ensures w in candidates <==> w in pool && Capable(w, required) && w.id !in tried {
      CandidatesAre(pool, required, tried, w);
    }
    forall id { CapableIdsAre(pool, required, id); }
    if candidates != [] {
      assert candidates[0] in candidates;
    }
  }

  /** The next attempt: its worker, or none if every capable worker was tried. */
  method NextAttempt(pool: seq<PoolWorker>, required: Requirement, stampsAt: nat -> map<Id, int>,
                     attempts: seq<Attempt>,
                     tried: set<Id>)
    returns (more: seq<Attempt>)
    requires WellTried(pool, required, stampsAt, attempts) && tried == Workers(attempts)
    ensures more == [] ==> |CapableIds(pool, required)| == |tried| == |attempts|
    ensures more != [] ==> |more| == 1 && WellTried(pool, required, stampsAt, attempts + more)
    ensures more != [] ==> Workers(attempts + more) == tried + {more[0].worker.id}
  {
    var stamps := stampsAt(|attempts|);
    var selected := SelectWorker(pool, required, tried, stamps);
    if selected == [] {
      AllTried(pool, required, stampsAt, attempts);
      return [];
    }
    TriedMore(pool, required, stampsAt, attempts, Attempt(selected[0], stamps));
    return [Attempt(selected[0], stamps)];
  }

  /** executeNodeWithRetry over a fixed pool. stampsAt(k) is the time-stamp map that attempt k finds, which other
      nodes' attempts may have changed; fails(k) says whether the run of attempt k throws. */
  method ExecuteNodeWithRetry(pool: seq<PoolWorker>, required: Requirement, retryCap: int,
                              stampsAt: nat -> map<Id, int>, fails: nat -> bool)
    returns (r: Dispatch, attempts: seq<Attempt>)
    ensures WellTried(pool, required, stampsAt, attempts)
    ensures r.Succeeded? ==> attempts != [] && AllFailed(fails, |attempts| - 1) && !fails(|attempts| - 1)
    ensures r.DispatchError? ==> AllFailed(fails, |attempts|)
    ensures r.Succeeded? ==>
      attempts != [] && r.worker == attempts[|attempts| - 1].worker.id && |attempts| <= retryCap + 1
    ensures r.DispatchError? ==> r.attempts == |attempts| == Min(Max(retryCap + 1, 0), |CapableIds(pool, required)|)
  {
    attempts := [];
    var tried: set<Id> := {};
    var attempt := 0;
    while attempt <= retryCap
      invariant attempt == |attempts| <= Max(retryCap + 1, 0)
      invariant tried == Workers(attempts) && WellTried(pool, required, stampsAt, attempts)
      invariant AllFailed(fails, |attempts|)
    {
      var more := NextAttempt(pool, required, stampsAt, attempts, tried);
      if more == [] {
        return DispatchError(|tried|), attempts;
      }
      tried, attempts := tried + {more[0].worker.id}, attempts + more;
      if !fails(attempt) {
        assert |attempts| - 1 == attempt;
        return Succeeded(more[0].worker.id), attempts;
      }
      attempt := attempt + 1;
    }
    CountTried(pool, required, stampsAt, attempts);
    return DispatchError(|tried|), attempts;
  }

  lemma CountTried(pool: seq<PoolWorker>, required: Requirement, stampsAt: nat -> map<Id, int>, attempts: seq<Attempt>)
    requires WellTried(pool, required, stampsAt, attempts)
    ensures |Workers(attempts)| == |attempts| <= |CapableIds(pool, required)|
  {
    TriedAreDistinct(pool, required, stampsAt, attempts);
    var all, tried := CapableIds(pool, required), Workers(attempts);
    assert all == tried + (all - tried);
  }

  lemma AllTried(pool: seq<PoolWorker>, required: Requirement, stampsAt: nat -> map<Id, int>, attempts: seq<Attempt>)
    requires WellTried(pool, required, stampsAt, attempts)
    requires CapableIds(pool, required) <= Workers(attempts)
    ensures |CapableIds(pool, required)| == |Workers(attempts)| == |attempts|
  {
    TriedAreDistinct(pool, required, stampsAt, attempts);
    assert Workers(attempts) == CapableIds(pool, required);
  }

  lemma TriedMore(pool: seq<PoolWorker>, required: Requirement, stampsAt: nat -> map<Id, int>, attempts: seq<Attempt>,
                  a: Attempt)
    requires WellTried(pool, required, stampsAt, attempts)
    requires WellChosen(pool, required, Workers(attempts), a) && a.stamps == stampsAt(|attempts|)
    ensures WellTried(pool, required, stampsAt, attempts + [a])
    ensures Workers(attempts + [a]) == Workers(attempts) + {a.worker.id}
  {
    OneMoreWorker(attempts, a);
    assert (attempts + [a])[..|attempts|] == attempts;
  }

  lemma OneMoreWorker(attempts: seq<Attempt>, a: Attempt)
    ensures Workers(attempts + [a]) == Workers(attempts) + {a.worker.id}
  {
    assert (attempts + [a])[..|attempts|] == attempts;
  }
}
