/** Stage computation (Kahn's algorithm, layer by layer): the stages exist exactly when the graph is
    a proper DAG, and each node sits at the depth of its longest dependency chain. */
module Stages {
  import opened Dag

  datatype StageResult =
    | Stages(stages: seq<seq<Node>>)
    | DuplicateId(id: Id)
    | UnknownDependency(id: Id, dep: Id)
    | NoRoots
    | CycleFound(processed: nat, total: nat)

  function StageIds(stage: seq<Node>): seq<Id> {
    seq(|stage|, i requires 0 <= i < |stage| => stage[i].id)
  }

  function FlatIds(stages: seq<seq<Node>>): seq<Id> {
    if stages == [] then [] else FlatIds(stages[..|stages| - 1]) + StageIds(stages[|stages| - 1])
  }

  predicate InStage(stages: seq<seq<Node>>, k: int, id: Id) {
    0 <= k < |stages| && id in StageIds(stages[k])
  }

  /** Node i of stage k has all its dependencies in earlier stages... */
  ghost predicate DepsEarlier(adj: Deps, stages: seq<seq<Node>>, k: nat, id: Id) {
    forall d :: d in DepsOf(adj, id) ==> exists j :: 0 <= j < k && InStage(stages, j, d)
  }

  /** ...and, unless k is 0, one of them in the stage just before. */
  ghost predicate Tight(adj: Deps, stages: seq<seq<Node>>, k: nat, id: Id) {
    k > 0 ==> exists d :: d in DepsOf(adj, id) && InStage(stages, k - 1, d)
  }

  ghost predicate WellPlaced(adj: Deps, stages: seq<seq<Node>>, k: nat, id: Id) {
    DepsEarlier(adj, stages, k, id) && Tight(adj, stages, k, id)
  }

  /** The stages so far: no empty stage, no node twice, every node well placed. */
  ghost predicate Layered(adj: Deps, stages: seq<seq<Node>>) {
    && (forall k :: 0 <= k < |stages| ==> stages[k] != [])
    && NoDup(FlatIds(stages))
    && (forall k: nat, id {:trigger WellPlaced(adj, stages, k, id)} ::
          InStage(stages, k, id) ==> WellPlaced(adj, stages, k, id))
  }

  /** The stages partition the nodes, and every node is well placed. */
  ghost predicate IsStaging(nodes: seq<Node>, stages: seq<seq<Node>>) {
    && Layered(DepMap(nodes), stages)
    && ToSet(FlatIds(stages)) == Ids(nodes)
    && AllAmong(nodes, stages)
  }

  /** Only nodes of the graph are placed. */
  predicate AllAmong(nodes: seq<Node>, stages: seq<seq<Node>>) {
    stages == [] || (AllAmong(nodes, stages[..|stages| - 1]) && Among(nodes, stages[|stages| - 1]))
  }

  predicate Among(nodes: seq<Node>, stage: seq<Node>) {
    forall n :: n in stage ==> n in nodes
  }

  // ---- What a staging means ----

  lemma {:induction false} FlatMembers(stages: seq<seq<Node>>, id: Id)
    ensures id in FlatIds(stages) <==> exists k :: InStage(stages, k, id)
  {
    if stages != [] {
      var m := |stages| - 1;
      var front := stages[..m];
      FlatMembers(front, id);
      assert id in FlatIds(stages) <==> id in FlatIds(front) || id in StageIds(stages[m]);
      if k :| InStage(front, k, id) { assert InStage(stages, k, id); }
      if k :| InStage(stages, k, id) {
        if k < m { assert InStage(front, k, id); }
      }
      if id in StageIds(stages[m]) { assert InStage(stages, m, id); }
    }
  }

  ghost predicate ChainFrom(adj: Deps, id: Id, p: seq<Id>) {
    IsChain(adj, p) && p[0] == id
  }

  lemma {:induction false} NoLongerChain(adj: Deps, stages: seq<seq<Node>>, k: nat, id: Id, p: seq<Id>)
    requires Layered(adj, stages) && InStage(stages, k, id) && ChainFrom(adj, id, p)
    ensures |p| <= k + 1
    decreases |p|
  {
    if |p| > 1 {
      assert WellPlaced(adj, stages, k, id);
      assert Link(adj, p, 0);
      var j :| 0 <= j < k && InStage(stages, j, p[1]);
      var q := p[1..];
      forall i | 0 <= i < |q| - 1 ensures Link(adj, q, i) { assert Link(adj, p, i + 1); }
      NoLongerChain(adj, stages, j, p[1], q);
    }
  }

  lemma {:induction false} DeepestChain(adj: Deps, stages: seq<seq<Node>>, k: nat, id: Id) returns (p: seq<Id>)
    requires Layered(adj, stages) && InStage(stages, k, id)
    ensures ChainFrom(adj, id, p) && |p| == k + 1
  {
    if k == 0 {
      p := [id];
    } else {
      assert WellPlaced(adj, stages, k, id);
      var d :| d in DepsOf(adj, id) && InStage(stages, k - 1, d);
      var q := DeepestChain(adj, stages, k - 1, d);
      p := [id] + q;
      forall i | 0 <= i < |p| - 1 ensures Link(adj, p, i) {
        if i > 0 { assert Link(adj, q, i - 1); }
      }
    }
  }

  /** A node's stage index is the length, in edges, of its longest dependency chain. */
  lemma StageIsLongestChain(nodes: seq<Node>, stages: seq<seq<Node>>, k: nat, id: Id)
    requires IsStaging(nodes, stages) && InStage(stages, k, id)
    ensures exists p :: ChainFrom(DepMap(nodes), id, p) && |p| == k + 1
    ensures forall p :: ChainFrom(DepMap(nodes), id, p) ==> |p| <= k + 1
  {
    var p := DeepestChain(DepMap(nodes), stages, k, id);
    forall p | ChainFrom(DepMap(nodes), id, p) ensures |p| <= k + 1 {
      NoLongerChain(DepMap(nodes), stages, k, id, p);
    }
  }

  /** Any other assignment of the nodes to m rounds that keeps dependencies in strictly earlier rounds. */
  ghost predicate ValidRounds(nodes: seq<Node>, round: map<Id, nat>, m: nat) {
    && round.Keys == Ids(nodes)
    && (forall x :: x in round ==> round[x] < m)
    && forall x, d :: x in round && d in DepsOf(DepMap(nodes), x) ==> d in round && round[d] < round[x]
  }

  lemma {:induction false} RoundsAlongChain(nodes: seq<Node>, round: map<Id, nat>, m: nat, p: seq<Id>)
    requires ValidRounds(nodes, round, m) && IsChain(DepMap(nodes), p) && p[0] in round
    ensures round[p[0]] >= |p| - 1
  {
    if |p| > 1 {
      assert Link(DepMap(nodes), p, 0);
      var q := p[1..];
      forall i | 0 <= i < |q| - 1 ensures Link(DepMap(nodes), q, i) { assert Link(DepMap(nodes), p, i + 1); }
      RoundsAlongChain(nodes, round, m, q);
    }
  }

  /** No assignment to rounds needs fewer rounds than there are stages. */
  lemma FewestStages(nodes: seq<Node>, stages: seq<seq<Node>>, round: map<Id, nat>, m: nat)
    requires IsStaging(nodes, stages) && ValidRounds(nodes, round, m)
    ensures |stages| <= m
  {
    if stages != [] {
      var k := |stages| - 1;
      var id := stages[k][0].id;
      assert StageIds(stages[k])[0] == id;
      assert InStage(stages, k, id);
      FlatMembers(stages, id);
      var p := DeepestChain(DepMap(nodes), stages, k, id);
      RoundsAlongChain(nodes, round, m, p);
    }
  }

  lemma {:induction false} FlatDepsFirst(adj: Deps, stages: seq<seq<Node>>, m: nat)
    requires Layered(adj, stages) && m <= |stages|
    ensures DepsFirst(adj, FlatIds(stages[..m]))
  {
    if m > 0 {
      FlatDepsFirst(adj, stages, m - 1);
      var front := stages[..m - 1];
      assert stages[..m][..m - 1] == front;
      var f, g := FlatIds(front), FlatIds(stages[..m]);
      assert g == f + StageIds(stages[m - 1]);
      forall i | 0 <= i < |g| ensures DepsBefore(adj, g, i) {
        if i < |f| {
          assert DepsBefore(adj, f, i) && g[..i] == f[..i];
        } else {
          assert InStage(stages, m - 1, g[i]);
          assert WellPlaced(adj, stages, m - 1, g[i]);
          forall d | d in DepsOf(adj, g[i]) ensures d in g[..i] {
            var j :| 0 <= j < m - 1 && InStage(stages, j, d);
            assert InStage(front, j, d);
            FlatMembers(front, d);
            assert g[..i] == f + g[|f|..i];
          }
        }
      }
    }
  }

  /** The flattened stages are a topological order of the nodes. */
  lemma FlattenedIsTopological(nodes: seq<Node>, stages: seq<seq<Node>>)
    requires IsStaging(nodes, stages)
    ensures NoDup(FlatIds(stages)) && ToSet(FlatIds(stages)) == Ids(nodes)
    ensures DepsFirst(DepMap(nodes), FlatIds(stages))
  {
    FlatDepsFirst(DepMap(nodes), stages, |stages|);
    assert stages[..|stages|] == stages;
  }

  lemma StagingIsAcyclic(nodes: seq<Node>, stages: seq<seq<Node>>)
    requires IsStaging(nodes, stages)
    ensures !Cyclic(DepMap(nodes))
  {
    FlattenedIsTopological(nodes, stages);
    DepMapKeys(nodes);
    OrderedIsAcyclic(DepMap(nodes), FlatIds(stages));
  }

  // ---- Prefixes of a staging ----

  lemma StageDeps(adj: Deps, stages: seq<seq<Node>>, k: nat)
    requires Layered(adj, stages) && k < |stages|
    ensures FlatIds(stages[..k + 1]) == FlatIds(stages[..k]) + StageIds(stages[k])
    ensures forall x, d :: x in StageIds(stages[k]) && d in DepsOf(adj, x) ==> d in FlatIds(stages[..k])
  {
    assert stages[..k + 1][..k] == stages[..k];
    forall x, d | x in StageIds(stages[k]) && d in DepsOf(adj, x) ensures d in FlatIds(stages[..k]) {
      assert InStage(stages, k, x);
      assert WellPlaced(adj, stages, k, x);
      var j :| 0 <= j < k && InStage(stages, j, d);
      assert InStage(stages[..k], j, d);
      FlatMembers(stages[..k], d);
    }
  }

  lemma {:induction false} FlatPrefixNoDup(stages: seq<seq<Node>>, k: nat)
    requires NoDup(FlatIds(stages)) && k <= |stages|
    ensures NoDup(FlatIds(stages[..k]))
    decreases |stages| - k
  {
    if k == |stages| {
      assert stages[..k] == stages;
    } else {
      FlatPrefixNoDup(stages, k + 1);
      assert stages[..k + 1][..k] == stages[..k];
      var f, g := FlatIds(stages[..k]), FlatIds(stages[..k + 1]);
      assert forall i :: 0 <= i < |f| ==> g[i] == f[i];
    }
  }
}
