/** The in-degree algorithm that computes the stages, proved to succeed on exactly the proper DAGs. */
module Kahn {
  import opened Dag
  import opened Stages

  // ---- Counting dependencies that are still open ----

  /** How often x occurs in s. */
  ghost function Occurs(s: seq<Id>, x: Id): nat {
    if s == [] then 0 else Occurs(s[..|s| - 1], x) + if s[|s| - 1] == x then 1 else 0
  }

  lemma {:induction false} OccursIn(s: seq<Id>, x: Id)
    ensures Occurs(s, x) > 0 <==> x in s
  {
    if s != [] {
      OccursIn(s[..|s| - 1], x);
      assert s == s[..|s| - 1] + [s[|s| - 1]];
    }
  }

  lemma OccursAppend(s: seq<Id>, y: Id, x: Id)
    ensures Occurs(s + [y], x) == Occurs(s, x) + if y == x then 1 else 0
  {
    assert (s + [y])[..|s|] == s;
  }

  lemma OccursStep(s: seq<Id>, j: nat)
    requires j < |s|
    ensures forall x :: Occurs(s[..j + 1], x) == Occurs(s[..j], x) + if s[j] == x then 1 else 0
  {
    assert s[..j + 1] == s[..j] + [s[j]];
    forall x ensures Occurs(s[..j + 1], x) == Occurs(s[..j], x) + if s[j] == x then 1 else 0 {
      OccursAppend(s[..j], s[j], x);
    }
  }

  lemma {:induction false} OccursPrefix(s: seq<Id>, j: nat, x: Id)
    requires j <= |s|
    ensures Occurs(s[..j], x) <= Occurs(s, x)
    decreases |s| - j
  {
    if j == |s| {
      assert s[..j] == s;
    } else {
      OccursPrefix(s, j + 1, x);
      OccursStep(s, j);
    }
  }

  /** How many entries of s, with repetition, lie in u. */
  ghost function CountIn(s: seq<Id>, u: set<Id>): nat {
    if s == [] then 0 else CountIn(s[..|s| - 1], u) + if s[|s| - 1] in u then 1 else 0
  }

  lemma {:induction false} CountWithout(s: seq<Id>, u: set<Id>, x: Id)
    requires x in u
    ensures CountIn(s, u) == CountIn(s, u - {x}) + Occurs(s, x)
  {
    if s != [] {
      var front := s[..|s| - 1];
      CountWithout(front, u, x);
      assert s == front + [s[|s| - 1]];
    }
  }

  lemma {:induction false} CountZero(s: seq<Id>, u: set<Id>)
    ensures CountIn(s, u) == 0 <==> forall d :: d in s ==> d !in u
  {
    if s != [] {
      var front := s[..|s| - 1];
      CountZero(front, u);
      assert s == front + [s[|s| - 1]];
    }
  }

  lemma {:induction false} CountAll(s: seq<Id>, u: set<Id>)
    requires forall d :: d in s ==> d in u
    ensures CountIn(s, u) == |s|
  {
    if s != [] { CountAll(s[..|s| - 1], u); }
  }

  // ---- Building the adjacency lists and in-degrees ----

  ghost predicate OverIds(ids: set<Id>, adjacency: map<Id, seq<Id>>, inDegree: map<Id, int>) {
    adjacency.Keys == ids && inDegree.Keys == ids
  }

  /** Dependency d of the new node id got one more entry per time it is listed. */
  ghost predicate Gained(id: Id, deps: seq<Id>, before: seq<Id>, after: seq<Id>, d: Id, n: Id) {
    Occurs(after, n) == Occurs(before, n) + if n == id then Occurs(deps, d) else 0
  }

  /** n is listed under d as often as d is listed as a dependency of n, once n is registered. */
  ghost predicate Mirrored(adj: Deps, registered: set<Id>, neighbours: seq<Id>, d: Id, n: Id) {
    Occurs(neighbours, n) == if n in registered then Occurs(DepsOf(adj, n), d) else 0
  }

  /** One entry per dependency of id was added to the lists, and nothing else. */
  ghost predicate EdgesAdded(id: Id, deps: seq<Id>, ids: set<Id>,
                             adjacency: map<Id, seq<Id>>, inDegree: map<Id, int>,
                             adjacency': map<Id, seq<Id>>, inDegree': map<Id, int>)
    requires OverIds(ids, adjacency, inDegree) && id in ids
  {
    && OverIds(ids, adjacency', inDegree')
    && inDegree' == inDegree[id := inDegree[id] + |deps|]
    && forall d, n :: d in ids ==> Gained(id, deps, adjacency[d], adjacency'[d], d, n)
  }

  ghost predicate EdgesOf(ids: set<Id>, adj: Deps, registered: set<Id>, adjacency: map<Id, seq<Id>>,
                          inDegree: map<Id, int>)
  {
    && OverIds(ids, adjacency, inDegree)
    && (forall n :: n in ids ==> inDegree[n] == if n in registered then |DepsOf(adj, n)| else 0)
    && forall d, n :: d in ids ==> Mirrored(adj, registered, adjacency[d], d, n)
  }

  lemma EdgesStep(ids: set<Id>, adj: Deps, registered: set<Id>, id: Id,
                  adjacency: map<Id, seq<Id>>, inDegree: map<Id, int>,
                  adjacency': map<Id, seq<Id>>, inDegree': map<Id, int>)
    requires EdgesOf(ids, adj, registered, adjacency, inDegree) && id in ids && id !in registered
    requires EdgesAdded(id, DepsOf(adj, id), ids, adjacency, inDegree, adjacency', inDegree')
    ensures EdgesOf(ids, adj, registered + {id}, adjacency', inDegree')
  {
    forall d, n | d in ids
      ensures Mirrored(adj, registered + {id}, adjacency'[d], d, n)
    {
      assert Mirrored(adj, registered, adjacency[d], d, n);
      assert Gained(id, DepsOf(adj, id), adjacency[d], adjacency'[d], d, n);
    }
  }

  lemma EntryStep(id: Id, deps: seq<Id>, j: nat, ids: set<Id>,
                  adjacency: map<Id, seq<Id>>, inDegree: map<Id, int>,
                  adjacency': map<Id, seq<Id>>, inDegree': map<Id, int>)
    requires OverIds(ids, adjacency, inDegree) && id in ids && j < |deps| && deps[j] in ids
    requires EdgesAdded(id, deps[..j], ids, adjacency, inDegree, adjacency', inDegree')
    ensures EdgesAdded(id, deps[..j + 1], ids, adjacency, inDegree,
                       adjacency'[deps[j] := adjacency'[deps[j]] + [id]], inDegree'[id := inDegree'[id] + 1])
  {
    var next := adjacency'[deps[j] := adjacency'[deps[j]] + [id]];
    var upTo := deps[..j + 1];
    OccursStep(deps, j);
    forall d, n | d in ids ensures Gained(id, upTo, adjacency[d], next[d], d, n) {
      assert Gained(id, deps[..j], adjacency[d], adjacency'[d], d, n);
      OccursAppend(adjacency'[deps[j]], id, n);
    }
  }

  /** Registers the edges of one node; stops at the first unknown dependency. */
  method AddEdges(ghost adj: Deps, ghost registered: set<Id>, id: Id, deps: seq<Id>, ids: set<Id>,
                  adjacency: map<Id, seq<Id>>, inDegree: map<Id, int>)
    returns (unknown: seq<Id>, adjacency': map<Id, seq<Id>>, inDegree': map<Id, int>)
    requires EdgesOf(ids, adj, registered, adjacency, inDegree)
    requires id in ids && id !in registered && DepsOf(adj, id) == deps
    ensures unknown == [] <==> forall d :: d in deps ==> d in ids
    ensures unknown != [] ==> unknown[0] in deps && unknown[0] !in ids
    ensures unknown == [] ==> EdgesOf(ids, adj, registered + {id}, adjacency', inDegree')
  {
    unknown, adjacency', inDegree' := [], adjacency, inDegree;
    for j := 0 to |deps|
      invariant unknown == []
      invariant forall d :: d in deps[..j] ==> d in ids
      invariant EdgesAdded(id, deps[..j], ids, adjacency, inDegree, adjacency', inDegree')
    {
      var dep := deps[j];
      assert deps[..j + 1] == deps[..j] + [dep];
      if dep !in ids {
        unknown := [dep];
        return;
      }
      EntryStep(id, deps, j, ids, adjacency, inDegree, adjacency', inDegree');
      adjacency' := adjacency'[dep := adjacency'[dep] + [id]];
      inDegree' := inDegree'[id := inDegree'[id] + 1];
    }
    assert deps[..|deps|] == deps;
    EdgesStep(ids, adj, registered, id, adjacency, inDegree, adjacency', inDegree');
  }

  lemma IdsPrefix(nodes: seq<Node>, i: nat)
    requires i < |nodes|
    ensures Ids(nodes[..i + 1]) == Ids(nodes[..i]) + {nodes[i].id}
    ensures nodes[i].id in Ids(nodes)
  {
    var a, b := nodes[..i], nodes[..i + 1];
    assert b == a + [nodes[i]];
    forall x | x in Ids(a) ensures x in Ids(b) {
      var k :| 0 <= k < i && a[k].id == x;
      assert b[k].id == x;
    }
    assert b[i].id == nodes[i].id;
  }

  lemma IdsNew(nodes: seq<Node>, i: nat)
    requires UniqueIds(nodes) && i < |nodes|
    ensures nodes[i].id !in Ids(nodes[..i])
    ensures DepsOf(DepMap(nodes), nodes[i].id) == nodes[i].dependsOn
  {
    DepMapIsLastWins(nodes, i);
  }

  lemma NoEdgesYet(ids: set<Id>, adj: Deps, nodes: seq<Node>)
    ensures EdgesOf(ids, adj, {}, map id | id in ids :: [], map id | id in ids :: 0)
    ensures Ids(nodes[..0]) == {} && Ids(nodes[..|nodes|]) == Ids(nodes)
  {
    assert nodes[..|nodes|] == nodes;
  }

  method BuildEdges(nodes: seq<Node>)
    returns (fail: StageResult, ok: bool, adjacency: map<Id, seq<Id>>, inDegree: map<Id, int>)
    requires UniqueIds(nodes)
    ensures ok <==> DepsKnown(nodes)
    ensures !ok ==> fail.UnknownDependency?
    ensures ok ==> EdgesOf(Ids(nodes), DepMap(nodes), Ids(nodes), adjacency, inDegree)
  {
    ghost var adj := DepMap(nodes);
    var ids := Ids(nodes);
    ghost var registered: set<Id> := {};
    adjacency := map id | id in ids :: [];
    inDegree := map id | id in ids :: 0;
    fail := NoRoots;
    NoEdgesYet(ids, adj, nodes);
    for i := 0 to |nodes|
      invariant registered == Ids(nodes[..i])
      invariant EdgesOf(ids, adj, registered, adjacency, inDegree)
      invariant forall k :: 0 <= k < i ==> Known(ids, nodes[k])
    {
      var node := nodes[i];
      IdsPrefix(nodes, i);
      IdsNew(nodes, i);
      var unknown, adjacency', inDegree' :=
        AddEdges(adj, registered, node.id, node.dependsOn, ids, adjacency, inDegree);
      if unknown != [] {
        fail := UnknownDependency(node.id, unknown[0]);
        ok := false;
        return;
      }
      registered := registered + {node.id};
      adjacency, inDegree := adjacency', inDegree';
    }
    ok := true;
  }

  // ---- One layer ----

  /** Takes one off the in-degree of every listed neighbour, collecting those that reach 0. */
  method Decrement(neighbours: seq<Id>, inDegree: map<Id, int>, nextLayer: seq<Id>)
    returns (inDegree': map<Id, int>, nextLayer': seq<Id>)
    requires forall n :: n in neighbours ==> n in inDegree
    requires forall n :: n in inDegree ==> Occurs(neighbours, n) <= inDegree[n]
    requires NoDup(nextLayer)
    requires forall n :: n in nextLayer ==> n in inDegree && inDegree[n] == 0
    ensures inDegree'.Keys == inDegree.Keys
    ensures forall n :: n in inDegree ==> inDegree'[n] == inDegree[n] - Occurs(neighbours, n)
    ensures NoDup(nextLayer')
    ensures forall n :: n in nextLayer' <==> n in nextLayer || (n in inDegree && inDegree'[n] == 0 < inDegree[n])
  {
    inDegree', nextLayer' := inDegree, nextLayer;
    for j := 0 to |neighbours|
      invariant inDegree'.Keys == inDegree.Keys
      invariant forall n :: n in inDegree ==> inDegree'[n] == inDegree[n] - Occurs(neighbours[..j], n)
      invariant NoDup(nextLayer')
      invariant forall n :: n in nextLayer' <==> n in nextLayer || (n in inDegree && inDegree'[n] == 0 < inDegree[n])
    {
      var n := neighbours[j];
      OccursStep(neighbours, j);
      OccursPrefix(neighbours, j + 1, n);
      var newDegree := inDegree'[n] - 1;
      inDegree' := inDegree'[n := newDegree];
      if newDegree == 0 {
        nextLayer' := nextLayer' + [n];
      }
    }
    assert neighbours[..|neighbours|] == neighbours;
  }

  ghost predicate Remaining(ids: set<Id>, adj: Deps, done: set<Id>, inDegree: map<Id, int>) {
    inDegree.Keys == ids && forall n :: n in ids ==> inDegree[n] == CountIn(DepsOf(adj, n), ids - done)
  }

  ghost predicate Adjacent(ids: set<Id>, adj: Deps, adjacency: map<Id, seq<Id>>) {
    adjacency.Keys == ids && forall d, n :: d in ids ==> Mirrored(adj, ids, adjacency[d], d, n)
  }

  lemma Removable(ids: set<Id>, adj: Deps, done: set<Id>, id: Id, adjacency: map<Id, seq<Id>>, inDegree: map<Id, int>)
    requires Adjacent(ids, adj, adjacency) && Remaining(ids, adj, done, inDegree)
    requires id in ids && id !in done
    ensures forall n :: n in adjacency[id] ==> n in ids
    ensures forall n :: n in ids ==>
      inDegree[n] == CountIn(DepsOf(adj, n), ids - (done + {id})) + Occurs(adjacency[id], n)
  {
    forall n | n in adjacency[id] ensures n in ids {
      OccursIn(adjacency[id], n);
      assert Mirrored(adj, ids, adjacency[id], id, n);
    }
    assert ids - (done + {id}) == (ids - done) - {id};
    forall n | n in ids
      ensures inDegree[n] == CountIn(DepsOf(adj, n), ids - (done + {id})) + Occurs(adjacency[id], n)
    {
      CountWithout(DepsOf(adj, n), ids - done, id);
      assert Mirrored(adj, ids, adjacency[id], id, n);
    }
  }

  /** The next layer so far: what has lost its last open dependency to the walked part of the layer. */
  ghost predicate Emerging(ids: set<Id>, done: set<Id>, layer: seq<Id>, inDegree: map<Id, int>, nextLayer: seq<Id>)
    requires ids <= inDegree.Keys
  {
    NoDup(nextLayer) && forall n :: n in nextLayer <==> n in ids && inDegree[n] == 0 && n !in done && n !in layer
  }

  /** Walks one member of a layer. */
  method WalkOne(ghost ids: set<Id>, ghost adj: Deps, ghost done: set<Id>, ghost layer: seq<Id>, ghost walked: set<Id>,
                 id: Id, adjacency: map<Id, seq<Id>>, inDegree: map<Id, int>, nextLayer: seq<Id>)
    returns (inDegree': map<Id, int>, nextLayer': seq<Id>)
    requires Adjacent(ids, adj, adjacency) && Remaining(ids, adj, walked, inDegree)
    requires id in ids && id !in walked && Emerging(ids, done, layer, inDegree, nextLayer)
    requires forall n :: n in ids && (n in done || n in layer) ==> inDegree[n] == 0
    ensures Remaining(ids, adj, walked + {id}, inDegree') && Emerging(ids, done, layer, inDegree', nextLayer')
    ensures forall n :: n in ids ==> 0 <= inDegree'[n] <= inDegree[n]
  {
    Removable(ids, adj, walked, id, adjacency, inDegree);
    inDegree', nextLayer' := Decrement(adjacency[id], inDegree, nextLayer);
  }

  /** Walks one layer: afterwards exactly the members of the layer count as done as well. */
  method WalkLayer(ghost ids: set<Id>, ghost adj: Deps, ghost done: set<Id>,
                   layer: seq<Id>, adjacency: map<Id, seq<Id>>, inDegree: map<Id, int>)
    returns (inDegree': map<Id, int>, nextLayer: seq<Id>)
    requires Adjacent(ids, adj, adjacency) && Remaining(ids, adj, done, inDegree)
    requires NoDup(layer) && ToSet(layer) <= ids && ToSet(layer) !! done
    requires forall n :: n in ids ==> (inDegree[n] == 0 <==> n in done || n in layer)
    ensures Remaining(ids, adj, done + ToSet(layer), inDegree') && Emerging(ids, done, layer, inDegree', nextLayer)
    ensures forall n :: n in ids ==> inDegree'[n] <= inDegree[n]
  {
    inDegree', nextLayer := inDegree, [];
    ghost var walked := done;
    for i := 0 to |layer|
      invariant walked == done + ToSet(layer[..i])
      invariant Remaining(ids, adj, walked, inDegree') && Emerging(ids, done, layer, inDegree', nextLayer)
      invariant forall n :: n in ids ==> 0 <= inDegree'[n] <= inDegree[n]
    {
      var id := layer[i];
      assert id in ids && id !in walked by { assert id in ToSet(layer); }
      inDegree', nextLayer := WalkOne(ids, adj, done, layer, walked, id, adjacency, inDegree', nextLayer);
      walked := walked + {id};
      assert layer[..i + 1] == layer[..i] + [id];
    }
    assert layer[..|layer|] == layer;
  }

  // ---- The layers ----

  lemma SetSize(s: seq<Id>)
    requires NoDup(s)
    ensures |ToSet(s)| == |s|
  {
    if s != [] {
      var front := s[..|s| - 1];
      SetSize(front);
      assert ToSet(s) == ToSet(front) + {s[|s| - 1]};
    }
  }

  lemma IdsSize(nodes: seq<Node>)
    requires UniqueIds(nodes)
    ensures |Ids(nodes)| == |nodes|
  {
    SetSize(StageIds(nodes));
    assert ToSet(StageIds(nodes)) == Ids(nodes) by {
      forall i | 0 <= i < |nodes| ensures nodes[i].id in ToSet(StageIds(nodes)) {
        assert StageIds(nodes)[i] == nodes[i].id;
      }
    }
  }

  function Processed(stages: seq<seq<Node>>): nat {
    if stages == [] then 0 else Processed(stages[..|stages| - 1]) + |stages[|stages| - 1]|
  }

  lemma {:induction false} ProcessedIsFlatSize(stages: seq<seq<Node>>)
    ensures Processed(stages) == |FlatIds(stages)|
  {
    if stages != [] { ProcessedIsFlatSize(stages[..|stages| - 1]); }
  }

  /** Every member of the layer has all its dependencies done, and one of them in the last stage. */
  ghost predicate Ready(adj: Deps, stages: seq<seq<Node>>, n: Id) {
    && (forall d :: d in DepsOf(adj, n) ==> d in FlatIds(stages))
    && (stages != [] ==> exists d :: d in DepsOf(adj, n) && d in StageIds(stages[|stages| - 1]))
  }

  lemma ReadyIsWellPlaced(adj: Deps, stages: seq<seq<Node>>, stage: seq<Node>, n: Id)
    requires Ready(adj, stages, n)
    ensures WellPlaced(adj, stages + [stage], |stages|, n)
  {
    var next, m := stages + [stage], |stages|;
    forall d | d in DepsOf(adj, n) ensures exists j :: 0 <= j < m && InStage(next, j, d) {
      FlatMembers(stages, d);
      var j :| InStage(stages, j, d);
      assert InStage(next, j, d);
    }
    if m > 0 {
      var d :| d in DepsOf(adj, n) && d in StageIds(stages[m - 1]);
      assert InStage(next, m - 1, d);
    }
  }

  lemma StillWellPlaced(adj: Deps, stages: seq<seq<Node>>, stage: seq<Node>, k: nat, n: Id)
    requires k < |stages| && WellPlaced(adj, stages, k, n)
    ensures WellPlaced(adj, stages + [stage], k, n)
  {
    var next := stages + [stage];
    forall d | d in DepsOf(adj, n) ensures exists j :: 0 <= j < k && InStage(next, j, d) {
      var j :| 0 <= j < k && InStage(stages, j, d);
      assert InStage(next, j, d);
    }
    if k > 0 {
      var d :| d in DepsOf(adj, n) && InStage(stages, k - 1, d);
      assert InStage(next, k - 1, d);
    }
  }

  lemma PushStage(adj: Deps, stages: seq<seq<Node>>, stage: seq<Node>)
    requires Layered(adj, stages) && stage != []
    requires NoDup(StageIds(stage)) && ToSet(StageIds(stage)) !! ToSet(FlatIds(stages))
    requires forall n {:trigger Ready(adj, stages, n)} :: n in StageIds(stage) ==> Ready(adj, stages, n)
    ensures Layered(adj, stages + [stage])
    ensures FlatIds(stages + [stage]) == FlatIds(stages) + StageIds(stage)
  {
    var next, m := stages + [stage], |stages|;
    assert next[..m] == stages;
    var f, g := FlatIds(stages), StageIds(stage);
    assert FlatIds(next) == f + g;
    assert NoDup(f + g) by {
      forall i, j | 0 <= i < j < |f + g| ensures (f + g)[i] != (f + g)[j] {
        if i < |f| <= j { assert f[i] in ToSet(f) && g[j - |f|] in ToSet(g); }
      }
    }
    forall k: nat, n {:trigger InStage(next, k, n)} | InStage(next, k, n) ensures WellPlaced(adj, next, k, n) {
      if k < m {
        assert InStage(stages, k, n);
        assert WellPlaced(adj, stages, k, n);
        StillWellPlaced(adj, stages, stage, k, n);
      } else {
        assert Ready(adj, stages, n);
        ReadyIsWellPlaced(adj, stages, stage, n);
      }
    }
  }

  /** What holds each time the layer loop is about to test its guard. */
  ghost predicate AtLayer(nodes: seq<Node>, stages: seq<seq<Node>>, layer: seq<Id>, inDegree: map<Id, int>) {
    var adj, ids, done := DepMap(nodes), Ids(nodes), ToSet(FlatIds(stages));
    && Layered(adj, stages) && done <= ids
    && NoDup(layer) && ToSet(layer) <= ids && ToSet(layer) !! done
    && Remaining(ids, adj, done, inDegree)
    && (forall n :: n in ids ==> (inDegree[n] == 0 <==> n in done || n in layer))
    && (forall n {:trigger Ready(adj, stages, n)} :: n in layer ==> Ready(adj, stages, n))
  }

  /** A node whose in-degree just reached 0 has its dependencies done, the last of them in this layer. */
  lemma ReachedZero(nodes: seq<Node>, stages: seq<seq<Node>>, stage: seq<Node>,
                    inDegree: map<Id, int>, inDegree': map<Id, int>, n: Id)
    requires UniqueIds(nodes) && DepsKnown(nodes) && n in Ids(nodes)
    requires FlatIds(stages + [stage]) == FlatIds(stages) + StageIds(stage)
    requires Remaining(Ids(nodes), DepMap(nodes), ToSet(FlatIds(stages)), inDegree)
    requires Remaining(Ids(nodes), DepMap(nodes), ToSet(FlatIds(stages)) + ToSet(StageIds(stage)), inDegree')
    requires inDegree[n] != 0 && inDegree'[n] == 0
    ensures Ready(DepMap(nodes), stages + [stage], n)
  {
    var adj, ids, done := DepMap(nodes), Ids(nodes), ToSet(FlatIds(stages));
    var done' := done + ToSet(StageIds(stage));
    var deps := DepsOf(adj, n);
    CountZero(deps, ids - done);
    CountZero(deps, ids - done');
    KnownDeps(nodes, n);
    var d :| d in deps && d in ids - done;
    assert d in StageIds(stage);
  }

  lemma KnownDeps(nodes: seq<Node>, n: Id)
    requires UniqueIds(nodes) && DepsKnown(nodes) && n in Ids(nodes)
    ensures forall d :: d in DepsOf(DepMap(nodes), n) ==> d in Ids(nodes)
  {
    var i :| 0 <= i < |nodes| && nodes[i].id == n;
    IdsNew(nodes, i);
    assert Known(Ids(nodes), nodes[i]);
  }

  /** When no layer is left, the nodes left over each depend on one another. */
  lemma LeftOverIsCyclic(nodes: seq<Node>, stages: seq<seq<Node>>, inDegree: map<Id, int>, n: Id)
    requires AtLayer(nodes, stages, [], inDegree)
    requires n in Ids(nodes) && n !in ToSet(FlatIds(stages))
    ensures Cyclic(DepMap(nodes))
  {
    var adj, left := DepMap(nodes), Ids(nodes) - ToSet(FlatIds(stages));
    forall n | n in left ensures DependsInside(adj, left, n) {
      assert inDegree[n] != 0;
      CountZero(DepsOf(adj, n), left);
    }
    assert ToSet([n]) == {n};
    StuckSetHasCycle(adj, left, [n]);
  }

  // ---- The whole computation ----

  ghost predicate Indexed(nodes: seq<Node>, nodeMap: map<Id, Node>) {
    forall id {:trigger MapsToNode(nodes, nodeMap, id)} :: id in nodeMap ==> MapsToNode(nodes, nodeMap, id)
  }

  ghost predicate MapsToNode(nodes: seq<Node>, nodeMap: map<Id, Node>, id: Id)
    requires id in nodeMap
  {
    nodeMap[id].id == id && nodeMap[id] in nodes
  }

  lemma AddToIndex(nodes: seq<Node>, nodeMap: map<Id, Node>, i: nat)
    requires i < |nodes| && Indexed(nodes, nodeMap)
    ensures Indexed(nodes, nodeMap[nodes[i].id := nodes[i]])
  {
    var next := nodeMap[nodes[i].id := nodes[i]];
    forall id {:trigger MapsToNode(nodes, next, id)} | id in next ensures MapsToNode(nodes, next, id) {
      if id != nodes[i].id { assert MapsToNode(nodes, nodeMap, id); }
    }
  }

  method IndexNodes(nodes: seq<Node>) returns (duplicate: seq<Id>, nodeMap: map<Id, Node>)
    ensures duplicate == [] <==> UniqueIds(nodes)
    ensures duplicate == [] ==> nodeMap.Keys == Ids(nodes)
    ensures duplicate == [] ==> Indexed(nodes, nodeMap)
  {
    duplicate, nodeMap := [], map[];
    NoEdgesYet({}, map[], nodes);
    for i := 0 to |nodes|
      invariant duplicate == [] && UniqueIds(nodes[..i])
      invariant nodeMap.Keys == Ids(nodes[..i])
      invariant Indexed(nodes, nodeMap)
    {
      var id := nodes[i].id;
      IdsPrefix(nodes, i);
      if id in nodeMap {
        var j :| 0 <= j < i && nodes[..i][j].id == id;
        assert nodes[j].id == nodes[i].id;
        duplicate := [id];
        return;
      }
      StillUnique(nodes, i);
      AddToIndex(nodes, nodeMap, i);
      nodeMap := nodeMap[id := nodes[i]];
    }
    assert nodes[..|nodes|] == nodes;
  }

  lemma StillUnique(nodes: seq<Node>, i: nat)
    requires i < |nodes| && UniqueIds(nodes[..i]) && nodes[i].id !in Ids(nodes[..i])
    ensures UniqueIds(nodes[..i + 1])
  {
    var a := nodes[..i];
    assert nodes[..i + 1] == a + [nodes[i]];
    forall j | 0 <= j < i ensures a[j].id != nodes[i].id {
      assert a[j].id in Ids(a);
    }
  }

  /** Seeds the first layer with the ids whose in-degree is 0, in node order. */
  method Roots(nodes: seq<Node>, inDegree: map<Id, int>) returns (layer: seq<Id>)
    requires UniqueIds(nodes) && inDegree.Keys == Ids(nodes)
    ensures NoDup(layer)
    ensures forall n :: n in layer <==> n in Ids(nodes) && inDegree[n] == 0
  {
    layer := [];
    NoEdgesYet({}, map[], nodes);
    for i := 0 to |nodes|
      invariant NoDup(layer)
      invariant forall n :: n in layer <==> n in Ids(nodes[..i]) && n in inDegree && inDegree[n] == 0
    {
      IdsPrefix(nodes, i);
      IdsNew(nodes, i);
      if inDegree[nodes[i].id] == 0 {
        layer := layer + [nodes[i].id];
      }
    }
  }

  lemma StartOfLayers(nodes: seq<Node>, adjacency: map<Id, seq<Id>>, inDegree: map<Id, int>, layer: seq<Id>)
    requires UniqueIds(nodes) && DepsKnown(nodes)
    requires EdgesOf(Ids(nodes), DepMap(nodes), Ids(nodes), adjacency, inDegree)
    requires NoDup(layer) && forall n :: n in layer <==> n in Ids(nodes) && inDegree[n] == 0
    ensures AtLayer(nodes, [], layer, inDegree)
  {
    var adj, ids := DepMap(nodes), Ids(nodes);
    assert ids - {} == ids;
    forall n | n in ids ensures inDegree[n] == CountIn(DepsOf(adj, n), ids) {
      KnownDeps(nodes, n);
      CountAll(DepsOf(adj, n), ids);
    }
    assert ToSet(FlatIds([])) == {};
  }

  method LookUp(nodes: seq<Node>, ghost stages: seq<seq<Node>>, layer: seq<Id>, nodeMap: map<Id, Node>)
    returns (stage: seq<Node>)
    requires Indexed(nodes, nodeMap) && forall i :: 0 <= i < |layer| ==> layer[i] in nodeMap
    ensures StageIds(stage) == layer
    ensures AllAmong(nodes, stages) ==> AllAmong(nodes, stages + [stage])
  {
    stage := seq(|layer|, i requires 0 <= i < |layer| => nodeMap[layer[i]]);
    forall i | 0 <= i < |layer| ensures stage[i].id == layer[i] && stage[i] in nodes {
      assert MapsToNode(nodes, nodeMap, layer[i]);
    }
    assert (stages + [stage])[..|stages|] == stages;
  }

  /** One round of the layer loop. */
  method NextRound(nodes: seq<Node>, stages: seq<seq<Node>>, layer: seq<Id>, nodeMap: map<Id, Node>,
                   adjacency: map<Id, seq<Id>>, inDegree: map<Id, int>)
    returns (stageNodes: seq<Node>, layer': seq<Id>, inDegree': map<Id, int>)
    requires UniqueIds(nodes) && DepsKnown(nodes)
    requires Adjacent(Ids(nodes), DepMap(nodes), adjacency)
    requires nodeMap.Keys == Ids(nodes) && Indexed(nodes, nodeMap)
    requires AtLayer(nodes, stages, layer, inDegree) && layer != []
    ensures AtLayer(nodes, stages + [stageNodes], layer', inDegree')
    ensures AllAmong(nodes, stages) ==> AllAmong(nodes, stages + [stageNodes])
    ensures |Ids(nodes) - ToSet(FlatIds(stages + [stageNodes]))| < |Ids(nodes) - ToSet(FlatIds(stages))|
  {
    LayerMembers(nodes, stages, layer, inDegree);
    stageNodes := LookUp(nodes, stages, layer, nodeMap);
    inDegree', layer' := WalkLayer(Ids(nodes), DepMap(nodes), ToSet(FlatIds(stages)), layer, adjacency, inDegree);
    RoundDone(nodes, stages, stageNodes, layer', inDegree, inDegree');
  }

  lemma LayerMembers(nodes: seq<Node>, stages: seq<seq<Node>>, layer: seq<Id>, inDegree: map<Id, int>)
    requires AtLayer(nodes, stages, layer, inDegree)
    ensures forall i :: 0 <= i < |layer| ==> layer[i] in Ids(nodes)
  {
    forall i | 0 <= i < |layer| ensures layer[i] in Ids(nodes) { assert layer[i] in ToSet(layer); }
  }

  lemma RoundDone(nodes: seq<Node>, stages: seq<seq<Node>>, stage: seq<Node>, layer': seq<Id>,
                  inDegree: map<Id, int>, inDegree': map<Id, int>)
    requires UniqueIds(nodes) && DepsKnown(nodes)
    requires AtLayer(nodes, stages, StageIds(stage), inDegree) && stage != []
    requires Remaining(Ids(nodes), DepMap(nodes), ToSet(FlatIds(stages)) + ToSet(StageIds(stage)), inDegree')
    requires NoDup(layer')
    requires forall n :: n in layer' <==>
      n in Ids(nodes) && inDegree'[n] == 0 && n !in ToSet(FlatIds(stages)) && n !in StageIds(stage)
    requires forall n :: n in Ids(nodes) ==> inDegree'[n] <= inDegree[n]
    ensures AtLayer(nodes, stages + [stage], layer', inDegree')
    ensures |Ids(nodes) - ToSet(FlatIds(stages + [stage]))| < |Ids(nodes) - ToSet(FlatIds(stages))|
  {
    var adj, ids, done, next := DepMap(nodes), Ids(nodes), ToSet(FlatIds(stages)), stages + [stage];
    PushStage(adj, stages, stage);
    assert ToSet(FlatIds(next)) == done + ToSet(StageIds(stage));
    forall n {:trigger Ready(adj, next, n)} | n in layer' ensures Ready(adj, next, n) {
      ReachedZero(nodes, stages, stage, inDegree, inDegree', n);
    }
    StillZero(nodes, stages, stage, StageIds(stage), layer', inDegree, inDegree');
    var x := StageIds(stage)[0];
    assert x in ToSet(StageIds(stage));
    SmallerSet(ids - ToSet(FlatIds(next)), ids - done, x);
  }

  lemma SmallerSet(a: set<Id>, b: set<Id>, x: Id)
    requires a <= b && x in b && x !in a
    ensures |a| < |b|
  {
    var c := b - a;
    assert b == a + c && x in c;
    assert |b| == |a| + |c|;
  }

  lemma StillZero(nodes: seq<Node>, stages: seq<seq<Node>>, stage: seq<Node>, layer: seq<Id>, layer': seq<Id>,
                  inDegree: map<Id, int>, inDegree': map<Id, int>)
    requires AtLayer(nodes, stages, layer, inDegree) && StageIds(stage) == layer
    requires FlatIds(stages + [stage]) == FlatIds(stages) + layer
    requires Remaining(Ids(nodes), DepMap(nodes), ToSet(FlatIds(stages)) + ToSet(layer), inDegree')
    requires forall n :: n in layer' <==>
      n in Ids(nodes) && inDegree'[n] == 0 && n !in ToSet(FlatIds(stages)) && n !in layer
    requires forall n :: n in Ids(nodes) ==> inDegree'[n] <= inDegree[n]
    ensures forall n :: n in Ids(nodes) ==>
      (inDegree'[n] == 0 <==> n in ToSet(FlatIds(stages + [stage])) || n in layer')
    ensures ToSet(layer') <= Ids(nodes) && ToSet(layer') !! ToSet(FlatIds(stages + [stage]))
  {
  }

  lemma CountTells(nodes: seq<Node>, stages: seq<seq<Node>>) returns (left: set<Id>)
    requires UniqueIds(nodes) && NoDup(FlatIds(stages)) && ToSet(FlatIds(stages)) <= Ids(nodes)
    ensures left == Ids(nodes) - ToSet(FlatIds(stages))
    ensures Processed(stages) == |nodes| ==> ToSet(FlatIds(stages)) == Ids(nodes)
    ensures Processed(stages) != |nodes| ==> left != {}
  {
    SetSize(FlatIds(stages));
    IdsSize(nodes);
    ProcessedIsFlatSize(stages);
    left := Ids(nodes) - ToSet(FlatIds(stages));
    if left != {} {
      var x :| x in left;
      SmallerSet(ToSet(FlatIds(stages)), Ids(nodes), x);
    } else {
      forall x | x in Ids(nodes) ensures x in ToSet(FlatIds(stages)) { assert x !in left; }
      assert ToSet(FlatIds(stages)) == Ids(nodes);
    }
  }

  /** When no layer is left, comparing the counts tells whether all nodes were placed. */
  lemma AllOrCyclic(nodes: seq<Node>, stages: seq<seq<Node>>, inDegree: map<Id, int>)
    requires UniqueIds(nodes) && AtLayer(nodes, stages, [], inDegree)
    ensures Processed(stages) == |nodes| ==> ToSet(FlatIds(stages)) == Ids(nodes)
    ensures Processed(stages) != |nodes| ==> Cyclic(DepMap(nodes))
  {
    var left := CountTells(nodes, stages);
    if Processed(stages) != |nodes| {
      var n :| n in left;
      LeftOverIsCyclic(nodes, stages, inDegree, n);
    }
  }

  /** computeStages: the stages of the graph, or the reason there are none. */
  method ComputeStages(nodes: seq<Node>) returns (r: StageResult)
    ensures r.DuplicateId? <==> !UniqueIds(nodes)
    ensures r.UnknownDependency? <==> UniqueIds(nodes) && !DepsKnown(nodes)
    ensures r.NoRoots? || r.CycleFound? <==> UniqueIds(nodes) && DepsKnown(nodes) && Cyclic(DepMap(nodes))
    ensures r.Stages? <==> UniqueIds(nodes) && DepsKnown(nodes) && !Cyclic(DepMap(nodes))
    ensures r.Stages? ==> IsStaging(nodes, r.stages)
  {
    var duplicate, nodeMap := IndexNodes(nodes);
    if duplicate != [] { return DuplicateId(duplicate[0]); }
    var fail, ok, adjacency, inDegree := BuildEdges(nodes);
    if !ok { return fail; }
    var layer := Roots(nodes, inDegree);
    StartOfLayers(nodes, adjacency, inDegree, layer);
    var stages: seq<seq<Node>> := [];
    if layer == [] && nodes != [] {
      AllOrCyclic(nodes, stages, inDegree);
      return NoRoots;
    }
    while layer != []
      invariant AtLayer(nodes, stages, layer, inDegree)
      invariant AllAmong(nodes, stages)
      decreases |Ids(nodes) - ToSet(FlatIds(stages))|
    {
      var stageNodes, nextLayer, inDegree' := NextRound(nodes, stages, layer, nodeMap, adjacency, inDegree);
      stages := stages + [stageNodes];
      layer, inDegree := nextLayer, inDegree';
    }
    AllOrCyclic(nodes, stages, inDegree);
    if Processed(stages) != |nodes| {
      return CycleFound(Processed(stages), |nodes|);
    }
    StagingIsAcyclic(nodes, stages);
    return Stages.Stages(stages);
  }
}
