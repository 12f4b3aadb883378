/** The dependency graphs that the planner, the stage computation and the schedulers share:
    nodes, the dependency map, chains along dependencies, cycles, and orders that respect them. */
module Dag {

  /** A node id. */
  datatype Id = Id(text: string)

  datatype Node = Node(id: Id, dependsOn: seq<Id>)

  /** The dependency map, by id. A later node replaces an earlier one with the same id. */
  type Deps = map<Id, seq<Id>>

  function DepMap(nodes: seq<Node>): Deps {
    if nodes == [] then map[]
    else var last := nodes[|nodes| - 1]; DepMap(nodes[..|nodes| - 1])[last.id := last.dependsOn]
  }

  /** An id without an entry is read as one without dependencies. */
  function DepsOf(adj: Deps, id: Id): seq<Id> {
    if id in adj then adj[id] else []
  }

  predicate UniqueIds(nodes: seq<Node>) {
    forall i, j :: 0 <= i < j < |nodes| ==> nodes[i].id != nodes[j].id
  }

  function Ids(nodes: seq<Node>): set<Id> {
    set i | 0 <= i < |nodes| :: nodes[i].id
  }

  predicate Known(ids: set<Id>, node: Node) {
    forall d :: d in node.dependsOn ==> d in ids
  }

  predicate DepsKnown(nodes: seq<Node>) {
    forall i :: 0 <= i < |nodes| ==> Known(Ids(nodes), nodes[i])
  }

  /** A chain p walks from a node to one of its dependencies, to one of that one's, and so on. */
  ghost predicate IsChain(adj: Deps, p: seq<Id>) {
    p != [] && forall i :: 0 <= i < |p| - 1 ==> Link(adj, p, i)
  }

  ghost predicate Link(adj: Deps, p: seq<Id>, i: nat)
    requires i + 1 < |p|
  {
    p[i + 1] in DepsOf(adj, p[i])
  }

  ghost predicate IsCycle(adj: Deps, p: seq<Id>) {
    |p| >= 2 && IsChain(adj, p) && p[0] == p[|p| - 1]
  }

  ghost predicate Cyclic(adj: Deps) {
    exists p :: IsCycle(adj, p)
  }

  predicate NoDup(s: seq<Id>) {
    forall i, j :: 0 <= i < j < |s| ==> s[i] != s[j]
  }

  /** Every id in the order comes after all of its dependencies. */
  ghost predicate DepsFirst(adj: Deps, order: seq<Id>) {
    forall i :: 0 <= i < |order| ==> DepsBefore(adj, order, i)
  }

  ghost predicate DepsBefore(adj: Deps, order: seq<Id>, i: nat)
    requires i < |order|
  {
    forall d :: d in DepsOf(adj, order[i]) ==> d in order[..i]
  }

  function ToSet(s: seq<Id>): set<Id> {
    set x | x in s
  }

  // ---- Facts about dependency maps ----

  lemma DepMapKeys(nodes: seq<Node>)
    ensures DepMap(nodes).Keys == Ids(nodes)
  {
    if nodes != [] {
      var n := |nodes| - 1;
      DepMapKeys(nodes[..n]);
      assert forall i :: 0 <= i < n ==> nodes[..n][i] == nodes[i];
      assert Ids(nodes) == Ids(nodes[..n]) + {nodes[n].id} by {
        forall x | x in Ids(nodes[..n]) ensures x in Ids(nodes) {
          var i :| 0 <= i < n && nodes[..n][i].id == x;
          assert nodes[i].id == x;
        }
        assert nodes[n].id in Ids(nodes);
      }
    }
  }

  /** The last node with an id is the one that counts, which is what Map.set in a loop does. */
  lemma DepMapIsLastWins(nodes: seq<Node>, i: nat)
    requires i < |nodes| && forall j :: i < j < |nodes| ==> nodes[j].id != nodes[i].id
    ensures nodes[i].id in DepMap(nodes) && DepMap(nodes)[nodes[i].id] == nodes[i].dependsOn
  {
    var n := |nodes| - 1;
    if i < n { DepMapIsLastWins(nodes[..n], i); }
  }

  // ---- Orders, cycles and chains ----

  /** From any position that holds p[0], some position at least k earlier holds p[k]. */
  lemma {:induction false} ChainDescends(adj: Deps, order: seq<Id>, p: seq<Id>, k: nat, i: nat)
    requires DepsFirst(adj, order) && IsChain(adj, p) && k < |p|
    requires i < |order| && order[i] == p[0]
    ensures exists m :: 0 <= m <= i - k && order[m] == p[k]
  {
    if k == 0 {
      assert order[i] == p[k];
    } else {
      ChainDescends(adj, order, p, k - 1, i);
      var m :| 0 <= m <= i - (k - 1) && order[m] == p[k - 1];
      assert Link(adj, p, k - 1);
      assert DepsBefore(adj, order, m);
      var j :| 0 <= j < m && order[..m][j] == p[k];
      assert order[j] == p[k];
    }
  }

  lemma {:induction false} NoCycleThroughOrder(adj: Deps, order: seq<Id>, p: seq<Id>, i: nat)
    requires DepsFirst(adj, order) && IsCycle(adj, p)
    requires i < |order| && order[i] == p[0]
    ensures false
    decreases i
  {
    ChainDescends(adj, order, p, |p| - 1, i);
    var m :| 0 <= m <= i - (|p| - 1) && order[m] == p[|p| - 1];
    NoCycleThroughOrder(adj, order, p, m);
  }

  /** A dependencies-first order of all ids shows that there is no cycle. */
  lemma OrderedIsAcyclic(adj: Deps, order: seq<Id>)
    requires DepsFirst(adj, order)
    requires adj.Keys <= ToSet(order)
    ensures !Cyclic(adj)
  {
    if Cyclic(adj) {
      var p :| IsCycle(adj, p);
      assert Link(adj, p, 0);
      var i :| 0 <= i < |order| && order[i] == p[0];
      NoCycleThroughOrder(adj, order, p, i);
    }
  }

  lemma ExtendChain(adj: Deps, p: seq<Id>, d: Id)
    requires IsChain(adj, p) && d in DepsOf(adj, p[|p| - 1])
    ensures IsChain(adj, p + [d])
  {
    var q := p + [d];
    forall i | 0 <= i < |q| - 1 ensures Link(adj, q, i) {
      if i < |p| - 1 { assert Link(adj, p, i); }
    }
  }

  /** A chain whose end depends on one of its own members closes a cycle. */
  lemma CloseCycle(adj: Deps, p: seq<Id>, d: Id)
    requires IsChain(adj, p) && d in DepsOf(adj, p[|p| - 1]) && d in p
    ensures Cyclic(adj)
  {
    ExtendChain(adj, p, d);
    var q := p + [d];
    var i :| 0 <= i < |p| && p[i] == d;
    var c := q[i..];
    forall k | 0 <= k < |c| - 1 ensures Link(adj, c, k) {
      assert Link(adj, q, i + k);
    }
    assert IsCycle(adj, c);
  }

  ghost predicate DependsInside(adj: Deps, s: set<Id>, x: Id) {
    exists d :: d in DepsOf(adj, x) && d in s
  }

  /** If every member of s depends on some member of s, walking such dependencies must
      come back to where it has been. */
  lemma {:induction false} StuckSetHasCycle(adj: Deps, s: set<Id>, p: seq<Id>)
    requires forall x {:trigger DependsInside(adj, s, x)} :: x in s ==> DependsInside(adj, s, x)
    requires IsChain(adj, p) && ToSet(p) <= s
    ensures Cyclic(adj)
    decreases s - ToSet(p)
  {
    var x := p[|p| - 1];
    assert x in ToSet(p);
    assert DependsInside(adj, s, x);
    var d :| d in DepsOf(adj, x) && d in s;
    if d in p {
      CloseCycle(adj, p, d);
    } else {
      ExtendChain(adj, p, d);
      assert ToSet(p + [d]) == ToSet(p) + {d};
      StuckSetHasCycle(adj, s, p + [d]);
    }
  }
}
