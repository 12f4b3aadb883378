/** The planner's own graph routines: the depth-first cycle test and topological order, their agreement
    with the stage computation, and the plans themselves. */
module Planner {
  import opened Dag
  import opened Stages
  import Kahn

  /** Every id that occurs in the dependency map, as a key or as a dependency. */
  function Mentioned(adj: Deps): set<Id> {
    adj.Keys + set id, d | id in adj && d in adj[id] :: d
  }

  lemma DepsMentioned(adj: Deps, id: Id)
    ensures DepsOf(adj, id) != [] ==> id in Mentioned(adj)
    ensures forall i :: 0 <= i < |DepsOf(adj, id)| ==> DepsOf(adj, id)[i] in Mentioned(adj)
  {
    forall d | d in DepsOf(adj, id) ensures d in Mentioned(adj) {
      assert id in adj && d in adj[id];
    }
  }

  // ---- Depth-first search ----

  /** What both searches keep: visited ids are finished or on the current path, the path is a dependency
      chain, and the finished ids, in finishing order, come after their dependencies. */
  ghost predicate Searching(adj: Deps, visited: set<Id>, finished: seq<Id>, path: seq<Id>) {
    && (path != [] ==> IsChain(adj, path))
    && (forall x :: x in visited <==> x in finished || x in path)
    && (forall x :: x in path ==> x !in finished)
    && visited <= Mentioned(adj)
    && DepsFirst(adj, finished) && NoDup(finished)
  }

  lemma Start(adj: Deps)
    ensures Searching(adj, {}, [], [])
  {
  }

  /** A call on an id that is on the path has found a cycle; on any other visited id it has nothing to do. */
  lemma SeenBefore(adj: Deps, visited: set<Id>, finished: seq<Id>, path: seq<Id>, id: Id)
    requires Searching(adj, visited, finished, path) && id in visited
    requires path != [] ==> id in DepsOf(adj, path[|path| - 1])
    ensures id in path ==> Cyclic(adj)
    ensures id !in path ==> id in finished
  {
    if id in path { CloseCycle(adj, path, id); }
  }

  lemma Enter(adj: Deps, visited: set<Id>, finished: seq<Id>, path: seq<Id>, id: Id)
    requires Searching(adj, visited, finished, path) && id in Mentioned(adj) && id !in visited
    requires path != [] ==> id in DepsOf(adj, path[|path| - 1])
    ensures Searching(adj, visited + {id}, finished, path + [id])
    ensures id !in path
    ensures path != [] ==> IsChain(adj, path)
    ensures |Mentioned(adj) - (visited + {id})| < |Mentioned(adj) - visited|
  {
    OneFewerLeft(Mentioned(adj), visited, id);
    if path != [] { ExtendChain(adj, path, id); }
  }

  lemma Leave(adj: Deps, visited: set<Id>, finished: seq<Id>, path: seq<Id>, id: Id)
    requires Searching(adj, visited, finished, path + [id]) && ToSet(DepsOf(adj, id)) <= ToSet(finished)
    requires id !in path && (path != [] ==> IsChain(adj, path))
    ensures Searching(adj, visited, finished + [id], path)
    ensures ToSet(finished + [id]) == ToSet(finished) + {id}
  {
    AppendDepsFirst(adj, finished, id);
    assert ToSet(finished + [id]) == ToSet(finished) + {id};
    assert id in path + [id];
    assert id !in finished;
  }

  lemma OneMore(s: seq<Id>, i: nat)
    requires i < |s|
    ensures ToSet(s[..i + 1]) == ToSet(s[..i]) + {s[i]}
  {
    assert s[..i + 1] == s[..i] + [s[i]];
  }

  lemma OneFewerLeft(all: set<Id>, visited: set<Id>, id: Id)
    requires id in all && id !in visited
    ensures |all - (visited + {id})| < |all - visited|
  {
    assert all - visited == (all - (visited + {id})) + {id};
  }

  lemma FewerLeft(all: set<Id>, visited: set<Id>, visited': set<Id>)
    requires visited <= visited'
    ensures |all - visited'| <= |all - visited|
  {
    var more := (all - visited) - (all - visited');
    assert all - visited == (all - visited') + more;
  }

  lemma AppendDepsFirst(adj: Deps, order: seq<Id>, id: Id)
    requires DepsFirst(adj, order) && ToSet(DepsOf(adj, id)) <= ToSet(order)
    ensures DepsFirst(adj, order + [id])
  {
    var next := order + [id];
    forall i | 0 <= i < |next| ensures DepsBefore(adj, next, i) {
      if i < |order| {
        assert DepsBefore(adj, order, i) && next[..i] == order[..i];
      } else {
        assert next[..i] == order;
        forall d | d in DepsOf(adj, id) ensures d in order { assert d in ToSet(order); }
      }
    }
  }

  // ---- hasCycle ----

  ghost predicate OnStack(adj: Deps, visited: set<Id>, stack: set<Id>, finished: seq<Id>, path: seq<Id>) {
    (forall x :: x in stack <==> x in path) && Searching(adj, visited, finished, path)
  }

  lemma Push(adj: Deps, visited: set<Id>, stack: set<Id>, finished: seq<Id>, path: seq<Id>, id: Id)
    requires OnStack(adj, visited, stack, finished, path) && id in Mentioned(adj) && id !in visited
    requires path != [] ==> id in DepsOf(adj, path[|path| - 1])
    ensures OnStack(adj, visited + {id}, stack + {id}, finished, path + [id])
    ensures id !in path && (path != [] ==> IsChain(adj, path))
    ensures |Mentioned(adj) - (visited + {id})| < |Mentioned(adj) - visited|
  {
    Enter(adj, visited, finished, path, id);
  }

  lemma Pop(adj: Deps, visited: set<Id>, stack: set<Id>, finished: seq<Id>, path: seq<Id>, id: Id)
    requires OnStack(adj, visited, stack, finished, path + [id]) && ToSet(DepsOf(adj, id)) <= ToSet(finished)
    requires id !in path && (path != [] ==> IsChain(adj, path))
    ensures OnStack(adj, visited, stack - {id}, finished + [id], path)
    ensures ToSet(finished + [id]) == ToSet(finished) + {id}
  {
    Leave(adj, visited, finished, path, id);
  }

  /** The state that the nested dfs function of hasCycle shares across its calls. */
  class CycleSearch {
    const adj: Deps
    var visited: set<Id>
    var stack: set<Id>
    ghost var finished: seq<Id>  // the ids whose call has returned, in that order

    /** path lists the ids on the stack, outermost call first. */
    ghost predicate Valid(path: seq<Id>)
      reads this
    {
      OnStack(adj, visited, stack, finished, path)
    }

    constructor (adj: Deps)
      ensures Valid([]) && this.adj == adj && finished == []
    {
      this.adj := adj;
      visited, stack, finished := {}, {}, [];
      new;
      Start(adj);
    }

    /** Either finds a cycle, or returns with id and all that it depends on finished. */
    method Dfs(id: Id, ghost path: seq<Id>) returns (found: bool)
      requires Valid(path) && id in Mentioned(adj)
      requires path != [] ==> id in DepsOf(adj, path[|path| - 1])
      modifies this
      ensures found ==> Cyclic(adj)
      ensures !found ==> id in finished
      ensures !found ==> Valid(path)
      ensures !found ==> ToSet(old(finished)) <= ToSet(finished) && old(visited) <= visited
      decreases |Mentioned(adj) - visited|, 0
    {
      if id in visited { SeenBefore(adj, visited, finished, path, id); }
      if id in stack { return true; }
      if id in visited { return false; }
      Push(adj, visited, stack, finished, path, id);
      visited, stack := visited + {id}, stack + {id};
      found := DfsEach(DepsOf(adj, id), path + [id]);
      if found { return; }
      Pop(adj, visited, stack, finished, path, id);
      stack, finished := stack - {id}, finished + [id];
    }

    method DfsEach(deps: seq<Id>, ghost path: seq<Id>) returns (found: bool)
      requires Valid(path) && path != [] && deps == DepsOf(adj, path[|path| - 1])
      modifies this
      ensures found ==> Cyclic(adj)
      ensures !found ==> Valid(path) && ToSet(deps) <= ToSet(finished)
      ensures !found ==> ToSet(old(finished)) <= ToSet(finished) && old(visited) <= visited
      decreases |Mentioned(adj) - visited|, 1
    {
      DepsMentioned(adj, path[|path| - 1]);
      for i := 0 to |deps|
        invariant Valid(path)
        invariant ToSet(deps[..i]) <= ToSet(finished)
        invariant ToSet(old(finished)) <= ToSet(finished) && old(visited) <= visited
      {
        FewerLeft(Mentioned(adj), old(visited), visited);
        OneMore(deps, i);
        found := Dfs(deps[i], path);
        if found { return; }
      }
      assert deps[..|deps|] == deps;
      return false;
    }
  }

  /** hasCycle: true exactly when the dependency map has a cycle. */
  method HasCycle(nodes: seq<Node>) returns (cyclic: bool)
    ensures cyclic <==> Cyclic(DepMap(nodes))
  {
    var adj := DepMap(nodes);
    DepMapKeys(nodes);
    Kahn.NoEdgesYet({}, adj, nodes);
    var search := new CycleSearch(adj);
    for i := 0 to |nodes|
      invariant search.Valid([]) && search.adj == adj
      invariant Ids(nodes[..i]) <= ToSet(search.finished)
    {
      Kahn.IdsPrefix(nodes, i);
      var found := search.Dfs(nodes[i].id, []);
      if found { return true; }
    }
    OrderedIsAcyclic(adj, search.finished);
    return false;
  }

  // ---- topologicalOrder ----

  /** The state that the nested visit function of topologicalOrder shares across its calls. */
  class OrderVisit {
    const adj: Deps
    var visited: set<Id>
    var order: seq<Id>

    /** path lists the ids whose call is still running, outermost first. */
    ghost predicate Valid(path: seq<Id>)
      reads this
    {
      Searching(adj, visited, order, path)
    }

    constructor (adj: Deps)
      ensures Valid([]) && this.adj == adj && order == []
    {
      this.adj := adj;
      visited, order := {}, [];
      new;
      Start(adj);
    }

    method Visit(id: Id, ghost path: seq<Id>)
      requires !Cyclic(adj) && Valid(path) && id in Mentioned(adj)
      requires path != [] ==> id in DepsOf(adj, path[|path| - 1])
      modifies this
      ensures Valid(path) && id in order
      ensures ToSet(old(order)) <= ToSet(order) && old(visited) <= visited
      decreases |Mentioned(adj) - visited|, 0
    {
      if id in visited {
        SeenBefore(adj, visited, order, path, id);
        return;
      }
      Enter(adj, visited, order, path, id);
      visited := visited + {id};
      VisitEach(DepsOf(adj, id), path + [id]);
      Leave(adj, visited, order, path, id);
      order := order + [id];
    }

    method VisitEach(deps: seq<Id>, ghost path: seq<Id>)
      requires !Cyclic(adj) && Valid(path) && path != [] && deps == DepsOf(adj, path[|path| - 1])
      modifies this
      ensures Valid(path) && ToSet(deps) <= ToSet(order)
      ensures ToSet(old(order)) <= ToSet(order) && old(visited) <= visited
      decreases |Mentioned(adj) - visited|, 1
    {
      DepsMentioned(adj, path[|path| - 1]);
      for i := 0 to |deps|
        invariant Valid(path)
        invariant ToSet(deps[..i]) <= ToSet(order)
        invariant ToSet(old(order)) <= ToSet(order) && old(visited) <= visited
      {
        FewerLeft(Mentioned(adj), old(visited), visited);
        OneMore(deps, i);
        Visit(deps[i], path);
      }
      assert deps[..|deps|] == deps;
    }
  }

  datatype OrderResult = Order(ids: seq<Id>) | HasACycle

  /** topologicalOrder: every mentioned id once, after all of its dependencies; it fails exactly on a cycle. */
  method TopologicalOrder(nodes: seq<Node>) returns (r: OrderResult)
    ensures r.HasACycle? <==> Cyclic(DepMap(nodes))
    ensures r.Order? ==> NoDup(r.ids) && DepsFirst(DepMap(nodes), r.ids)
    ensures r.Order? ==> ToSet(r.ids) == Mentioned(DepMap(nodes))
  {
    var cyclic := HasCycle(nodes);
    if cyclic { return HasACycle; }
    var adj := DepMap(nodes);
    DepMapKeys(nodes);
    Kahn.NoEdgesYet({}, adj, nodes);
    var walk := new OrderVisit(adj);
    for i := 0 to |nodes|
      invariant walk.Valid([]) && walk.adj == adj
      invariant Ids(nodes[..i]) <= ToSet(walk.order)
    {
      Kahn.IdsPrefix(nodes, i);
      walk.Visit(nodes[i].id, []);
    }
    AllMentioned(adj, walk.order);
    return Order(walk.order);
  }

  lemma AllMentioned(adj: Deps, order: seq<Id>)
    requires DepsFirst(adj, order) && adj.Keys <= ToSet(order)
    ensures Mentioned(adj) <= ToSet(order)
  {
    forall x | x in Mentioned(adj) ensures x in order {
      if x !in adj {
        var id :| id in adj && x in adj[id];
        var i :| 0 <= i < |order| && order[i] == id;
        assert DepsBefore(adj, order, i);
        assert x in DepsOf(adj, order[i]);
        assert order[..i] <= order;
      } else {
        assert x in ToSet(order);
      }
    }
  }

  // ---- The two algorithms agree ----

  /** With unique ids and known dependencies, the depth-first test rejects exactly the graphs that
      the stage computation rejects. */
  method BothVerdicts(nodes: seq<Node>) returns (cyclic: bool, staged: StageResult, order: OrderResult)
    ensures UniqueIds(nodes) && DepsKnown(nodes) ==> (cyclic <==> !staged.Stages?)
    ensures staged.Stages? ==> order.Order? && multiset(order.ids) == multiset(FlatIds(staged.stages))
  {
    cyclic := HasCycle(nodes);
    staged := Kahn.ComputeStages(nodes);
    order := TopologicalOrder(nodes);
    if staged.Stages? {
      FlattenedIsTopological(nodes, staged.stages);
      MentionedAreNodes(nodes);
      SameMembersOnce(order.ids, FlatIds(staged.stages));
    }
  }

  lemma MentionedAreNodes(nodes: seq<Node>)
    requires UniqueIds(nodes) && DepsKnown(nodes)
    ensures Mentioned(DepMap(nodes)) == Ids(nodes)
  {
    DepMapKeys(nodes);
    forall id | id in Ids(nodes) ensures forall d :: d in DepsOf(DepMap(nodes), id) ==> d in Ids(nodes) {
      Kahn.KnownDeps(nodes, id);
    }
  }

  lemma {:induction false} OnceInMultiset(a: seq<Id>, x: Id)
    requires NoDup(a)
    ensures multiset(a)[x] == if x in a then 1 else 0
  {
    if a != [] {
      var front := a[..|a| - 1];
      OnceInMultiset(front, x);
      assert a == front + [a[|a| - 1]];
    }
  }

  lemma SameMembersOnce(a: seq<Id>, b: seq<Id>)
    requires NoDup(a) && NoDup(b) && ToSet(a) == ToSet(b)
    ensures multiset(a) == multiset(b)
  {
    forall x ensures multiset(a)[x] == multiset(b)[x] {
      OnceInMultiset(a, x);
      OnceInMultiset(b, x);
      assert x in a <==> x in ToSet(a);
      assert x in b <==> x in ToSet(b);
    }
  }
}
