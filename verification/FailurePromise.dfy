/** When the scheduler keeps the documented promise that a failing node makes the run throw: exactly when at most one
    node can run at a time, because of the cap or because no stage has two nodes. */
module FailurePromise {
  import opened Dag
  import opened Outcomes
  import opened Stages
  import opened Scheduler

  ghost predicate SomeFails<T>(nodes: seq<Node>, outcome: Id -> Outcome<T>) {
    exists x :: x in Ids(nodes) && outcome(x).Error?
  }

  /** Whichever nodes fail, and in whatever order nodes settle, a failure makes the run throw. */
  ghost predicate KeepsPromise<T(!new)>(nodes: seq<Node>, stages: seq<seq<Node>>, cap: nat) {
    forall outcome: Id -> Outcome<T>, choose ::
      SomeFails(nodes, outcome) ==> RunSpec(stages, cap, outcome, choose).Failed?
  }

  /** At most one node ever runs. */
  predicate OneAtATime(stages: seq<seq<Node>>, cap: nat) {
    cap == 1 || forall k :: 0 <= k < |stages| ==> |stages[k]| <= 1
  }

  // ---- One node at a time: no failure is missed ----

  ghost predicate AllValues<T>(ids: seq<Id>, outcome: Id -> Outcome<T>) {
    forall i :: 0 <= i < |ids| ==> outcome(ids[i]).Value?
  }

  /** What is running, and then what is still to start. */
  function Left<T>(ids: seq<Id>, s: Exec<T>): seq<Id>
    requires s.next <= |ids|
  {
    s.running + ids[s.next..]
  }

  /** The window has been refilled and holds at most one node. */
  predicate Narrow<T>(ids: seq<Id>, cap: nat, s: Exec<T>) {
    && s.next <= |ids| && |s.running| <= 1
    && (cap == 1 || |Left(ids, s)| <= 1) && (s.running == [] ==> s.next == |ids|)
  }

  lemma RefillNarrow<T>(ids: seq<Id>, cap: nat, s: Exec<T>)
    requires cap >= 1 && s.next <= |ids| && s.running == [] && (cap == 1 || |ids| - s.next <= 1)
    ensures Narrow(ids, cap, Refill(ids, cap, s)) && Left(ids, Refill(ids, cap, s)) == ids[s.next..]
  {
    if s.next < |ids| {
      var s' := StartNext(ids, s);
      assert s'.running == [ids[s.next]];
      assert Refill(ids, cap, s') == s';
      assert Left(ids, s') == ids[s.next..];
    }
  }

  /** With one node running, what settles is that node. */
  lemma OnlyOneSettles(b: Batch, running: seq<Id>)
    requires ValidBatch(b, running) && |running| == 1
    ensures b.settled == [running[0]] && b.winner == running[0]
  {
    assert forall i :: 0 <= i < |b.settled| ==> b.settled[i] in running;
    FirstTwoDiffer(b.settled);
  }

  lemma FirstTwoDiffer(s: seq<Id>)
    requires NoDup(s)
    ensures |s| >= 2 ==> s[0] != s[1]
  {
  }

  lemma {:induction false} NarrowLoop<T>(ids: seq<Id>, cap: nat, outcome: Id -> Outcome<T>, choose: Exec<T> -> Batch,
                                         s: Exec<T>)
    requires cap >= 1 && Narrow(ids, cap, s) && AwaitLoop(ids, cap, outcome, choose, s).Finished?
    ensures AllValues(Left(ids, s), outcome)
    decreases |s.running| + |ids| - s.next
  {
    if s.running != [] {
      var p := Park(s);
      var b := Pick(choose, p);
      OnlyOneSettles(b, s.running);
      var s' := SettleAll(outcome, p, b.settled);
      SettleShrinks(outcome, p, b.settled, b.winner);
      assert s'.running == [];
      RefillKeepsTotal(ids, cap, s');
      RefillNarrow(ids, cap, s');
      NarrowLoop(ids, cap, outcome, choose, Refill(ids, cap, s'));
      assert Left(ids, s) == [b.winner] + ids[s.next..];
    }
  }

  lemma {:induction false} NarrowRun<T>(stages: seq<seq<Node>>, k: nat, cap: nat, outcome: Id -> Outcome<T>,
                                        choose: Exec<T> -> Batch, all: map<Id, T>, trace: seq<Event>)
    requires cap >= 1 && OneAtATime(stages, cap) && k <= |stages|
    requires RunFrom(stages, k, cap, outcome, choose, all, trace).Completed?
    ensures forall j :: k <= j < |stages| ==> AllValues(StageIds(stages[j]), outcome)
    decreases |stages| - k
  {
    if k < |stages| {
      var ids, s0 := StageIds(stages[k]), Fresh<T>(trace);
      RefillKeepsTotal(ids, cap, s0);
      RefillNarrow(ids, cap, s0);
      assert ids[0..] == ids;
      NarrowLoop(ids, cap, outcome, choose, Refill(ids, cap, s0));
      var s := AwaitLoop(ids, cap, outcome, choose, Refill(ids, cap, s0)).s;
      NarrowRun(stages, k + 1, cap, outcome, choose, all + s.results, s.trace);
    }
  }

  lemma NarrowValues<T>(nodes: seq<Node>, stages: seq<seq<Node>>, cap: nat, outcome: Id -> Outcome<T>,
                        choose: Exec<T> -> Batch)
    requires cap >= 1 && IsStaging(nodes, stages) && OneAtATime(stages, cap)
    requires RunSpec(stages, cap, outcome, choose).Completed?
    ensures !SomeFails(nodes, outcome)
  {
    NarrowRun(stages, 0, cap, outcome, choose, map[], []);
    forall x | x in Ids(nodes) ensures outcome(x).Value? {
      assert x in ToSet(FlatIds(stages));
      FlatMembers(stages, x);
      var k :| InStage(stages, k, x);
      assert AllValues(StageIds(stages[k]), outcome);
    }
  }

  // ---- Two nodes at a time: a failure can be missed ----

  /** Only b fails. */
  function Failing<T>(b: Id, v: T): Id -> Outcome<T> {
    x => if x == b then Error else Value(v)
  }

  /** The first running node wins every race, and b, if it runs, settles before the race resumes. */
  function Together<T>(b: Id): Exec<T> -> Batch {
    (s: Exec<T>) =>
      if s.running == [] then Batch([], b)
      else if b in s.running && s.running[0] != b then Batch([s.running[0], b], s.running[0])
      else Batch([s.running[0]], s.running[0])
  }

  /** b will not be started any more, and it does not head the window. */
  predicate Behind<T>(ids: seq<Id>, s: Exec<T>, b: Id) {
    s.next <= |ids| && b !in ids[s.next..] && (s.running != [] ==> s.running[0] != b)
  }

  lemma {:induction false} RefillBehind<T>(ids: seq<Id>, cap: nat, s: Exec<T>, b: Id)
    requires Behind(ids, s, b)
    ensures Behind(ids, Refill(ids, cap, s), b)
    decreases |ids| - s.next
  {
    if |s.running| < cap && s.next < |ids| {
      assert ids[s.next..] == [ids[s.next]] + ids[s.next + 1..];
      RefillBehind(ids, cap, StartNext(ids, s), b);
    }
  }

  lemma PickTogether<T>(s: Exec<T>, b: Id)
    requires s.running != [] && s.running[0] != b
    ensures var batch := Pick(Together<T>(b), s);
      batch.winner == s.running[0] && (b in s.running ==> b in batch.settled)
  {
  }

  lemma {:induction false} LoopMisses<T>(ids: seq<Id>, cap: nat, b: Id, v: T, s: Exec<T>)
    requires Behind(ids, s, b)
    ensures AwaitLoop(ids, cap, Failing(b, v), Together(b), s).Finished?
    decreases |s.running| + |ids| - s.next
  {
    if s.running != [] {
      var p := Park(s);
      PickTogether(p, b);
      var batch := Pick(Together<T>(b), p);
      var s' := SettleAll(Failing(b, v), p, batch.settled);
      SettleShrinks(Failing(b, v), p, batch.settled, batch.winner);
      assert b !in s'.running;
      RefillKeepsTotal(ids, cap, s');
      RefillBehind(ids, cap, s', b);
      LoopMisses(ids, cap, b, v, Refill(ids, cap, s'));
    }
  }

  /** The stage does not have b, or has it in second place. */
  predicate SecondIfAny(ids: seq<Id>, b: Id) {
    b !in ids || (|ids| >= 2 && ids[1] == b && NoDup(ids))
  }

  lemma StageMisses<T>(ids: seq<Id>, cap: nat, b: Id, v: T, trace: seq<Event>)
    requires cap >= 2 && SecondIfAny(ids, b)
    ensures Refill(ids, cap, Fresh<T>(trace)).next <= |ids|
    ensures AwaitLoop(ids, cap, Failing(b, v), Together(b), Refill(ids, cap, Fresh<T>(trace))).Finished?
  {
    var s0 := Fresh<T>(trace);
    RefillKeepsTotal(ids, cap, s0);
    if b in ids {
      var s1 := StartNext(ids, s0);
      var s2 := StartNext(ids, s1);
      assert Refill(ids, cap, s0) == Refill(ids, cap, s1) == Refill(ids, cap, s2);
      assert s2.running[0] == ids[0] != b;
      RefillBehind(ids, cap, s2, b);
    } else {
      RefillBehind(ids, cap, s0, b);
    }
    LoopMisses(ids, cap, b, v, Refill(ids, cap, s0));
  }

  lemma {:induction false} RunMisses<T>(stages: seq<seq<Node>>, k: nat, cap: nat, b: Id, v: T,
                                        all: map<Id, T>, trace: seq<Event>)
    requires cap >= 2 && k <= |stages|
    requires forall j :: 0 <= j < |stages| ==> SecondIfAny(StageIds(stages[j]), b)
    ensures RunFrom(stages, k, cap, Failing(b, v), Together(b), all, trace).Completed?
    decreases |stages| - k
  {
    if k < |stages| {
      var ids := StageIds(stages[k]);
      StageMisses(ids, cap, b, v, trace);
      var s := AwaitLoop(ids, cap, Failing(b, v), Together(b), Refill(ids, cap, Fresh<T>(trace))).s;
      RunMisses(stages, k + 1, cap, b, v, all + s.results, s.trace);
    }
  }

  /** A node lies in one stage only. */
  lemma OneStage(adj: Deps, stages: seq<seq<Node>>, j: nat, k: nat, id: Id)
    requires Layered(adj, stages) && InStage(stages, j, id) && InStage(stages, k, id)
    ensures j == k
  {
    var p := DeepestChain(adj, stages, j, id);
    NoLongerChain(adj, stages, k, id, p);
    var q := DeepestChain(adj, stages, k, id);
    NoLongerChain(adj, stages, j, id, q);
  }

  lemma StageNoDup(adj: Deps, stages: seq<seq<Node>>, k: nat)
    requires Layered(adj, stages) && k < |stages|
    ensures NoDup(StageIds(stages[k]))
  {
    FlatPrefixNoDup(stages, k + 1);
    StageDeps(adj, stages, k);
    BehindNoDup(FlatIds(stages[..k]), StageIds(stages[k]));
  }

  lemma BehindNoDup(f: seq<Id>, g: seq<Id>)
    requires NoDup(f + g)
    ensures NoDup(g)
  {
    assert forall i :: 0 <= i < |g| ==> (f + g)[|f| + i] == g[i];
  }

  lemma WideMisses<T>(nodes: seq<Node>, stages: seq<seq<Node>>, cap: nat, k: nat, v: T)
    requires cap >= 2 && IsStaging(nodes, stages) && k < |stages| && |stages[k]| >= 2
    ensures var b := stages[k][1].id;
      SomeFails(nodes, Failing(b, v)) && RunSpec(stages, cap, Failing(b, v), Together(b)).Completed?
  {
    var b := stages[k][1].id;
    assert StageIds(stages[k])[1] == b;
    assert InStage(stages, k, b);
    FlatMembers(stages, b);
    assert b in ToSet(FlatIds(stages));
    forall j | 0 <= j < |stages| ensures SecondIfAny(StageIds(stages[j]), b) {
      if b in StageIds(stages[j]) {
        assert InStage(stages, j, b);
        OneStage(DepMap(nodes), stages, j, k, b);
        StageNoDup(DepMap(nodes), stages, k);
      }
    }
    RunMisses(stages, 0, cap, b, v, map[], []);
  }

  /** The promise holds exactly if at most one node runs at a time: with a cap of 1, or without a stage of two nodes. */
  lemma PromiseExactly<T(!new)>(nodes: seq<Node>, stages: seq<seq<Node>>, cap: nat, v: T)
    requires cap >= 1 && IsStaging(nodes, stages)
    ensures KeepsPromise<T>(nodes, stages, cap) <==> OneAtATime(stages, cap)
  {
    if OneAtATime(stages, cap) {
      forall outcome: Id -> Outcome<T>, choose | SomeFails(nodes, outcome)
        ensures RunSpec(stages, cap, outcome, choose).Failed?
      {
        if RunSpec(stages, cap, outcome, choose).Completed? {
          NarrowValues(nodes, stages, cap, outcome, choose);
        }
      }
    } else {
      var k :| 0 <= k < |stages| && |stages[k]| > 1;
      WideMisses(nodes, stages, cap, k, v);
    }
  }
}
