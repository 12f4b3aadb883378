/** The capped-parallelism scheduler: stage after stage, a sliding window of running nodes. What a
    Promise.race observes is a choice, made by an arbitrary function of the state so far. */
module Scheduler {
  import opened Dag
  import opened Outcomes
  import opened Stages
  import Kahn

  /** Parked marks the moments at which the scheduler awaits a race. */
  datatype Event = Started(id: Id) | Settled(id: Id) | Parked

  /** The locals of executeStage, and everything that has happened so far in the run. */
  datatype Exec<T> = Exec(next: nat, running: seq<Id>, results: map<Id, T>, trace: seq<Event>)

  /** What one await observes: the nodes that settle before it resumes, in order, and the one that wins
      the race. Each settled node has already left the running set when the await resumes. */
  datatype Batch = Batch(settled: seq<Id>, winner: Id)

  datatype StageEnd<T> = Finished(s: Exec<T>) | Threw(s: Exec<T>, id: Id)

  predicate ValidBatch(b: Batch, running: seq<Id>) {
    b.winner in b.settled && NoDup(b.settled) && forall x :: x in b.settled ==> x in running
  }

  function Pick<T>(choose: Exec<T> -> Batch, s: Exec<T>): (b: Batch)
    requires s.running != []
    ensures ValidBatch(b, s.running)
  {
    var b := choose(s);
    if ValidBatch(b, s.running) then b else Batch([s.running[0]], s.running[0])
  }

  function Without(s: seq<Id>, x: Id): seq<Id> {
    if s == [] then [] else (if s[0] == x then [] else [s[0]]) + Without(s[1..], x)
  }

  /** One turn of tryStartNext. */
  function StartNext<T>(ids: seq<Id>, s: Exec<T>): Exec<T>
    requires s.next < |ids|
  {
    var id := ids[s.next];
    s.(next := s.next + 1, running := s.running + [id], trace := s.trace + [Started(id)])
  }

  /** tryStartNext. */
  function Refill<T>(ids: seq<Id>, cap: nat, s: Exec<T>): Exec<T>
    decreases |ids| - s.next
  {
    if |s.running| < cap && s.next < |ids| then Refill(ids, cap, StartNext(ids, s)) else s
  }

  function SettleOne<T>(outcome: Id -> Outcome<T>, s: Exec<T>, id: Id): Exec<T> {
    Exec(s.next, Without(s.running, id),
         if outcome(id).Value? then s.results[id := outcome(id).value] else s.results,
         s.trace + [Settled(id)])
  }

  function SettleAll<T>(outcome: Id -> Outcome<T>, s: Exec<T>, order: seq<Id>): Exec<T> {
    if order == [] then s else SettleOne(outcome, SettleAll(outcome, s, order[..|order| - 1]), order[|order| - 1])
  }

  function Park<T>(s: Exec<T>): Exec<T> {
    s.(trace := s.trace + [Parked])
  }

  /** The loop of executeStage, from a state whose window has just been refilled. */
  function AwaitLoop<T>(ids: seq<Id>, cap: nat, outcome: Id -> Outcome<T>, choose: Exec<T> -> Batch, s: Exec<T>)
                       : StageEnd<T>
    requires s.next <= |ids|
    decreases |s.running| + |ids| - s.next
  {
    if s.running == [] then Finished(s)
    else
      var b := Pick(choose, Park(s));
      var s' := SettleAll(outcome, Park(s), b.settled);
      SettleShrinks(outcome, Park(s), b.settled, b.winner);
      if outcome(b.winner).Error? then Threw(s', b.winner)
      else RefillKeepsTotal(ids, cap, s'); AwaitLoop(ids, cap, outcome, choose, Refill(ids, cap, s'))
  }

  lemma {:induction false} WithoutFacts(s: seq<Id>, x: Id)
    ensures |Without(s, x)| <= |s| && (x in s ==> |Without(s, x)| < |s|)
    ensures forall y :: y in Without(s, x) <==> y in s && y != x
  {
    if s != [] {
      WithoutFacts(s[1..], x);
      assert s == [s[0]] + s[1..];
    }
  }

  lemma {:induction false} SettleShrinks<T>(outcome: Id -> Outcome<T>, s: Exec<T>, order: seq<Id>, x: Id)
    ensures SettleAll(outcome, s, order).next == s.next
    ensures |SettleAll(outcome, s, order).running| <= |s.running|
    ensures forall y :: y in SettleAll(outcome, s, order).running <==> y in s.running && y !in order
    ensures x in order && x in s.running ==> |SettleAll(outcome, s, order).running| < |s.running|
  {
    if order != [] {
      var m := |order| - 1;
      SettleShrinks(outcome, s, order[..m], x);
      WithoutFacts(SettleAll(outcome, s, order[..m]).running, order[m]);
      assert order == order[..m] + [order[m]];
    }
  }

  lemma {:induction false} RefillKeepsTotal<T>(ids: seq<Id>, cap: nat, s: Exec<T>)
    requires s.next <= |ids|
    ensures Refill(ids, cap, s).next <= |ids|
    ensures |Refill(ids, cap, s).running| + |ids| - Refill(ids, cap, s).next == |s.running| + |ids| - s.next
    decreases |ids| - s.next
  {
    if |s.running| < cap && s.next < |ids| {
      RefillKeepsTotal(ids, cap, StartNext(ids, s));
    }
  }

  // ---- What a trace says ----

  function RunningThen(running: seq<Id>, e: Event): seq<Id> {
    match e
    case Started(id) => running + [id]
    case Settled(id) => Without(running, id)
    case Parked => running
  }

  function RunningAfter(trace: seq<Event>): seq<Id> {
    if trace == [] then [] else RunningThen(RunningAfter(trace[..|trace| - 1]), trace[|trace| - 1])
  }

  function StartedIds(trace: seq<Event>): seq<Id> {
    if trace == [] then [] else
      StartedIds(trace[..|trace| - 1]) + if trace[|trace| - 1].Started? then [trace[|trace| - 1].id] else []
  }

  function SettledIds(trace: seq<Event>): set<Id> {
    if trace == [] then {} else
      SettledIds(trace[..|trace| - 1]) + if trace[|trace| - 1].Settled? then {trace[|trace| - 1].id} else {}
  }

  /** One event after a trace: the window is respected, a node starts only when its dependencies have
      settled, and the scheduler parks only with a full window or a stage that is started entirely. */
  ghost predicate SafeEvent(adj: Deps, stages: seq<seq<Node>>, cap: nat, trace: seq<Event>, e: Event) {
    && |RunningAfter(trace + [e])| <= cap
    && (e.Started? ==> forall d :: d in DepsOf(adj, e.id) ==> d in SettledIds(trace))
    && (e.Parked? ==> |RunningAfter(trace)| == cap || StartedAStage(stages, trace))
  }

  ghost predicate StartedAStage(stages: seq<seq<Node>>, trace: seq<Event>) {
    exists k :: 0 <= k <= |stages| && StartedIds(trace) == FlatIds(stages[..k])
  }

  ghost predicate SafeTrace(adj: Deps, stages: seq<seq<Node>>, cap: nat, trace: seq<Event>) {
    trace == [] ||
    (var front := trace[..|trace| - 1];
     SafeTrace(adj, stages, cap, front) && SafeEvent(adj, stages, cap, front, trace[|trace| - 1]))
  }

  lemma AppendEvent(adj: Deps, stages: seq<seq<Node>>, cap: nat, trace: seq<Event>, e: Event)
    ensures RunningAfter(trace + [e]) == RunningThen(RunningAfter(trace), e)
    ensures StartedIds(trace + [e]) == StartedIds(trace) + if e.Started? then [e.id] else []
    ensures SettledIds(trace + [e]) == SettledIds(trace) + if e.Settled? then {e.id} else {}
    ensures SafeTrace(adj, stages, cap, trace) && SafeEvent(adj, stages, cap, trace, e) ==>
      SafeTrace(adj, stages, cap, trace + [e])
  {
    assert (trace + [e])[..|trace|] == trace;
  }

  /** A safe trace is safe at every position. */
  lemma {:induction false} SafeAt(adj: Deps, stages: seq<seq<Node>>, cap: nat, trace: seq<Event>, i: nat)
    requires SafeTrace(adj, stages, cap, trace) && i < |trace|
    ensures SafeEvent(adj, stages, cap, trace[..i], trace[i])
  {
    if i < |trace| - 1 {
      var front := trace[..|trace| - 1];
      assert front[..i] == trace[..i];
      SafeAt(adj, stages, cap, front, i);
    }
  }

  // ---- One stage ----

  /** The part of the invariant that the trace and the locals share; base lists the earlier stages' ids. */
  ghost predicate Tracks<T>(base: seq<Id>, ids: seq<Id>, outcome: Id -> Outcome<T>, s: Exec<T>) {
    && s.next <= |ids|
    && StartedIds(s.trace) == base + ids[..s.next]
    && s.running == RunningAfter(s.trace)
    && forall x {:trigger Fits(base, ids, outcome, s, x)} :: Fits(base, ids, outcome, s, x)
  }

  /** An id runs, has settled, or has a result exactly as what was started implies. */
  ghost predicate Fits<T>(base: seq<Id>, ids: seq<Id>, outcome: Id -> Outcome<T>, s: Exec<T>, x: Id)
    requires s.next <= |ids|
  {
    && (x in s.running ==> x in ids[..s.next])
    && (x in SettledIds(s.trace) <==> x in base || (x in ids[..s.next] && x !in s.running))
    && (x in s.results <==> x in ids[..s.next] && x !in s.running && outcome(x).Value?)
    && (x in s.results ==> s.results[x] == outcome(x).value)
  }

  /** Every dependency of the stage lies in an earlier one. */
  ghost predicate Supported(adj: Deps, base: seq<Id>, ids: seq<Id>) {
    forall x {:trigger DepsIn(adj, base, x)} :: x in ids ==> DepsIn(adj, base, x)
  }

  ghost predicate DepsIn(adj: Deps, base: seq<Id>, x: Id) {
    forall d :: d in DepsOf(adj, x) ==> d in base
  }

  lemma NextIsNew(base: seq<Id>, ids: seq<Id>, n: nat)
    requires NoDup(base + ids) && n < |ids|
    ensures ids[n] !in base && ids[n] !in ids[..n] && ids[..n + 1] == ids[..n] + [ids[n]]
  {
    assert (base + ids)[|base| + n] == ids[n];
    assert forall k :: 0 <= k < |base| ==> (base + ids)[k] == base[k];
    assert forall k :: 0 <= k < n ==> (base + ids)[|base| + k] == ids[k];
  }

  lemma StartTracks<T>(base: seq<Id>, ids: seq<Id>, outcome: Id -> Outcome<T>, s: Exec<T>)
    requires Tracks(base, ids, outcome, s) && s.next < |ids| && NoDup(base + ids)
    ensures Tracks(base, ids, outcome, StartNext(ids, s))
  {
    AppendEvent(map[], [], 0, s.trace, Started(ids[s.next]));
    NextIsNew(base, ids, s.next);
    var id := ids[s.next];
    assert Fits(base, ids, outcome, s, id);
    forall x ensures Fits(base, ids, outcome, StartNext(ids, s), x) {
      assert Fits(base, ids, outcome, s, x);
    }
  }

  lemma StartSafe<T>(adj: Deps, stages: seq<seq<Node>>, cap: nat, base: seq<Id>, ids: seq<Id>,
                     outcome: Id -> Outcome<T>,
                     s: Exec<T>)
    requires Tracks(base, ids, outcome, s) && SafeTrace(adj, stages, cap, s.trace)
    requires s.next < |ids| && |s.running| < cap && Supported(adj, base, ids)
    ensures SafeTrace(adj, stages, cap, StartNext(ids, s).trace) && |StartNext(ids, s).running| <= cap
  {
    AppendEvent(adj, stages, cap, s.trace, Started(ids[s.next]));
    assert DepsIn(adj, base, ids[s.next]);
    forall d | d in DepsOf(adj, ids[s.next]) ensures d in SettledIds(s.trace) {
      assert Fits(base, ids, outcome, s, d);
    }
  }

  lemma {:induction false} RefillKeeps<T>(adj: Deps, stages: seq<seq<Node>>, cap: nat, base: seq<Id>, ids: seq<Id>,
                                          outcome: Id -> Outcome<T>, s: Exec<T>)
    requires Tracks(base, ids, outcome, s) && SafeTrace(adj, stages, cap, s.trace) && |s.running| <= cap
    requires NoDup(base + ids) && Supported(adj, base, ids)
    ensures var r := Refill(ids, cap, s);
      && Tracks(base, ids, outcome, r) && SafeTrace(adj, stages, cap, r.trace)
      && |r.running| <= cap && (|r.running| == cap || r.next == |ids|)
    decreases |ids| - s.next
  {
    if |s.running| < cap && s.next < |ids| {
      StartTracks(base, ids, outcome, s);
      StartSafe(adj, stages, cap, base, ids, outcome, s);
      RefillKeeps(adj, stages, cap, base, ids, outcome, StartNext(ids, s));
    }
  }

  lemma SettleOneKeeps<T>(adj: Deps, stages: seq<seq<Node>>, cap: nat, base: seq<Id>, ids: seq<Id>,
                          outcome: Id -> Outcome<T>, s: Exec<T>, id: Id)
    requires Tracks(base, ids, outcome, s) && SafeTrace(adj, stages, cap, s.trace) && |s.running| <= cap
    requires id in s.running
    ensures var r := SettleOne(outcome, s, id);
      Tracks(base, ids, outcome, r) && SafeTrace(adj, stages, cap, r.trace) && |r.running| <= cap
  {
    AppendEvent(adj, stages, cap, s.trace, Settled(id));
    WithoutFacts(s.running, id);
    forall x ensures Fits(base, ids, outcome, SettleOne(outcome, s, id), x) {
      assert Fits(base, ids, outcome, s, x);
    }
  }

  lemma {:induction false} SettleAllKeeps<T>(adj: Deps, stages: seq<seq<Node>>, cap: nat, base: seq<Id>, ids: seq<Id>,
                                             outcome: Id -> Outcome<T>, s: Exec<T>, order: seq<Id>)
    requires Tracks(base, ids, outcome, s) && SafeTrace(adj, stages, cap, s.trace) && |s.running| <= cap
    requires NoDup(order) && forall x :: x in order ==> x in s.running
    ensures var r := SettleAll(outcome, s, order);
      Tracks(base, ids, outcome, r) && SafeTrace(adj, stages, cap, r.trace) && |r.running| <= cap
  {
    if order != [] {
      var m := |order| - 1;
      SettleAllKeeps(adj, stages, cap, base, ids, outcome, s, order[..m]);
      SettleShrinks(outcome, s, order[..m], order[m]);
      SettleOneKeeps(adj, stages, cap, base, ids, outcome, SettleAll(outcome, s, order[..m]), order[m]);
    }
  }

  lemma ParkKeeps<T>(adj: Deps, stages: seq<seq<Node>>, cap: nat, base: seq<Id>, ids: seq<Id>,
                     outcome: Id -> Outcome<T>, s: Exec<T>, k: nat)
    requires Tracks(base, ids, outcome, s) && SafeTrace(adj, stages, cap, s.trace) && |s.running| <= cap
    requires |s.running| == cap || s.next == |ids|
    requires k < |stages| && FlatIds(stages[..k + 1]) == base + ids
    ensures Tracks(base, ids, outcome, Park(s)) && SafeTrace(adj, stages, cap, Park(s).trace)
  {
    if s.next == |ids| { assert ids[..s.next] == ids; }
    AppendEvent(adj, stages, cap, s.trace, Parked);
    forall x ensures Fits(base, ids, outcome, Park(s), x) {
      assert Fits(base, ids, outcome, s, x);
    }
  }

  /** What an await brings about, when it does not throw: a batch settles, and the window is refilled. */
  lemma TurnKeeps<T>(adj: Deps, stages: seq<seq<Node>>, k: nat, cap: nat, base: seq<Id>, ids: seq<Id>,
                     outcome: Id -> Outcome<T>, s: Exec<T>, b: Batch)
    requires Tracks(base, ids, outcome, s) && SafeTrace(adj, stages, cap, s.trace) && |s.running| <= cap
    requires |s.running| == cap || s.next == |ids|
    requires k < |stages| && FlatIds(stages[..k + 1]) == base + ids
    requires NoDup(base + ids) && Supported(adj, base, ids) && ValidBatch(b, s.running)
    ensures var s' := SettleAll(outcome, Park(s), b.settled);
      && SafeTrace(adj, stages, cap, s'.trace) && Tracks(base, ids, outcome, s')
      && var r := Refill(ids, cap, s');
         && Tracks(base, ids, outcome, r) && SafeTrace(adj, stages, cap, r.trace)
         && |r.running| <= cap && (|r.running| == cap || r.next == |ids|)
    ensures b.winner in ids
  {
    assert Fits(base, ids, outcome, s, b.winner);
    ParkKeeps(adj, stages, cap, base, ids, outcome, s, k);
    SettleAllKeeps(adj, stages, cap, base, ids, outcome, Park(s), b.settled);
    RefillKeeps(adj, stages, cap, base, ids, outcome, SettleAll(outcome, Park(s), b.settled));
  }

  lemma {:induction false} AwaitLoopKeeps<T>(adj: Deps, stages: seq<seq<Node>>, k: nat, cap: nat, base: seq<Id>,
                                             ids: seq<Id>, outcome: Id -> Outcome<T>, choose: Exec<T> -> Batch,
                                             s: Exec<T>)
    requires cap >= 1 && Tracks(base, ids, outcome, s) && SafeTrace(adj, stages, cap, s.trace)
    requires |s.running| <= cap && (|s.running| == cap || s.next == |ids|)
    requires k < |stages| && FlatIds(stages[..k + 1]) == base + ids
    requires NoDup(base + ids) && Supported(adj, base, ids)
    ensures var end := AwaitLoop(ids, cap, outcome, choose, s);
      && SafeTrace(adj, stages, cap, end.s.trace) && Tracks(base, ids, outcome, end.s)
      && (end.Finished? ==> end.s.running == [] && end.s.next == |ids|)
      && (end.Threw? ==> outcome(end.id).Error? && end.id in ids)
    decreases |s.running| + |ids| - s.next
  {
    if s.running != [] {
      var p := Park(s);
      var b := Pick(choose, p);
      TurnKeeps(adj, stages, k, cap, base, ids, outcome, s, b);
      SettleShrinks(outcome, p, b.settled, b.winner);
      var s' := SettleAll(outcome, p, b.settled);
      if outcome(b.winner).Value? {
        RefillKeepsTotal(ids, cap, s');
        AwaitLoopKeeps(adj, stages, k, cap, base, ids, outcome, choose, Refill(ids, cap, s'));
      }
    }
  }

  // ---- The whole run ----

  datatype RunEnd<T> = Completed(results: map<Id, T>, trace: seq<Event>) | Failed(id: Id, trace: seq<Event>)

  /** The stage loop of run, from stage k on. */
  function RunFrom<T>(stages: seq<seq<Node>>, k: nat, cap: nat, outcome: Id -> Outcome<T>, choose: Exec<T> -> Batch,
                      all: map<Id, T>, trace: seq<Event>): RunEnd<T>
    requires k <= |stages|
    decreases |stages| - k
  {
    if k == |stages| then Completed(all, trace)
    else
      var ids := StageIds(stages[k]);
      RefillKeepsTotal(ids, cap, Fresh<T>(trace));
      match AwaitLoop(ids, cap, outcome, choose, Refill(ids, cap, Fresh<T>(trace)))
      case Threw(s, id) => Failed(id, s.trace)
      case Finished(s) => RunFrom(stages, k + 1, cap, outcome, choose, all + s.results, s.trace)
  }

  function Fresh<T>(trace: seq<Event>): Exec<T> {
    Exec(0, [], map[], trace)
  }

  function RunSpec<T>(stages: seq<seq<Node>>, cap: nat, outcome: Id -> Outcome<T>, choose: Exec<T> -> Batch): RunEnd<T>
  {
    RunFrom(stages, 0, cap, outcome, choose, map[], [])
  }

  /** Between stages: all earlier stages have been started and have settled, and nothing runs. */
  ghost predicate Between<T>(adj: Deps, stages: seq<seq<Node>>, k: nat, cap: nat, outcome: Id -> Outcome<T>,
                             all: map<Id, T>, trace: seq<Event>)
    requires k <= |stages|
  {
    var base := FlatIds(stages[..k]);
    && SafeTrace(adj, stages, cap, trace)
    && StartedIds(trace) == base && RunningAfter(trace) == []
    && (forall x :: x in SettledIds(trace) <==> x in base)
    && (forall x :: x in all <==> x in base && outcome(x).Value?)
    && (forall x :: x in all ==> all[x] == outcome(x).value)
  }

  lemma BeginStage<T>(adj: Deps, stages: seq<seq<Node>>, k: nat, cap: nat, outcome: Id -> Outcome<T>, all: map<Id, T>,
                      trace: seq<Event>)
    requires k < |stages| && Between(adj, stages, k, cap, outcome, all, trace)
    ensures Tracks(FlatIds(stages[..k]), StageIds(stages[k]), outcome, Fresh(trace))
  {
    forall x ensures Fits(FlatIds(stages[..k]), StageIds(stages[k]), outcome, Fresh(trace), x) {}
  }

  lemma EndStage<T>(adj: Deps, stages: seq<seq<Node>>, k: nat, cap: nat, outcome: Id -> Outcome<T>, all: map<Id, T>,
                    trace: seq<Event>, s: Exec<T>)
    requires k < |stages| && Between(adj, stages, k, cap, outcome, all, trace)
    requires FlatIds(stages[..k + 1]) == FlatIds(stages[..k]) + StageIds(stages[k])
    requires Tracks(FlatIds(stages[..k]), StageIds(stages[k]), outcome, s) && SafeTrace(adj, stages, cap, s.trace)
    requires s.running == [] && s.next == |StageIds(stages[k])|
    ensures Between(adj, stages, k + 1, cap, outcome, all + s.results, s.trace)
  {
    assert StageIds(stages[k])[..s.next] == StageIds(stages[k]);
    forall x
      ensures x in SettledIds(s.trace) <==> x in FlatIds(stages[..k + 1])
      ensures x in all + s.results <==> x in FlatIds(stages[..k + 1]) && outcome(x).Value?
      ensures x in all + s.results ==> (all + s.results)[x] == outcome(x).value
    {
      assert Fits(FlatIds(stages[..k]), StageIds(stages[k]), outcome, s, x);
    }
  }

  lemma {:induction false} RunFromKeeps<T>(adj: Deps, stages: seq<seq<Node>>, k: nat, cap: nat,
                                           outcome: Id -> Outcome<T>,
                                           choose: Exec<T> -> Batch, all: map<Id, T>, trace: seq<Event>)
    requires cap >= 1 && Layered(adj, stages) && k <= |stages|
    requires Between(adj, stages, k, cap, outcome, all, trace)
    ensures var end := RunFrom(stages, k, cap, outcome, choose, all, trace);
      && SafeTrace(adj, stages, cap, end.trace)
      && (end.Failed? ==> outcome(end.id).Error? && end.id in FlatIds(stages))
      && (end.Completed? ==> Between(adj, stages, |stages|, cap, outcome, end.results, end.trace))
    decreases |stages| - k
  {
    if k < |stages| {
      var base, ids, s0 := FlatIds(stages[..k]), StageIds(stages[k]), Fresh<T>(trace);
      StageDeps(adj, stages, k);
      assert Supported(adj, base, ids);
      FlatPrefixNoDup(stages, k + 1);
      BeginStage(adj, stages, k, cap, outcome, all, trace);
      RefillKeepsTotal(ids, cap, s0);
      RefillKeeps(adj, stages, cap, base, ids, outcome, s0);
      AwaitLoopKeeps(adj, stages, k, cap, base, ids, outcome, choose, Refill(ids, cap, s0));
      match AwaitLoop(ids, cap, outcome, choose, Refill(ids, cap, s0))
      case Threw(s, id) =>
        assert InStage(stages, k, id);
        FlatMembers(stages, id);
      case Finished(s) =>
        EndStage(adj, stages, k, cap, outcome, all, trace, s);
        RunFromKeeps(adj, stages, k + 1, cap, outcome, choose, all + s.results, s.trace);
    }
  }

  /** Every completion order keeps the trace safe. A run that throws names a failed node. A run that completes
      has started each node exactly once, in stage order, and its results are exactly those of the nodes
      that did not fail. */
  lemma RunIsSafe<T>(nodes: seq<Node>, stages: seq<seq<Node>>, cap: nat, outcome: Id -> Outcome<T>,
                     choose: Exec<T> -> Batch)
    requires cap >= 1 && IsStaging(nodes, stages)
    ensures var end := RunSpec(stages, cap, outcome, choose);
      && SafeTrace(DepMap(nodes), stages, cap, end.trace)
      && (end.Failed? ==> outcome(end.id).Error? && end.id in Ids(nodes))
      && (end.Completed? ==>
            && StartedIds(end.trace) == FlatIds(stages) && NoDup(StartedIds(end.trace))
            && SettledIds(end.trace) == Ids(nodes) && RunningAfter(end.trace) == []
            && end.results == map x | x in Ids(nodes) && outcome(x).Value? :: outcome(x).value)
  {
    assert FlatIds(stages[..0]) == [];
    RunFromKeeps(DepMap(nodes), stages, 0, cap, outcome, choose, map[], []);
    assert stages[..|stages|] == stages;
  }

  // ---- Nothing settles unawaited ----

  /** Nodes settle only at a race: right after the scheduler has parked, or after others settling at the same race. */
  ghost predicate SettlesAtRaces(trace: seq<Event>) {
    forall i :: 0 <= i < |trace| && trace[i].Settled? ==> i > 0 && !trace[i - 1].Started?
  }

  /** The latest event is that a race began, or that a node settled at it. */
  ghost predicate AtRace(trace: seq<Event>) {
    SettlesAtRaces(trace) && trace != [] && !trace[|trace| - 1].Started?
  }

  lemma {:induction false} RefillAtRaces<T>(ids: seq<Id>, cap: nat, s: Exec<T>)
    requires SettlesAtRaces(s.trace)
    ensures SettlesAtRaces(Refill(ids, cap, s).trace)
    decreases |ids| - s.next
  {
    if |s.running| < cap && s.next < |ids| {
      RefillAtRaces(ids, cap, StartNext(ids, s));
    }
  }

  lemma {:induction false} SettleAtRaces<T>(outcome: Id -> Outcome<T>, s: Exec<T>, order: seq<Id>)
    requires AtRace(s.trace)
    ensures AtRace(SettleAll(outcome, s, order).trace)
  {
    if order != [] {
      SettleAtRaces(outcome, s, order[..|order| - 1]);
    }
  }

  lemma {:induction false} LoopAtRaces<T>(ids: seq<Id>, cap: nat, outcome: Id -> Outcome<T>, choose: Exec<T> -> Batch,
                                          s: Exec<T>)
    requires s.next <= |ids| && SettlesAtRaces(s.trace)
    ensures SettlesAtRaces(AwaitLoop(ids, cap, outcome, choose, s).s.trace)
    decreases |s.running| + |ids| - s.next
  {
    if s.running != [] {
      var b := Pick(choose, Park(s));
      var s' := SettleAll(outcome, Park(s), b.settled);
      SettleShrinks(outcome, Park(s), b.settled, b.winner);
      assert AtRace(Park(s).trace);
      SettleAtRaces(outcome, Park(s), b.settled);
      if outcome(b.winner).Value? {
        RefillKeepsTotal(ids, cap, s');
        RefillAtRaces(ids, cap, s');
        LoopAtRaces(ids, cap, outcome, choose, Refill(ids, cap, s'));
      }
    }
  }

  lemma {:induction false} RunFromAtRaces<T>(stages: seq<seq<Node>>, k: nat, cap: nat, outcome: Id -> Outcome<T>,
                                             choose: Exec<T> -> Batch, all: map<Id, T>, trace: seq<Event>)
    requires k <= |stages| && SettlesAtRaces(trace)
    ensures SettlesAtRaces(RunFrom(stages, k, cap, outcome, choose, all, trace).trace)
    decreases |stages| - k
  {
    if k < |stages| {
      var ids, s0 := StageIds(stages[k]), Fresh<T>(trace);
      RefillKeepsTotal(ids, cap, s0);
      RefillAtRaces(ids, cap, s0);
      LoopAtRaces(ids, cap, outcome, choose, Refill(ids, cap, s0));
      match AwaitLoop(ids, cap, outcome, choose, Refill(ids, cap, s0))
      case Threw(_, _) =>
      case Finished(s) => RunFromAtRaces(stages, k + 1, cap, outcome, choose, all + s.results, s.trace);
    }
  }

  lemma {:induction false} RaceOf(trace: seq<Event>, i: nat) returns (j: nat)
    requires SettlesAtRaces(trace) && i < |trace| && trace[i].Settled?
    ensures j < i && trace[j].Parked? && forall m :: j < m <= i ==> trace[m].Settled?
  {
    if trace[i - 1].Parked? {
      j := i - 1;
    } else {
      j := RaceOf(trace, i - 1);
    }
  }

  /** In every run, for every moment at which a node settles: at the start of its race the window was full or the stage
      started entirely, and nothing has been started since. */
  lemma RacesAreFull<T>(nodes: seq<Node>, stages: seq<seq<Node>>, cap: nat, outcome: Id -> Outcome<T>,
                        choose: Exec<T> -> Batch, trace: seq<Event>, i: nat) returns (j: nat)
    requires cap >= 1 && IsStaging(nodes, stages)
    requires trace == RunSpec(stages, cap, outcome, choose).trace && i < |trace| && trace[i].Settled?
    ensures j < i && trace[j].Parked? && (forall m :: j < m <= i ==> trace[m].Settled?)
    ensures |RunningAfter(trace[..j])| == cap || StartedAStage(stages, trace[..j])
  {
    RunFromAtRaces(stages, 0, cap, outcome, choose, map[], []);
    j := RaceOf(trace, i);
    assert SafeTrace(DepMap(nodes), stages, cap, trace) by {
      RunIsSafe(nodes, stages, cap, outcome, choose);
    }
    SafeAt(DepMap(nodes), stages, cap, trace, j);
  }

  /** Without failures every run completes, and with a result for every node. */
  lemma RunWithoutFailures<T>(nodes: seq<Node>, stages: seq<seq<Node>>, cap: nat, outcome: Id -> Outcome<T>,
                              choose: Exec<T> -> Batch)
    requires cap >= 1 && IsStaging(nodes, stages)
    requires forall x :: x in Ids(nodes) ==> outcome(x).Value?
    ensures var end := RunSpec(stages, cap, outcome, choose);
      && end.Completed? && end.results.Keys == Ids(nodes)
      && forall x :: x in Ids(nodes) ==> end.results[x] == outcome(x).value
  {
    RunIsSafe(nodes, stages, cap, outcome, choose);
  }

  /** A completed run has a result for every node if and only if no node failed. */
  lemma CompleteResults<T>(nodes: seq<Node>, stages: seq<seq<Node>>, cap: nat, outcome: Id -> Outcome<T>,
                           choose: Exec<T> -> Batch)
    requires cap >= 1 && IsStaging(nodes, stages) && RunSpec(stages, cap, outcome, choose).Completed?
    ensures RunSpec(stages, cap, outcome, choose).results.Keys == Ids(nodes)
      <==> forall x :: x in Ids(nodes) ==> outcome(x).Value?
  {
    RunIsSafe(nodes, stages, cap, outcome, choose);
  }

  /** The documented promise that a failed node makes the run throw does not hold: when b fails while the
      await on a is still to resume, b has already left the running set, no later race sees it, and the run
      completes without b. */
  lemma FailureSwallowed(a: Id, b: Id)
    requires a != b
    ensures var stages := [[Node(a, []), Node(b, [])]];
      var outcome := (id: Id) => if id == a then Value(1) else Error;
      var choose := (s: Exec<int>) => Batch([a, b], a);
      && IsStaging(stages[0], stages)
      && RunSpec(stages, 2, outcome, choose).Completed?
      && RunSpec(stages, 2, outcome, choose).results == map[a := 1]
  {
    var stage := [Node(a, []), Node(b, [])];
    var stages := [stage];
    var outcome := (id: Id) => if id == a then Value(1) else Error;
    var choose := (s: Exec<int>) => Batch([a, b], a);
    PairStaging(stage, a, b);
    var s := PairStarted(a, b);
    assert StageIds(stage) == [a, b];
    var t := PairSettled(a, b, outcome);
    assert Pick(choose, Park(s)) == Batch([a, b], a);
    assert Refill([a, b], 2, t) == t;
    assert AwaitLoop([a, b], 2, outcome, choose, t) == Finished(t);
    assert AwaitLoop([a, b], 2, outcome, choose, s) == Finished(t);
    assert RunFrom(stages, 1, 2, outcome, choose, map[] + t.results, t.trace) == Completed(map[] + t.results, t.trace);
  }

  lemma PairStarted(a: Id, b: Id) returns (s: Exec<int>)
    ensures s == Refill([a, b], 2, Fresh<int>([])) && s == Exec(2, [a, b], map[], [Started(a), Started(b)])
  {
    var s0 := Fresh<int>([]);
    var s1: Exec<int> := Exec(1, [a], map[], [Started(a)]);
    s := Exec(2, [a, b], map[], [Started(a), Started(b)]);
    assert s0.running + [a] == [a] && s0.trace + [Started(a)] == [Started(a)];
    assert s1.running + [b] == [a, b] && s1.trace + [Started(b)] == [Started(a), Started(b)];
    assert Refill([a, b], 2, s1) == s;
  }

  lemma PairSettled(a: Id, b: Id, outcome: Id -> Outcome<int>) returns (t: Exec<int>)
    requires a != b && outcome(a) == Value(1) && outcome(b).Error?
    ensures t == SettleAll(outcome, Park(Exec(2, [a, b], map[], [Started(a), Started(b)])), [a, b])
    ensures t.next == 2 && t.running == [] && t.results == map[a := 1]
  {
    var s: Exec<int> := Exec(2, [a, b], map[], [Started(a), Started(b)]);
    var p := Park(s);
    var t1 := SettleOne(outcome, p, a);
    assert [a, b][..1] == [a] && [a][..0] == [];
    assert SettleAll(outcome, p, [a]) == t1;
    WithoutFacts([a, b], a);
    WithoutFacts(t1.running, b);
    t := SettleOne(outcome, t1, b);
    assert |t.running| == 0;
  }

  lemma PairStaging(stage: seq<Node>, a: Id, b: Id)
    requires a != b && stage == [Node(a, []), Node(b, [])]
    ensures IsStaging(stage, [stage])
  {
    var adj, stages := DepMap(stage), [stage];
    PairFlat(stage, a, b);
    PairIds(stage, a, b);
    PairDeps(stage, a, b);
    forall k: nat, id {:trigger InStage(stages, k, id)} | InStage(stages, k, id)
      ensures WellPlaced(adj, stages, k, id)
    {
      assert k == 0 && id in ToSet([a, b]);
    }
    assert stages[..0] == [] && AllAmong(stage, []) && Among(stage, stages[0]);
  }

  lemma PairFlat(stage: seq<Node>, a: Id, b: Id)
    requires a != b && stage == [Node(a, []), Node(b, [])]
    ensures StageIds(stage) == [a, b] && FlatIds([stage]) == [a, b] && NoDup([a, b])
  {
    assert StageIds(stage) == [a, b];
    FlatOne(stage);
    TwoNoDup([a, b]);
  }

  lemma TwoNoDup(s: seq<Id>)
    requires |s| == 2 && s[0] != s[1]
    ensures NoDup(s)
  {
  }

  lemma FlatOne(stage: seq<Node>)
    ensures FlatIds([stage]) == StageIds(stage)
  {
    assert [stage][..0] == [];
    assert [] + StageIds(stage) == StageIds(stage);
  }

  lemma PairIds(stage: seq<Node>, a: Id, b: Id)
    requires stage == [Node(a, []), Node(b, [])]
    ensures Ids(stage) == {a, b} && ToSet([a, b]) == {a, b}
  {
    assert stage[0].id in Ids(stage) && stage[1].id in Ids(stage);
  }

  lemma PairDeps(stage: seq<Node>, a: Id, b: Id)
    requires a != b && stage == [Node(a, []), Node(b, [])]
    ensures DepsOf(DepMap(stage), a) == [] && DepsOf(DepMap(stage), b) == []
  {
    DepMapIsLastWins(stage, 0);
    DepMapIsLastWins(stage, 1);
  }

  // ---- The imperative form ----

  /** The whole of one stage, after what has happened so far. */
  function StageRun<T>(ids: seq<Id>, cap: nat, outcome: Id -> Outcome<T>, choose: Exec<T> -> Batch, trace0: seq<Event>)
    : StageEnd<T>
  {
    RefillKeepsTotal(ids, cap, Fresh<T>(trace0));
    AwaitLoop(ids, cap, outcome, choose, Refill(ids, cap, Fresh<T>(trace0)))
  }

  /** executeStage: fill the window, race, refill, until nothing runs. */
  method ExecuteStage<T>(ids: seq<Id>, cap: nat, outcome: Id -> Outcome<T>, choose: Exec<T> -> Batch,
                         trace0: seq<Event>)
    returns (end: StageEnd<T>)
    ensures end == StageRun(ids, cap, outcome, choose, trace0)
  {
    var s := Fresh<T>(trace0);
    RefillKeepsTotal(ids, cap, s);
    s := TryStartNext(ids, cap, s);
    while s.running != []
      invariant s.next <= |ids|
      invariant StageRun(ids, cap, outcome, choose, trace0) == AwaitLoop(ids, cap, outcome, choose, s)
      decreases |s.running| + |ids| - s.next
    {
      var p := Park(s);
      var b := Pick(choose, p);
      SettleShrinks(outcome, p, b.settled, b.winner);
      var s' := SettleBatch(outcome, p, b.settled);
      if outcome(b.winner).Error? { return Threw(s', b.winner); }
      RefillKeepsTotal(ids, cap, s');
      s := TryStartNext(ids, cap, s');
    }
    return Finished(s);
  }

  /** What the settling tasks do to the shared variables before the await resumes. */
  method SettleBatch<T>(outcome: Id -> Outcome<T>, s: Exec<T>, order: seq<Id>) returns (s': Exec<T>)
    ensures s' == SettleAll(outcome, s, order)
  {
    s' := s;
    for i := 0 to |order|
      invariant s' == SettleAll(outcome, s, order[..i])
    {
      assert order[..i + 1][..i] == order[..i];
      s' := SettleOne(outcome, s', order[i]);
    }
    assert order[..|order|] == order;
  }

  method TryStartNext<T>(ids: seq<Id>, cap: nat, s: Exec<T>) returns (s': Exec<T>)
    requires s.next <= |ids|
    ensures s' == Refill(ids, cap, s)
  {
    s' := s;
    while |s'.running| < cap && s'.next < |ids|
      invariant s'.next <= |ids| && Refill(ids, cap, s) == Refill(ids, cap, s')
      decreases |ids| - s'.next
    {
      s' := StartNext(ids, s');
    }
  }

  datatype RunResult<T> = Ran(end: RunEnd<T>, stages: seq<seq<Node>>) | NoStages(why: StageResult) | BadParallelism

  /** The constructor's check and run: it reaches the stage loop exactly when the parallelism is at least 1
      and the graph is a proper DAG. */
  method Run<T>(nodes: seq<Node>, maxParallelism: int, outcome: Id -> Outcome<T>, choose: Exec<T> -> Batch)
    returns (r: RunResult<T>)
    ensures r.BadParallelism? <==> maxParallelism < 1
    ensures r.Ran? <==> maxParallelism >= 1 && UniqueIds(nodes) && DepsKnown(nodes) && !Cyclic(DepMap(nodes))
    ensures r.Ran? ==> IsStaging(nodes, r.stages) && r.end == RunSpec(r.stages, maxParallelism, outcome, choose)
  {
    if maxParallelism < 1 { return BadParallelism; }
    var staged := Kahn.ComputeStages(nodes);
    if !staged.Stages? { return NoStages(staged); }
    var stages, all, trace := staged.stages, map[], [];
    var k := 0;
    while k < |stages|
      invariant 0 <= k <= |stages|
      invariant RunSpec(stages, maxParallelism, outcome, choose)
        == RunFrom(stages, k, maxParallelism, outcome, choose, all, trace)
    {
      var end := ExecuteStage(StageIds(stages[k]), maxParallelism, outcome, choose, trace);
      match end {
        case Threw(s, id) => return Ran(Failed(id, s.trace), stages);
        case Finished(s) =>
          all, trace := all + s.results, s.trace;
      }
      k := k + 1;
    }
    return Ran(Completed(all, trace), stages);
  }
}
