/** The orchestrator: stages run one after the other; within a stage all nodes run at once, each with retries, and then
    every gated result is checked and retried. */
module Orchestrator {
  import opened Options
  import opened Dag
  import opened Stages
  import opened StageTasks
  import Kahn

  // ---- Stages ----

  datatype Stored = Stored(id: Id, content: string)

  datatype Detail = Detail(ids: seq<Id>, tally: Tally)

  /** What a stage comes to: the entries it adds, or the first of its nodes whose every attempt failed. */
  datatype StageEnd = StageDone(entries: seq<Stored>, detail: Detail) | StageFailed(id: Id)

  /** A node's own content, the gated one, and all its retries. */
  ghost predicate NodeEnds(env: Env, cap: int, e: Stored, t: Tally) {
    var own := ContentOf(env, e.id, cap);
    && own.Some?
    && var end := GateEnd(env, e.id, cap, own.value);
      e.content == end.content && t == end.tally.(retries := end.tally.retries + ExecRetries(env, e.id, cap))
  }

  ghost predicate AllEnd(env: Env, cap: int, entries: seq<Stored>, tallies: seq<Tally>) {
    && |entries| == |tallies|
    && forall i {:trigger NodeEnds(env, cap, entries[i], tallies[i])} ::
         0 <= i < |entries| ==> NodeEnds(env, cap, entries[i], tallies[i])
  }

  /** The tally is the sum over these nodes. */
  ghost predicate Booked(env: Env, cap: int, entries: seq<Stored>, tally: Tally) {
    exists tallies :: AllEnd(env, cap, entries, tallies) && tally == Total(tallies)
  }

  function EntryIds(entries: seq<Stored>): (r: seq<Id>)
    ensures |r| == |entries|
  {
    seq(|entries|, i requires 0 <= i < |entries| => entries[i].id)
  }

  ghost predicate StageIs(env: Env, cap: int, ids: seq<Id>, end: StageEnd) {
    match end
    case StageDone(entries, detail) =>
      && EntryIds(entries) == ids && detail.ids == ids
      && Booked(env, cap, entries, detail.tally)
    case StageFailed(id) => exists k :: 0 <= k < |ids| && ids[k] == id && FirstFailure(env, cap, ids, k)
  }

  ghost predicate FirstFailure(env: Env, cap: int, ids: seq<Id>, k: nat)
    requires k < |ids|
  {
    ContentOf(env, ids[k], cap).None? && forall j :: 0 <= j < k ==> ContentOf(env, ids[j], cap).Some?
  }

  ghost function WithRetries(tallies: seq<Tally>, spent: seq<nat>): (r: seq<Tally>)
    requires |tallies| == |spent|
    ensures |r| == |tallies|
  {
    seq(|tallies|, i requires 0 <= i < |tallies| => tallies[i].(retries := tallies[i].retries + spent[i]))
  }

  lemma {:induction false} RetriesAdd(tallies: seq<Tally>, spent: seq<nat>)
    requires |tallies| == |spent|
    ensures Total(WithRetries(tallies, spent)) == Total(tallies).(retries := Total(tallies).retries + Sum(spent))
  {
    if tallies != [] {
      var n := |tallies| - 1;
      RetriesAdd(tallies[..n], spent[..n]);
      assert WithRetries(tallies, spent)[..n] == WithRetries(tallies[..n], spent[..n]);
    }
  }

  method RunStage(env: Env, cap: int, ids: seq<Id>) returns (end: StageEnd)
    ensures StageIs(env, cap, ids, end)
  {
    var outcomes, retries := ExecuteNodes(env, ids, cap);
    var contents: seq<string> := [];
    for i := 0 to |ids|
      invariant |contents| == i
      invariant forall j :: 0 <= j < i ==> ContentOf(env, ids[j], cap) == Some(contents[j])
    {
      assert outcomes[i] == ContentOf(env, ids[i], cap);
      if outcomes[i].None? {
        assert FirstFailure(env, cap, ids, i);
        return StageFailed(ids[i]);
      }
      contents := contents + [outcomes[i].value];
    }
    var stored, tally := RunGates(env, ids, cap, contents);
    var entries := seq(|ids|, i requires 0 <= i < |ids| => Stored(ids[i], stored[i]));
    ghost var all := WithRetries(GateTallies(env, ids, cap, contents), Spent(env, ids, cap));
    RetriesAdd(GateTallies(env, ids, cap, contents), Spent(env, ids, cap));
    forall i | 0 <= i < |ids| ensures NodeEnds(env, cap, entries[i], all[i]) {}
    assert AllEnd(env, cap, entries, all) && EntryIds(entries) == ids;
    return StageDone(entries, Detail(ids, tally.(retries := tally.retries + retries)));
  }

  // ---- Accounting ----

  function Gates(env: Env, entries: seq<Stored>): nat {
    if entries == [] then 0
    else Gates(env, entries[..|entries| - 1]) + if env.hasGate(entries[|entries| - 1].id) then 1 else 0
  }

  predicate PassesGate(env: Env, e: Stored) {
    env.hasGate(e.id) && env.passes(e.id, e.content)
  }

  function Passing(env: Env, entries: seq<Stored>): nat {
    if entries == [] then 0
    else Passing(env, entries[..|entries| - 1]) + if PassesGate(env, entries[|entries| - 1]) then 1 else 0
  }

  lemma NodeAccount(env: Env, cap: int, e: Stored, t: Tally)
    requires NodeEnds(env, cap, e, t)
    ensures t.passed == (if PassesGate(env, e) then 1 else 0)
    ensures t.passed + t.failed == (if env.hasGate(e.id) then 1 else 0)
    ensures t.retries <= AtLeastZero(cap) + (if env.hasGate(e.id) then AtLeastZero(cap) else 0)
  {
  }

  lemma {:induction false} GatesCounted(env: Env, cap: int, entries: seq<Stored>, tallies: seq<Tally>)
    requires AllEnd(env, cap, entries, tallies)
    ensures Total(tallies).passed + Total(tallies).failed == Gates(env, entries)
    ensures Total(tallies).passed == Passing(env, entries)
  {
    if entries != [] {
      var n := |entries| - 1;
      FrontEnds(env, cap, entries, tallies);
      GatesCounted(env, cap, entries[..n], tallies[..n]);
      NodeAccount(env, cap, entries[n], tallies[n]);
    }
  }

  lemma FrontEnds(env: Env, cap: int, entries: seq<Stored>, tallies: seq<Tally>)
    requires AllEnd(env, cap, entries, tallies) && entries != []
    ensures AllEnd(env, cap, entries[..|entries| - 1], tallies[..|tallies| - 1])
    ensures NodeEnds(env, cap, entries[|entries| - 1], tallies[|tallies| - 1])
  {
    assert forall i :: 0 <= i < |entries| ==> NodeEnds(env, cap, entries[i], tallies[i]);
  }

  function Allowance(env: Env, entries: seq<Stored>, c: nat): nat {
    if entries == [] then 0
    else Allowance(env, entries[..|entries| - 1], c) + c + if env.hasGate(entries[|entries| - 1].id) then c else 0
  }

  lemma {:induction false} AllowanceIs(env: Env, entries: seq<Stored>, c: nat)
    ensures Allowance(env, entries, c) == |entries| * c + Gates(env, entries) * c
  {
    if entries != [] {
      var n := |entries| - 1;
      var front, gated := entries[..n], if env.hasGate(entries[n].id) then 1 else 0;
      AllowanceIs(env, front, c);
      Distribute(n, 1, c);
      Distribute(Gates(env, front), gated, c);
    }
  }

  lemma Distribute(a: nat, b: nat, c: nat)
    ensures (a + b) * c == a * c + b * c
  {
  }

  lemma {:induction false} RetriesBounded(env: Env, cap: int, entries: seq<Stored>, tallies: seq<Tally>)
    requires AllEnd(env, cap, entries, tallies)
    ensures Total(tallies).retries <= Allowance(env, entries, AtLeastZero(cap))
  {
    if entries != [] {
      var n := |entries| - 1;
      FrontEnds(env, cap, entries, tallies);
      RetriesBounded(env, cap, entries[..n], tallies[..n]);
      NodeAccount(env, cap, entries[n], tallies[n]);
    }
  }

  /** The books of a stage balance: gates passed and failed are the gated nodes, those passed are exactly the nodes
      whose stored content passes its gate, and retries are at most cap for every node and cap more for every gated
      one. */
  lemma StageAccount(env: Env, cap: int, entries: seq<Stored>, tallies: seq<Tally>)
    requires AllEnd(env, cap, entries, tallies)
    ensures Total(tallies).passed + Total(tallies).failed == Gates(env, entries)
    ensures Total(tallies).passed == Passing(env, entries)
    ensures Total(tallies).retries <= |entries| * AtLeastZero(cap) + Gates(env, entries) * AtLeastZero(cap)
  {
    GatesCounted(env, cap, entries, tallies);
    RetriesBounded(env, cap, entries, tallies);
    AllowanceIs(env, entries, AtLeastZero(cap));
  }

  // ---- The whole run ----

  datatype Outcome =
    | Finished(entries: seq<Stored>, tally: Tally, details: seq<Detail>)
    | NodeFailed(id: Id)
    | NotStaged(r: StageResult)

  function Tallies(details: seq<Detail>): (r: seq<Tally>)
    ensures |r| == |details|
  {
    seq(|details|, i requires 0 <= i < |details| => details[i].tally)
  }

  /** After some stages: the entries so far end every node placed in them, in the order of the stages. */
  ghost predicate After(env: Env, cap: int, stages: seq<seq<Node>>, entries: seq<Stored>, tally: Tally,
                        details: seq<Detail>)
  {
    && EntryIds(entries) == FlatIds(stages)
    && Booked(env, cap, entries, tally)
    && tally == Total(Tallies(details)) && AllDetailed(env, cap, stages, entries, details)
  }

  /** Where the entries of stage k begin, and those of stage k - 1 end. */
  function Offset(stages: seq<seq<Node>>, k: nat): nat
    requires k <= |stages|
  {
    if k == 0 then 0 else Offset(stages, k - 1) + |stages[k - 1]|
  }

  /** Detail k is the report of stage k on its own part of the entries. */
  ghost predicate DetailIs(env: Env, cap: int, stages: seq<seq<Node>>, entries: seq<Stored>, details: seq<Detail>,
                           k: nat)
    requires k < |stages| && |details| == |stages|
  {
    var from, to := Offset(stages, k), Offset(stages, k + 1);
    from <= to <= |entries| && StageIs(env, cap, StageIds(stages[k]), StageDone(entries[from..to], details[k]))
  }

  ghost predicate AllDetailed(env: Env, cap: int, stages: seq<seq<Node>>, entries: seq<Stored>, details: seq<Detail>) {
    && |details| == |stages| && Offset(stages, |stages|) == |entries|
    && forall k :: 0 <= k < |stages| ==> DetailIs(env, cap, stages, entries, details, k)
  }

  lemma TotalLast(s: seq<Tally>, t: Tally)
    ensures Total(s + [t]) == Add(Total(s), t)
  {
    assert (s + [t])[..|s|] == s;
  }

  lemma ConcatLast<T>(a: seq<T>, b: seq<T>)
    requires b != []
    ensures a + b == (a + b[..|b| - 1]) + [b[|b| - 1]]
  {
  }

  lemma {:induction false} TotalConcat(a: seq<Tally>, b: seq<Tally>)
    ensures Total(a + b) == Add(Total(a), Total(b))
  {
    if b == [] {
      assert a + b == a;
    } else {
      ConcatLast(a, b);
      TotalConcat(a, b[..|b| - 1]);
      TotalLast(a + b[..|b| - 1], b[|b| - 1]);
    }
  }

  lemma StageAdds(env: Env, cap: int, stages: seq<seq<Node>>, entries: seq<Stored>, tally: Tally, details: seq<Detail>,
                  stage: seq<Node>, more: seq<Stored>, d: Detail)
    requires After(env, cap, stages, entries, tally, details) && StageIs(env, cap, StageIds(stage), StageDone(more, d))
    ensures After(env, cap, stages + [stage], entries + more, Add(tally, d.tally), details + [d])
  {
    BookedTogether(env, cap, entries, tally, more, d.tally);
    assert (stages + [stage])[..|stages|] == stages;
    assert EntryIds(entries + more) == EntryIds(entries) + EntryIds(more);
    DetailAdds(env, cap, stages, entries, details, stage, more, d);
    TalliesAdd(details, d);
  }

  lemma BookedTogether(env: Env, cap: int, a: seq<Stored>, t: Tally, b: seq<Stored>, u: Tally)
    requires Booked(env, cap, a, t) && Booked(env, cap, b, u)
    ensures Booked(env, cap, a + b, Add(t, u))
  {
    var ts :| AllEnd(env, cap, a, ts) && t == Total(ts);
    var us :| AllEnd(env, cap, b, us) && u == Total(us);
    TotalConcat(ts, us);
    BothEnd(env, cap, a, ts, b, us);
  }

  lemma TalliesAdd(details: seq<Detail>, d: Detail)
    ensures Total(Tallies(details + [d])) == Add(Total(Tallies(details)), d.tally)
  {
    assert Tallies(details + [d])[..|details|] == Tallies(details);
  }

  lemma {:induction false} OffsetStays(stages: seq<seq<Node>>, stage: seq<Node>, k: nat)
    requires k <= |stages|
    ensures Offset(stages + [stage], k) == Offset(stages, k) <= Offset(stages, |stages|)
  {
    if k > 0 {
      OffsetStays(stages, stage, k - 1);
    }
    OffsetGrows(stages, k, |stages|);
  }

  lemma {:induction false} OffsetGrows(stages: seq<seq<Node>>, j: nat, k: nat)
    requires j <= k <= |stages|
    ensures Offset(stages, j) <= Offset(stages, k)
  {
    if j < k {
      OffsetGrows(stages, j, k - 1);
    }
  }

  lemma DetailAdds(env: Env, cap: int, stages: seq<seq<Node>>, entries: seq<Stored>, details: seq<Detail>,
                   stage: seq<Node>, more: seq<Stored>, d: Detail)
    requires AllDetailed(env, cap, stages, entries, details)
    requires StageIs(env, cap, StageIds(stage), StageDone(more, d))
    ensures AllDetailed(env, cap, stages + [stage], entries + more, details + [d])
  {
    var n := |stages|;
    var stages', entries', details' := stages + [stage], entries + more, details + [d];
    OffsetStays(stages, stage, n);
    assert |more| == |EntryIds(more)| == |stage|;
    forall k | 0 <= k < n + 1 ensures DetailIs(env, cap, stages', entries', details', k) {
      if k < n {
        assert DetailIs(env, cap, stages, entries, details, k);
        OffsetStays(stages, stage, k);
        OffsetStays(stages, stage, k + 1);
        assert entries'[Offset(stages, k)..Offset(stages, k + 1)] == entries[Offset(stages, k)..Offset(stages, k + 1)];
      } else {
        assert entries'[|entries|..|entries| + |more|] == more;
      }
    }
  }

  lemma BothEnd(env: Env, cap: int, a: seq<Stored>, ts: seq<Tally>, b: seq<Stored>, us: seq<Tally>)
    requires AllEnd(env, cap, a, ts) && AllEnd(env, cap, b, us)
    ensures AllEnd(env, cap, a + b, ts + us)
  {
    forall i | 0 <= i < |a + b| ensures NodeEnds(env, cap, (a + b)[i], (ts + us)[i]) {
      assert i < |a| ==> NodeEnds(env, cap, a[i], ts[i]);
      assert i >= |a| ==> NodeEnds(env, cap, b[i - |a|], us[i - |a|]);
    }
  }

  lemma NothingYet(env: Env, cap: int)
    ensures After(env, cap, [], [], Tally(0, 0, 0), [])
  {
    assert AllEnd(env, cap, [], []);
  }

  /** The stages one after the other; the first node without a content ends the run. */
  method RunStages(env: Env, cap: int, stages: seq<seq<Node>>) returns (o: Outcome, ghost failedAt: nat)
    ensures !o.NotStaged?
    ensures o.Finished? ==> After(env, cap, stages, o.entries, o.tally, o.details)
    ensures o.NodeFailed? ==> failedAt < |stages| && StageIs(env, cap, StageIds(stages[failedAt]), StageFailed(o.id))
  {
    var entries: seq<Stored>, tally, details := [], Tally(0, 0, 0), [];
    NothingYet(env, cap);
    assert stages[..0] == [];
    var k := 0;
    while k < |stages|
      invariant 0 <= k <= |stages| && After(env, cap, stages[..k], entries, tally, details)
    {
      var end := RunStage(env, cap, StageIds(stages[k]));
      if end.StageFailed? {
        return NodeFailed(end.id), k;
      }
      StageAdds(env, cap, stages[..k], entries, tally, details, stages[k], end.entries, end.detail);
      assert stages[..k + 1] == stages[..k] + [stages[k]];
      entries, tally, details := entries + end.entries, Add(tally, end.detail.tally), details + [end.detail];
      k := k + 1;
    }
    assert stages[..k] == stages;
    return Finished(entries, tally, details), 0;
  }

  ghost predicate Completes(env: Env, cap: int, nodes: seq<Node>, o: Outcome)
    requires o.Finished?
  {
    exists stages :: IsStaging(nodes, stages) && After(env, cap, stages, o.entries, o.tally, o.details)
  }

  /** What orchestrate returns or throws, before the peer review. */
  method Orchestrate(env: Env, cap: int, nodes: seq<Node>) returns (o: Outcome)
    ensures o.NotStaged? <==> !(UniqueIds(nodes) && DepsKnown(nodes) && !Cyclic(DepMap(nodes)))
    ensures o.Finished? ==> Completes(env, cap, nodes, o)
    ensures o.NodeFailed? ==> o.id in Ids(nodes) && ContentOf(env, o.id, cap).None?
    ensures !o.NotStaged? ==> (o.Finished? <==> forall id :: id in Ids(nodes) ==> ContentOf(env, id, cap).Some?)
  {
    var r := Kahn.ComputeStages(nodes);
    if !r.Stages? {
      return NotStaged(r);
    }
    ghost var failedAt;
    o, failedAt := RunStages(env, cap, r.stages);
    if o.Finished? {
      EveryNodeEnded(env, cap, nodes, r.stages, o.entries, o.tally, o.details);
    } else {
      FailedNode(env, cap, nodes, r.stages, failedAt, o.id);
    }
  }

  lemma FailedNode(env: Env, cap: int, nodes: seq<Node>, stages: seq<seq<Node>>, k: nat, id: Id)
    requires IsStaging(nodes, stages) && k < |stages| && StageIs(env, cap, StageIds(stages[k]), StageFailed(id))
    ensures id in Ids(nodes) && ContentOf(env, id, cap).None?
  {
    assert InStage(stages, k, id);
    FlatMembers(stages, id);
    assert id in ToSet(FlatIds(stages));
  }

  lemma EveryNodeEnded(env: Env, cap: int, nodes: seq<Node>, stages: seq<seq<Node>>, entries: seq<Stored>,
                       tally: Tally, details: seq<Detail>)
    requires IsStaging(nodes, stages) && After(env, cap, stages, entries, tally, details)
    ensures forall id :: id in Ids(nodes) ==> ContentOf(env, id, cap).Some?
  {
    var tallies :| AllEnd(env, cap, entries, tallies) && tally == Total(tallies);
    forall id | id in Ids(nodes) ensures ContentOf(env, id, cap).Some? {
      assert id in ToSet(FlatIds(stages));
      var i :| 0 <= i < |EntryIds(entries)| && EntryIds(entries)[i] == id;
      assert NodeEnds(env, cap, entries[i], tallies[i]);
    }
  }

  /** What a finished run reports, for every interleaving: the totals are the sums over the stages, gates passed plus
      failed are the gated nodes, those passed are exactly the nodes whose stored content passes, retries are bounded,
      and the output lists every node once, after all its dependencies. */
  lemma RunAccount(env: Env, cap: int, nodes: seq<Node>, stages: seq<seq<Node>>, entries: seq<Stored>, tally: Tally,
                   details: seq<Detail>)
    requires IsStaging(nodes, stages) && After(env, cap, stages, entries, tally, details)
    ensures tally == Total(Tallies(details))
    ensures tally.passed + tally.failed == Gates(env, entries) && tally.passed == Passing(env, entries)
    ensures tally.retries <= |entries| * AtLeastZero(cap) + Gates(env, entries) * AtLeastZero(cap)
    ensures NoDup(EntryIds(entries)) && ToSet(EntryIds(entries)) == Ids(nodes)
    ensures DepsFirst(DepMap(nodes), EntryIds(entries))
  {
    var tallies :| AllEnd(env, cap, entries, tallies) && tally == Total(tallies);
    StageAccount(env, cap, entries, tallies);
    FlattenedIsTopological(nodes, stages);
  }

  /** The same for every stage on its own: its report is about its own part of the output. */
  lemma DetailAccount(env: Env, cap: int, stages: seq<seq<Node>>, entries: seq<Stored>, tally: Tally,
                      details: seq<Detail>,
                      k: nat)
    requires After(env, cap, stages, entries, tally, details) && k < |stages|
    ensures |details| == |stages| && Offset(stages, k) <= Offset(stages, k + 1) <= |entries|
    ensures var part, d := entries[Offset(stages, k)..Offset(stages, k + 1)], details[k];
      && EntryIds(part) == StageIds(stages[k]) == d.ids
      && d.tally.passed + d.tally.failed == Gates(env, part) && d.tally.passed == Passing(env, part)
      && d.tally.retries <= |part| * AtLeastZero(cap) + Gates(env, part) * AtLeastZero(cap)
  {
    assert DetailIs(env, cap, stages, entries, details, k);
    var part, d := entries[Offset(stages, k)..Offset(stages, k + 1)], details[k];
    var tallies :| AllEnd(env, cap, part, tallies) && d.tally == Total(tallies);
    StageAccount(env, cap, part, tallies);
  }
}
