/** The whole of orchestrate: plan, stages, aggregation and peer review by the built-in pool of reviewers. */
module Pipeline {
  import opened Dag
  import opened Options
  import Orchestrator
  import PeerReview
  import SimplePlan
  import StageTasks

  // ---- The built-in reviewers ----

  function Reviewer(id: string, first: string, second: string): PeerReview.Worker {
    PeerReview.Worker(id, [PeerReview.Cap(first), PeerReview.Cap(second)])
  }

  function ReviewPool(): seq<PeerReview.Worker> {
    [Reviewer("reviewer-alpha", "reasoning", "factual_accuracy"),
     Reviewer("reviewer-beta", "hallucination_detection", "consistency"),
     Reviewer("reviewer-gamma", "completeness", "relevance"),
     Reviewer("reviewer-delta", "security", "robustness")]
  }

  /** Every worker has capabilities, and none of them is another worker's. */
  ghost predicate Diverse(workers: seq<PeerReview.Worker>) {
    && (forall i :: 0 <= i < |workers| ==> workers[i].caps != [])
    && forall i, j :: 0 <= i < j < |workers| ==> !PeerReview.Meets(workers[j], workers[i])
  }

  lemma {:induction false} EqualsKeepOrder(workers: seq<PeerReview.Worker>, n: nat)
    requires forall i :: 0 <= i < |workers| ==> |workers[i].caps| == n
    ensures PeerReview.RichestFirst(workers) == workers
  {
    if workers != [] {
      EqualsKeepOrder(workers[..|workers| - 1], n);
      assert workers[..|workers| - 1] + [workers[|workers| - 1]] == workers;
    }
  }

  function Wanted(n: int, have: nat): nat {
    if n <= 0 then 0 else if n <= have then n else have
  }

  /** From a diverse pool the first n are picked, or all if there are fewer. */
  lemma {:induction false} DiversePicked(workers: seq<PeerReview.Worker>, n: int)
    requires Diverse(workers)
    ensures PeerReview.Greedy(workers, n) == workers[..Wanted(n, |workers|)]
  {
    if workers != [] {
      var m := |workers| - 1;
      var front, w := workers[..m], workers[m];
      DiversePicked(front, n);
      if m < n {
        assert front[..m] == front;
        assert w.caps[0] in w.caps && !PeerReview.HasCap(front, w.caps[0]) by {
          forall i | 0 <= i < m ensures w.caps[0] !in front[i].caps {
            assert !PeerReview.Meets(w, workers[i]);
          }
        }
        assert front + [w] == workers;
      } else {
        assert front[..Wanted(n, m)] == workers[..Wanted(n, |workers|)];
      }
    }
  }

  lemma PoolIsDiverse()
    ensures Diverse(ReviewPool())
  {
    assert "reasoning"[2] != "relevance"[2];
  }

  /** The built-in pool serves every number of reviewers up to four, and no more. */
  lemma PoolServes(n: int)
    ensures |PeerReview.Greedy(PeerReview.RichestFirst(ReviewPool()), n)| == Wanted(n, 4)
  {
    PoolIsDiverse();
    EqualsKeepOrder(ReviewPool(), 2);
    DiversePicked(ReviewPool(), n);
  }

  // ---- Aggregation ----

  function Part(e: Orchestrator.Stored): string {
    "[Node: " + e.id.text + "]\n" + e.content
  }

  /** aggregateResults: one part for every entry, in order, with an empty line between parts. */
  function Aggregated(entries: seq<Orchestrator.Stored>): string {
    if entries == [] then ""
    else if |entries| == 1 then Part(entries[0])
    else Aggregated(entries[..|entries| - 1]) + "\n\n" + Part(entries[|entries| - 1])
  }

  method AggregateResults(entries: seq<Orchestrator.Stored>) returns (text: string)
    ensures text == Aggregated(entries)
  {
    text := "";
    for i := 0 to |entries|
      invariant text == Aggregated(entries[..i])
    {
      assert entries[..i + 1][..i] == entries[..i];
      text := if i == 0 then Part(entries[i]) else text + "\n\n" + Part(entries[i]);
    }
    assert entries[..|entries|] == entries;
  }

  /** One entry is its header line and its content; the texts of two lists of entries are joined by an empty line. */
  lemma {:induction false} AggregatedConcat(a: seq<Orchestrator.Stored>, b: seq<Orchestrator.Stored>)
    requires a != [] && b != []
    ensures Aggregated(a + b) == Aggregated(a) + "\n\n" + Aggregated(b)
    ensures Aggregated([b[0]]) == "[Node: " + b[0].id.text + "]\n" + b[0].content
  {
    var front, last := b[..|b| - 1], b[|b| - 1];
    assert (a + b)[..|a + b| - 1] == a + front;
    if front == [] {
      assert a + front == a;
    } else {
      AggregatedConcat(a, front);
      JoinedThrice(Aggregated(a), Aggregated(front), Part(last));
    }
  }

  lemma JoinedThrice(a: string, b: string, c: string)
    ensures (a + "\n\n" + b) + "\n\n" + c == a + "\n\n" + (b + "\n\n" + c)
  {
  }

  // ---- The request ----

  datatype Reply =
    | Returned(content: string, run: Orchestrator.Outcome, review: PeerReview.ReviewResult)
    | NodeThrew(id: Id)
    | ReviewThrew

  /** A request is answered if and only if every planned node has a content and at most four reviewers are asked for;
      the plan itself never stands in the way. */
  method Orchestrate(messages: seq<SimplePlan.Message>, ops: SimplePlan.TextOps, env: StageTasks.Env, cap: int,
                     threshold: real, numReviewers: int, answer: PeerReview.Worker -> Option<real>)
    returns (r: Reply)
    ensures var nodes := SimplePlan.Plan(messages, ops);
      var all := forall id :: id in Ids(nodes) ==> StageTasks.ContentOf(env, id, cap).Some?;
      && (r.Returned? <==> all && numReviewers <= 4) && (r.NodeThrew? <==> !all)
      && (r.NodeThrew? ==> r.id in Ids(nodes) && StageTasks.ContentOf(env, r.id, cap).None?)
      && (r.Returned? ==>
            && r.run.Finished? && Orchestrator.Completes(env, cap, nodes, r.run)
            && r.content == Aggregated(r.run.entries)
            && r.review.Reviewed? && PeerReview.ReviewIs(ReviewPool(), threshold, numReviewers, answer, r.review))
  {
    var nodes := SimplePlan.Plan(messages, ops);
    SimplePlan.PlanIsDag(messages, ops);
    var run := Orchestrator.Orchestrate(env, cap, nodes);
    if run.NodeFailed? {
      return NodeThrew(run.id);
    }
    var content := AggregateResults(run.entries);
    var review := PeerReview.Review(ReviewPool(), threshold, numReviewers, answer);
    PoolServes(numReviewers);
    if !review.Reviewed? {
      return ReviewThrew;
    }
    return Returned(content, run, review);
  }
}
