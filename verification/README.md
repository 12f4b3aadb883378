# Verified model of the gateway's coordination logic

This Dafny project models the coordination logic of an LLM gateway and proves properties of it: how task graphs are
staged, scheduled, distributed, gated and reviewed; how the engine buffers streaming channels and correlates
invocations; how chunks are printed as server-sent events and parsed back; how requests are limited, failed over and
held to free-tier quotas; and how configuration layers are merged. `dafny verify dfyconfig.toml` checks everything.

Code that changes state step by step is modelled by methods and classes whose contracts tie the new state to a
specification function of the old one; the theorems are lemmas about those functions, over every input, every run and
every interleaving. Where the source awaits, the model makes a choice: an arbitrary function or an arbitrary pick says
which task, reply, timer or socket comes next. Clocks, random ids, providers, workers, gates and JSON are parameters.

| file | models |
|---|---|
| Options, Outcomes, Providers | types that several parts share |
| Dag, Stages, Kahn | dependency graphs, and Kahn's algorithm layer by layer |
| Planner, SimplePlan | depth-first cycle test and order, and the heuristic planner |
| Scheduler, FailurePromise | the sliding window with its race, and when a failure makes it throw |
| Distributor | the shrinking race with retries |
| StageTasks, Orchestrator, PeerReview, Pipeline | stages with gates and retries, the median review, and the whole request |
| Channel, ChannelMeaning | the channel buffer protocol of the engine, and the exact effect of every event |
| CallMetrics, Invocations, InvocationMeaning | the invocation tables and their metrics, and the exact effect of every event |
| KeyedList, ConfigMerge, MergeMeaning | the layered configuration merge, and which layer decides what |
| TextLines, Sse, StreamMeaning | incremental line parsers and the event-stream printer, and what every form of line yields |
| EvictingMap, RateLimiter, BucketMeaning | the keyed token bucket, and its exact counts |
| Failover, FailoverMeaning | provider cooldowns, and what every status and answer leads to |
| Usage, Quota | usage accounting and the free-tier circuit breaker |

## Assumptions

- One writer per channel; a reader's socket is open when it attaches (it may stop being open at any later moment,
  before its close event). Ids drawn by the engine and by callers are fresh.
- Requests on one failover engine do not overlap and its clock does not go back; note that the gateway builds a new
  engine for every request (`workers/gateway/src/index.ts:206`), so across requests no cooldown is kept.
- The rate limiter has a capacity of at least 1 and a positive window, and computes exactly.
- JSON encoding is faithful: an object is encoded to one line in braces that decodes to it.

## Where the code and its documentation differ

- `ParallelScheduler.run` is documented to throw if any node fails (`workers/gateway/src/parallel_scheduler.ts:130`).
  A node that fails between the settling of another and the resumption of the race leaves the running set unseen, and
  the run returns without it (`Scheduler.FailureSwallowed`). The promise holds if and only if at most one node can run
  at a time: the cap is 1, or no stage has two nodes (`FailurePromise.PromiseExactly`). In any case the result tells: it
  covers every node if and only if none failed (`Scheduler.CompleteResults`).
- `retryAfterMs` counts from the bucket's clock. For a call with a timestamp behind that clock it is too short
  (`RateLimiter.RetryAfterPromise` has the exact condition).
- A worker's name is read when a call ends (`iii-engine/src/engine.ts:549`), so a rename in between can lose the end
  (`Invocations.RenameExample`). Calls made equal calls in flight plus calls recorded if and only if no call of the run
  has ended without a record under the name of that moment (`Invocations.CallsAddUpExactly`).
- A channel frame that finds readers of which none is open is dropped (`iii-engine/src/engine.ts:628-632`), a third way
  to lose a frame besides overflow and abandonment (`Channel.MissedFrame`); nothing else is lost on arrival
  (`Channel.MissedExactly`).
- The two usage trackers are interchangeable by their interface, but agree exactly under the conditions of
  `Usage.UsageAgrees`, `Usage.UtilizationAgrees` and `Usage.AggregateExactly`.
- A reviewer is rejected when the reviewers before it together cover its capabilities, not only when one of them does
  (`workers/gateway/src/peer_reviewer.ts:152-154` against `:170-173`). `PeerReview.PassedOverExactly` is the rule,
  `PeerReview.CoveredTogether` an example of the difference.

## Model

| member | source | states |
|---|---|---|
| `Kahn.ComputeStages` | workers/gateway/src/parallel_scheduler.ts:43-111 | fails with a duplicate id, an unknown dependency or a cycle exactly when the graph has one (in that order of precedence), and otherwise partitions the nodes into stages |
| `Kahn.BuildEdges` | workers/gateway/src/parallel_scheduler.ts:60-69 | succeeds exactly if every dependency is a known id; then in-degrees and adjacency lists count every dependency, repeated ones included |
| `Kahn.Decrement` | workers/gateway/src/parallel_scheduler.ts:91-97 | each neighbour loses as many in-degrees as it is listed, and the next layer gains exactly those that reach 0 |
| `Kahn.WalkLayer` | workers/gateway/src/parallel_scheduler.ts:89-99 | after a layer has been walked, in-degrees count exactly the dependencies outside the layers done so far |
| `Kahn.LeftOverIsCyclic` | workers/gateway/src/parallel_scheduler.ts:102-108 | nodes left over when the layers run out contain a cycle |
| `Stages.StageIsLongestChain` | workers/gateway/src/parallel_scheduler.ts:34-42 | a node's stage index is the length of its longest dependency chain |
| `Stages.FewestStages` | workers/gateway/src/parallel_scheduler.ts:34-42 | no assignment of the nodes to rounds that respects dependencies has fewer rounds |
| `Stages.FlattenedIsTopological` | workers/gateway/src/parallel_scheduler.ts:34-42 | the stages, read one after the other, list every node once and after all its dependencies |
| `Stages.StagingIsAcyclic` | workers/gateway/src/parallel_scheduler.ts:101-108 | whatever can be staged has no cycle |
| `Dag.OrderedIsAcyclic` | workers/gateway/src/dag-planner.ts:137-160 | an order that puts dependencies first exists only for a graph without a cycle |
| `Dag.StuckSetHasCycle` | workers/gateway/src/parallel_scheduler.ts:81-108 | a set of ids in which every id depends on another of the set holds a cycle |
| `Dag.DepMapIsLastWins` | workers/gateway/src/dag-planner.ts:116-119 | the dependency map has the dependencies of the last node with each id |
| `Planner.CycleSearch.Dfs` | workers/gateway/src/dag-planner.ts:120-130 | one depth-first call either exposes a cycle or finishes its id and everything below it, with the stack as it was |
| `Planner.CycleSearch.DfsEach` | workers/gateway/src/dag-planner.ts:125-127 | the same for a list of dependencies |
| `Planner.HasCycle` | workers/gateway/src/dag-planner.ts:112-135 | true exactly when the dependency map has a cycle |
| `Planner.OrderVisit.Visit` | workers/gateway/src/dag-planner.ts:148-155 | a visit appends an id after everything it depends on and keeps the order so far |
| `Planner.TopologicalOrder` | workers/gateway/src/dag-planner.ts:137-160 | fails exactly on a cycle, otherwise lists every mentioned id once, after all its dependencies |
| `Planner.BothVerdicts` | workers/gateway/src/dag-planner.ts:112-160 | the two independent graph algorithms agree: with unique known ids, staging fails exactly if the depth-first test is true, and both orders hold the same ids |
| `SimplePlan.PlanIsDag` | workers/gateway/src/dag-planner.ts:42-110 | every plan of the heuristic planner has unique ids, known dependencies and no cycle, and takes one or two stages, the first being the root |
| `SimplePlan.NodeIdInjective` | workers/gateway/src/dag-planner.ts:97-108 | generated node ids are distinct |
| `SimplePlan.PlanSize` | workers/gateway/src/dag-planner.ts:42-95 | with two or more user messages a plan has a node for each that says anything; with one, a node for each part of it that says anything if it has a conjunction, and one node otherwise; never less than one node |
| `Scheduler.RunIsSafe` | workers/gateway/src/parallel_scheduler.ts:132-195 | for every completion order: at most maxParallelism nodes run, each starts after its dependencies have settled, the window is full or everything is started whenever the scheduler waits; a completed run started each node once and has the results of exactly the nodes that did not fail |
| `Scheduler.SafeAt` | workers/gateway/src/parallel_scheduler.ts:158-195 | a safe trace is safe at every moment, not only at its end |
| `Scheduler.RacesAreFull` | workers/gateway/src/parallel_scheduler.ts:158-195 | in every run nodes settle only at races that began with a full window or an entirely started stage, and nothing starts during a race |
| `Scheduler.RunWithoutFailures` | workers/gateway/src/parallel_scheduler.ts:132-149 | if no node fails, every run terminates with a result for every node |
| `Scheduler.CompleteResults` | workers/gateway/src/parallel_scheduler.ts:126-149 | a run that returns has a result for every node if and only if no node failed |
| `Scheduler.FailureSwallowed` | workers/gateway/src/parallel_scheduler.ts:126-131 | the documented promise that a failing node makes the run throw is broken by a run in which two nodes settle before the race resumes |
| `FailurePromise.PromiseExactly` | workers/gateway/src/parallel_scheduler.ts:126-195 | for every staged graph and cap, the promise holds for all failures and all completion orders if and only if at most one node can run at a time: the cap is 1 or no stage has two nodes |
| `FailurePromise.NarrowValues` | workers/gateway/src/parallel_scheduler.ts:158-195 | with one node at a time a run returns only if no node failed |
| `FailurePromise.WideMisses` | workers/gateway/src/parallel_scheduler.ts:158-195 | with a cap of 2 or more, any stage of two nodes can lose the failure of one of them |
| `Scheduler.ExecuteStage` | workers/gateway/src/parallel_scheduler.ts:158-195 | the loop with its window and race does what the step-by-step specification says |
| `Scheduler.TryStartNext` | workers/gateway/src/parallel_scheduler.ts:166-183 | refills the window until it is full or the stage is started |
| `Scheduler.Run` | workers/gateway/src/parallel_scheduler.ts:115-149 | reaches the stages exactly if the parallelism is at least 1 and the graph is a proper one, and then runs them as specified |
| `Distributor.SwapRemoved` | workers/gateway/src/distributor.ts:94-105 | swap-removal keeps the index inside every entry equal to its position and loses exactly the winner |
| `Distributor.DistributeStage` | workers/gateway/src/distributor.ts:83-106 | for every completion order a stage yields each node once unless one fails, and what it yields are the nodes' own results |
| `Distributor.Distribute` | workers/gateway/src/distributor.ts:80-107 | over all stages: nothing is yielded twice or before its dependencies; all nodes are yielded if none fails, and a throw names a failed node |
| `Distributor.Aggregate` | workers/gateway/src/distributor.ts:113-119 | returns exactly if the graph can be staged and no node fails, with every node's own result |
| `Distributor.SelectWorker` | workers/gateway/src/distributor.ts:187-212 | finds nobody exactly if every capable worker was tried; otherwise the capable untried one that was used least recently, the earliest in the pool among those used as long ago |
| `Distributor.ChoiceMeans` | workers/gateway/src/distributor.ts:187-212 | a choice spelled out: from the pool, untried, with the capability if one is named, and before every other such worker in last use, then in the pool; a worker never used counts as 0 |
| `Distributor.CapableMeans` | workers/gateway/src/distributor.ts:187-206 | the capable workers are those that list the capability, or all if none or an empty one is asked for |
| `Distributor.TriedAreDistinct` | workers/gateway/src/distributor.ts:129-152 | the workers tried for a node are distinct and have the required capability |
| `Distributor.ExecuteNodeWithRetry` | workers/gateway/src/distributor.ts:129-185 | succeeds at the first attempt that does not fail, and fails after exactly min(retryCap + 1, capable workers) attempts, each well chosen |
| `StageTasks.ExecuteNodes` | workers/engram/src/orchestrate.ts:263-291 | whichever attempt ends next, every node comes to its first successful attempt within the cap, and the retry counter is the sum over the nodes |
| `StageTasks.EndAttempt` | workers/engram/src/orchestrate.ts:266-278 | one attempt settles its node or counts one retry, and nothing else changes |
| `StageTasks.FirstLook` | workers/engram/src/orchestrate.ts:304-318 | the first evaluation of every gate, in order |
| `StageTasks.EndRetry` | workers/engram/src/orchestrate.ts:321-345 | one retry of a failed gate passes and replaces the stored content, or counts as one more failure |
| `StageTasks.RunGates` | workers/engram/src/orchestrate.ts:301-354 | whichever retry ends next, every node ends with the first retry that passes, or its own content, and the shared counters are the sums over the nodes |
| `StageTasks.AttemptsExactly` | workers/engram/src/orchestrate.ts:266-278 | a node has the content of its first attempt that brings one, after as many retries as attempts before it; if attempts 0 to cap all fail it has none, after cap retries |
| `StageTasks.GateExactly` | workers/engram/src/orchestrate.ts:304-345 | without a gate, or with content that passes, nothing changes; otherwise the first of cap retries that passes replaces the content, and if none does the content stays and the gate counts as failed after cap retries |
| `Orchestrator.RunStage` | workers/engram/src/orchestrate.ts:253-368 | a stage fails with the first of its nodes that has no content, otherwise reports its entries and its sums |
| `Orchestrator.StageAccount` | workers/engram/src/orchestrate.ts:301-368 | gates passed plus failed are the gated nodes, those passed are exactly the nodes whose stored content passes, and retries are at most the cap per node plus the cap per gated node |
| `Orchestrator.RunStages` | workers/engram/src/orchestrate.ts:253-368 | the stages in order, up to the first failure |
| `Orchestrator.Orchestrate` | workers/engram/src/orchestrate.ts:206-368 | on a graph that can be staged, a run finishes if and only if every node has a content; a failure names a node all of whose attempts failed |
| `Orchestrator.RunAccount` | workers/engram/src/orchestrate.ts:356-412 | for every interleaving: totals are the sums over stages, gate counts balance, a node counted as passed has stored content that passes, retries are bounded, and the output lists the nodes in dependency order |
| `Pipeline.Orchestrate` | workers/engram/src/orchestrate.ts:206-412 | planning, stages, aggregation and review composed: a request is answered if and only if every planned node has a content and at most four reviewers are asked for; the plan can always be staged |
| `Pipeline.PoolServes` | workers/engram/src/orchestrate.ts:131-165 | the built-in reviewers have disjoint capabilities, so any number up to four is found |
| `Pipeline.AggregateResults` | workers/engram/src/orchestrate.ts:421-429 | one part for every stored content, in order |
| `Pipeline.AggregatedConcat` | workers/engram/src/orchestrate.ts:421-429 | an entry is a header line with its id and then its content, and the texts of two lists of entries are joined by an empty line |
| `Orchestrator.DetailAccount` | workers/engram/src/orchestrate.ts:361-367 | the same balance for every stage of the report, about the stage's own part of the output |
| `PeerReview.SortIsStable` | workers/gateway/src/peer_reviewer.ts:160-163 | the order in which workers are considered is descending in capabilities and keeps equals in place: a stable permutation |
| `PeerReview.GreedyFacts` | workers/gateway/src/peer_reviewer.ts:156-188 | reviewers are picked from the pool, at most the wanted number, and each brings a capability that none before it has |
| `PeerReview.PassedOverExactly` | workers/gateway/src/peer_reviewer.ts:165-180 | while there is room a worker is passed over if and only if those picked before it together have all its capabilities |
| `PeerReview.CoveredTogether` | workers/gateway/src/peer_reviewer.ts:149-155 | an example in which a worker is passed over although no single reviewer covers it |
| `PeerReview.ReviewersDistinct` | workers/gateway/src/peer_reviewer.ts:156-188 | no worker is picked twice |
| `PeerReview.TooFewMeansCovered` | workers/gateway/src/peer_reviewer.ts:182-186 | if too few are found, every other worker is covered by those that were |
| `PeerReview.SelectionFromPool` | workers/gateway/src/peer_reviewer.ts:156-188 | both facts about the whole pool, whatever order it came in |
| `PeerReview.SelectReviewers` | workers/gateway/src/peer_reviewer.ts:165-180 | the loop with its set of used capabilities picks exactly those workers |
| `PeerReview.MajorityDecides` | workers/gateway/src/peer_reviewer.ts:207-219 | the median of an odd number of scores reaches a threshold exactly if a majority of the scores does |
| `PeerReview.EvenScores` | workers/gateway/src/peer_reviewer.ts:207-219 | for an even number more than half is enough and less than half too little |
| `PeerReview.SortCounts` | workers/gateway/src/peer_reviewer.ts:208-211 | the sorted copy has the same scores from every threshold up |
| `PeerReview.Review` | workers/gateway/src/peer_reviewer.ts:64-146 | the whole review: the two errors, a failed reviewer counted as 0, the verdict, and the first suitable worker recommended |
| `PeerReview.VerdictIsMajority` | workers/gateway/src/peer_reviewer.ts:64-146 | with an odd number of reviewers the verdict is passed exactly if a majority scored at or above the threshold |
| `PeerReview.AnswersDecide` | workers/gateway/src/peer_reviewer.ts:64-146 | over the answers themselves, a missing one reaching no positive threshold: an odd number of reviewers passes exactly on a majority of approvals, an even number passes with more than half and fails with less |
| `PeerReview.MedianIsMiddle` | workers/gateway/src/peer_reviewer.ts:207-219 | the consensus is the score of middle rank, or the mean of the two scores of middle rank |
| `PeerReview.RecommendedIsUnrelated` | workers/gateway/src/peer_reviewer.ts:103-134 | the recommended worker shares no capability with a reviewer below the threshold, so it is not one of them |
| `PeerReview.RecommendedExactly` | workers/gateway/src/peer_reviewer.ts:103-134 | a failed review recommends the first available worker that shares no capability with a reviewer below the threshold, and nobody exactly if every one shares some |
| `PeerReview.NoReviewers` | workers/gateway/src/peer_reviewer.ts:207-209 | a review by nobody has consensus 0 |
| `Channel.CleanUp` | iii-engine/src/engine.ts:603-703 | in every state: a registered channel accounts for its buffered bytes within 8 MiB, and one whose writer has closed is unregistered, has a reader, or has its timer armed; an unregistered one holds nothing |
| `Channel.StreamsAreFifo` | iii-engine/src/engine.ts:603-703 | in every state every reader's log is a contiguous slice of the accepted frames, up to the latest while the reader is open; the buffer holds the latest frames |
| `Channel.OneReaderLosesNothing` | iii-engine/src/engine.ts:603-703 | with at most one open reader at a time, delivered frames, then the buffer, then what the timer dropped are the accepted frames in order; they are all frames that did not overflow exactly if none met only closing readers |
| `Channel.MissedExactly` | iii-engine/src/engine.ts:605-633 | with any number of readers, every frame that did not overflow was accepted if and only if none arrived while the only readers left were closing |
| `Channel.MissedFrame` | iii-engine/src/engine.ts:628-632 | a run in which a frame finds only a closing reader and is lost |
| `Channel.PromptClosesMissNothing` | iii-engine/src/engine.ts:628-632 | if sockets leave the readers as soon as they stop being open, no frame is missed, with any number of readers |
| `Channel.EngineChannel.Message` | iii-engine/src/engine.ts:605-633 | a frame is buffered, refused for size, or sent once to exactly the open readers |
| `Channel.EngineChannel.WriterClosed` | iii-engine/src/engine.ts:634-659 | readers are closed and the channel disposed of if the buffer is empty, otherwise the timer is armed |
| `Channel.EngineChannel.DisposeChannel` | iii-engine/src/engine.ts:661-671 | the timer is cleared, the buffer dropped, and the channel unregistered if writer and readers are gone |
| `Channel.EngineChannel.AttachReader` | iii-engine/src/engine.ts:673-695 | the newcomer gets the whole buffer in order, and is closed if the writer is gone |
| `Channel.EngineChannel.ReaderClosed` | iii-engine/src/engine.ts:696-702 | the reader leaves, and the last one to leave a closed writer disposes of the channel |
| `ChannelMeaning.BufferExactly` | iii-engine/src/engine.ts:613-626 | in every run a frame sent without readers is refused, with no effect, if and only if the lengths of the buffered frames and its own add up to more than 8388608; otherwise the buffer grows by exactly this frame |
| `ChannelMeaning.RelayExactly` | iii-engine/src/engine.ts:628-632 | in every run a frame sent with readers attached is sent on to exactly the open ones and is not buffered |
| `ChannelMeaning.ReadersExactly` | iii-engine/src/engine.ts:634-703 | in every run a socket is a reader until its close event, and open until it stops, its close event comes or the writer has closed |
| `ChannelMeaning.AttachExactly` | iii-engine/src/engine.ts:673-695 | a newcomer is sent the whole buffer, which is then empty, and stays open exactly if the writer has not closed |
| `ChannelMeaning.WriterClosesExactly` | iii-engine/src/engine.ts:634-659 | the timer is started exactly if frames are waiting; the channel goes away at once exactly if none wait and no reader is attached; every socket is closed and no log changes |
| `ChannelMeaning.TimerExactly` | iii-engine/src/engine.ts:651-671 | the timer drops exactly the buffer, and the channel goes away exactly if no reader is attached |
| `ChannelMeaning.CloseExactly` | iii-engine/src/engine.ts:696-702 | a reader leaves alone; the channel goes away, and its timer is cleared, exactly with the last reader after the writer |
| `CallMetrics.BucketOf` | iii-engine/src/engine.ts:517-525 | the latency bucket is the one whose bounds hold the duration |
| `CallMetrics.BumpSound` | iii-engine/src/engine.ts:508-534 | a record keeps calls = sum of its buckets, timeouts <= errors <= calls, and its mean between its extremes |
| `CallMetrics.TotalUpdate` | iii-engine/src/engine.ts:490-534 | replacing one record changes a sum over all records by the difference |
| `Invocations.CallsAreConserved` | iii-engine/src/engine.ts:490-568 | in every run, calls made = in flight + recorded + lost ends; totals are the sums over the records, and every record is sound |
| `Invocations.SettledExactlyOnce` | iii-engine/src/engine.ts:426-568 | in every run, a call is in flight or was settled exactly once, and a forwarded call is open or was answered exactly once |
| `Invocations.LateRepliesChangeNothing` | iii-engine/src/engine.ts:426-568 | once a call is over, no later reply or timeout for it changes the engine, however much later |
| `Invocations.SettledWithItsReply` | iii-engine/src/engine.ts:426-451 | a promise is settled with the reply or timeout that an event brought for its id while it was in flight, or because the first live worker serving the function had a closed socket when the call was made |
| `Invocations.AnsweredToAsker` | iii-engine/src/engine.ts:347-365 | a forwarded call is answered to the worker that asked, with the reply that came for its id while it was forwarded, or with NOT_FOUND because no other worker served the function when it was asked |
| `Invocations.CallsAddUpExactly` | iii-engine/src/engine.ts:490-568 | for every run, calls made = in flight + recorded if and only if no call ended while its function had no record under the name its worker had by then |
| `Invocations.LostExactly` | iii-engine/src/engine.ts:508-511 | no end is lost if and only if no reply or timeout of the run ends a call without such a record |
| `Invocations.QuietLosesNothing` | iii-engine/src/engine.ts:490-568 | if no worker is renamed while a call to it is in flight, no end is lost, so calls made = in flight + recorded |
| `Invocations.RenameLoses` | iii-engine/src/engine.ts:544-556 | when the reply comes right after the rename, the end is lost exactly if the function has no record under the new name |
| `Invocations.SecondCallSaves` | iii-engine/src/engine.ts:490-511 | when another call of the function comes in between, it opens the record and nothing is lost |
| `Invocations.RenameExample` | iii-engine/src/engine.ts:281-295 | a run in which a rename loses an end |
| `Invocations.Owner` | iii-engine/src/engine.ts:483-488 | the first live worker other than the excluded one that serves the function, or none if there is none |
| `Invocations.InvocationEngine.FindWorker` | iii-engine/src/engine.ts:483-488 | the loop finds that worker |
| `Invocations.InvocationEngine.RecordInvocationStart` | iii-engine/src/engine.ts:490-506 | counts the call and opens its record if there is none |
| `Invocations.InvocationEngine.RecordInvocationEnd` | iii-engine/src/engine.ts:508-534 | updates the record under the current name and the totals, or nothing if there is no such record |
| `Invocations.InvocationEngine.Trigger` | iii-engine/src/engine.ts:459-568 | refuses the call if nobody serves the function, otherwise starts it, and settles it at once if the socket is not open |
| `Invocations.InvocationEngine.HandleWorkerInvokeFunction` | iii-engine/src/engine.ts:347-365 | forwards to the first other worker with the function or answers NOT_FOUND |
| `Invocations.InvocationEngine.HandleInvocationResult` | iii-engine/src/engine.ts:426-451 | a forwarded call is answered first, then a pending one settled, anything else ignored |
| `Invocations.InvocationEngine.HandleTimeout` | iii-engine/src/engine.ts:541-546 | settles the call only if it is still pending |
| `InvocationMeaning.TriggerExactly` | iii-engine/src/engine.ts:459-568 | in every run a call made is in flight exactly if the first live worker serving the function has an open socket, and is settled, as not connected, exactly if that socket is not open; a call of a function nobody serves leaves no trace |
| `InvocationMeaning.CallOfFirst` | iii-engine/src/engine.ts:490-568 | the whole effect of a call on tables, promises and records, with an open first worker and with a closed one |
| `InvocationMeaning.ReplySettles` | iii-engine/src/engine.ts:426-451 | in every run a reply for a call in flight settles it with that reply and counts its end in the record, an error reply as an error |
| `InvocationMeaning.TimeoutSettles` | iii-engine/src/engine.ts:541-546 | in every run a timeout of a call in flight settles it as timed out, counted as an error and as a timeout |
| `InvocationMeaning.EndedCounts` | iii-engine/src/engine.ts:508-534 | one more call, its duration, the one latency class of eight that holds it, extremes, error and timeout counts in the record named function@worker, and nothing elsewhere |
| `InvocationMeaning.AskExactly` | iii-engine/src/engine.ts:347-365 | a call by a worker is forwarded exactly if another worker serves the function, and is answered NOT_FOUND otherwise |
| `InvocationMeaning.ReplyRelays` | iii-engine/src/engine.ts:426-440 | a reply for a forwarded call goes to the worker that asked and touches nothing else |
| `InvocationMeaning.ServesExactly` | iii-engine/src/engine.ts:212-275 | in every run a worker serves a function exactly if its last word on it was a registration and it has not left; its socket is open until it is closed or the worker leaves |
| `InvocationMeaning.TotalsCountSettlements` | iii-engine/src/engine.ts:508-534 | in every run that loses no end, the error total is the number of calls settled with anything but a result and the timeout total the number settled by a timeout; in any run the totals are at most these |
| `KeyedList.FoldAssociative` | _bmad/scripts/resolve_customization.py:113-136 | keyed merging is associative, with or without repeated keys |
| `KeyedList.FoldKeepsOrder` | _bmad/scripts/resolve_customization.py:113-136 | base positions stay, each with its own item or an override of the same key |
| `KeyedList.LastOverrideWins` | _bmad/scripts/resolve_customization.py:124-134 | the last override with a key is what the result holds for it |
| `KeyedList.FoldUnique` | _bmad/scripts/resolve_customization.py:113-136 | merging keeps keys unique, whatever the override repeats |
| `KeyedList.FoldKeepsOverride` | _bmad/scripts/resolve_customization.py:124-134 | no override with a key of its own is lost |
| `ConfigMerge.MergeByKey` | _bmad/scripts/resolve_customization.py:113-136 | the result list with its index dictionary is the fold that replaces the last item with each key; it fails exactly on a key that is a list or a table |
| `ConfigMerge.CopyBase` | _bmad/scripts/resolve_customization.py:117-122 | the copied base has its tables in order, and the index their last positions |
| `ConfigMerge.Merge` | _bmad/scripts/resolve_customization.py:150-166 | the copying loops compute the field-by-field merge, and fail on the same inputs |
| `ConfigMerge.MergeAssociative` | _bmad/scripts/resolve_customization.py:150-166 | three layers that agree on kinds and on how arrays are keyed may be folded in either grouping, with the same result or the same failure |
| `ConfigMerge.MergeAgrees` | _bmad/scripts/resolve_customization.py:150-166 | the merge of agreeing layers agrees with whatever agreed with both, so any number of layers may be regrouped |
| `ConfigMerge.FourLayers` | _bmad/scripts/resolve_config.py:159-161 | the four-layer fold equals every other grouping of its layers |
| `ConfigMerge.KindsMatter` | _bmad/scripts/resolve_customization.py:150-166 | without agreement on kinds the groupings differ |
| `ConfigMerge.ModesMatter` | _bmad/scripts/resolve_customization.py:139-147 | without agreement on keyed or plain arrays the groupings differ |
| `ConfigMerge.RepeatedIdsMatter` | _bmad/scripts/resolve_customization.py:96-110 | an id-keyed array with a repeated id can change which field arrays are keyed by, and the groupings differ |
| `ConfigMerge.ExtractMerged` | _bmad/scripts/resolve_customization.py:169-177 | extracting a path from merged layers is merging what the path finds in each |
| `MergeMeaning.PathDecided` | _bmad/scripts/resolve_customization.py:150-166 | whatever the layers, a successful merge holds at every path what the override has there (two tables or two arrays are combined), what the base has where the override leaves the path alone, and nothing where the override put something else in the way |
| `MergeMeaning.OverrideScalarWins` | _bmad/scripts/resolve_customization.py:166 | a scalar of the override at any path is what the merge holds there |
| `MergeMeaning.LastScalarDecides` | _bmad/scripts/resolve_config.py:159-161 | over a fold of any number of layers, the last layer with a scalar at a path decides it |
| `MergeMeaning.UntouchedStays` | _bmad/scripts/resolve_config.py:159-161 | a path that no layer speaks about keeps the value of the base |
| `MergeMeaning.ArraysByField` | _bmad/scripts/resolve_customization.py:96-147 | two arrays are merged by code if every item of both is a table with a code, else by id likewise, and are joined end to end otherwise |
| `MergeMeaning.FailureClashes` | _bmad/scripts/resolve_customization.py:150-166 | a merge fails only if at some path two arrays are keyed by a list or a table |
| `MergeMeaning.ClashFails` | _bmad/scripts/resolve_customization.py:150-166 | and it always fails then |
| `MergeMeaning.FoldKeys` | _bmad/scripts/resolve_customization.py:113-136 | the keys of a merged array are those of the base, in order, followed by the new ones of the override |
| `MergeMeaning.KeysCompareByValue` | _bmad/scripts/resolve_customization.py:117-134 | keys are compared as Python does: True, 1 and 1.0 are one key, and no text equals a number |
| `TextLines.SplitConcat` | workers/gateway/src/provider-client.ts:201-203 | splitting a text is splitting its first part, gluing the unfinished line to the rest, and splitting on |
| `Sse.StreamResponse` | workers/gateway/src/provider-client.ts:186-219 | for every cut of the text into reads, the chunks are those of all its lines, an unterminated last one included |
| `StreamMeaning.StreamYields` | workers/gateway/src/provider-client.ts:162-219 | for every text written as data lines, end markers, comments, blank lines and other lines, with any white space around them, and every cut into reads, the stream yields exactly what extraction finds in the data lines, in order |
| `StreamMeaning.ChunksComeBack` | workers/gateway/src/provider-client.ts:162-219 | every list of chunks printed as data lines, with any other lines between them, comes out as it went in, for every cut |
| `StreamMeaning.LineYields` | workers/gateway/src/provider-client.ts:162-184 | a data line yields what extraction finds behind its prefix; a blank line, a comment, the marker and a line without the prefix or with nothing behind it yield nothing |
| `StreamMeaning.EveryLineHasAForm` | workers/gateway/src/provider-client.ts:162-184 | every line has one of these forms |
| `StreamMeaning.EveryTextHasLines` | workers/gateway/src/provider-client.ts:186-219 | so every text is covered |
| `StreamMeaning.TrimExactly` | workers/gateway/src/provider-client.ts:163 | trimming removes the white space at both ends and nothing else |
| `StreamMeaning.SplitJoined` | workers/gateway/src/provider-client.ts:201-203 | splitting finds the lines that a text was joined from |
| `StreamMeaning.JoinedSplit` | workers/gateway/src/provider-client.ts:201-203 | and joining what splitting found gives the text back |
| `StreamMeaning.ClientYields` | workers/agents/sdk/ts/src/client.ts:39-79 | for every text and every cut the client's parser yields what the data lines decode to, up to the first end marker, and throws exactly if one of these lines does not decode |
| `StreamMeaning.SpacesListed` | workers/gateway/src/provider-client.ts:163 | white space is what ECMAScript trims: its white space and its line terminators |
| `Sse.ParseSSE` | workers/agents/sdk/ts/src/client.ts:39-79 | for every cut of the text into reads, the parser yields what a reader of the whole text gets, although it stops at the end marker |
| `Sse.ParseReady` | workers/agents/sdk/ts/src/client.ts:60-66 | the inner loop over complete lines, ending at the marker or at text that does not decode |
| `Sse.PipeStreamToChannel` | workers/gateway/src/index.ts:56-72 | sends every chunk, after an interruption a note, and one end marker |
| `Sse.StreamHandler.Message` | workers/gateway/src/http-handler.ts:616-626 | writes the message as an event and remembers whether it was the end marker |
| `Sse.StreamHandler.End` | workers/gateway/src/http-handler.ts:634-643 | appends the marker only if none was sent |
| `Sse.PipeToClient` | workers/gateway/src/http-handler.ts:603-643 | whichever of the pipe's messages the channel lets through, the client gets exactly their payloads, in order, and the text has one end marker, last |
| `Sse.RoundTrip` | workers/gateway/src/index.ts:43-72 | printer, handler and client parser composed: the client yields the chunks in order, for every chunk list, interruption and cut |
| `EvictingMap.RunConsistent` | workers/gateway/src/rate-limiter.ts:61-108 | in every run the order lists exactly the keys of the map, which are at most maxKeys, and every value keeps its invariant |
| `EvictingMap.KeyAlone` | workers/gateway/src/rate-limiter.ts:78-108 | a key that stays is answered as if it were the only one |
| `RateLimiter.RefillTwice` | workers/gateway/src/rate-limiter.ts:44-57 | refilling in pieces is refilling once |
| `RateLimiter.ConsumeKeeps` | workers/gateway/src/rate-limiter.ts:44-99 | every call keeps tokens within 0 and capacity, never turns the clock back, and gains at most the rate |
| `RateLimiter.DeniedCallsVanish` | workers/gateway/src/rate-limiter.ts:78-99 | denied calls leave a later refill as it would have been without them |
| `RateLimiter.WaitIsExact` | workers/gateway/src/rate-limiter.ts:95-98 | a denied bucket allows after d more milliseconds on its clock exactly if d reaches the announced wait |
| `RateLimiter.RetryAfterExact` | workers/gateway/src/rate-limiter.ts:44-99 | after a denial and any denied calls since, a call is allowed exactly from the clock plus the announced wait on |
| `RateLimiter.RetryAfterPromise` | workers/gateway/src/rate-limiter.ts:95-98 | counted from the denied call, the wait is exact if and only if that call was not behind the clock of the bucket |
| `RateLimiter.BucketBalance` | workers/gateway/src/rate-limiter.ts:44-99 | allowed calls plus tokens left never exceed tokens before plus what the clock has earned |
| `RateLimiter.TokenBucketBound` | workers/gateway/src/rate-limiter.ts:61-108 | over any run in which the key stays, timestamps in any order, allowed calls are at most capacity plus capacity per window times the advance of its clock |
| `RateLimiter.FreshKeyBound` | workers/gateway/src/rate-limiter.ts:78-99 | the same from the call that creates the bucket on |
| `RateLimiter.RunStaysInBounds` | workers/gateway/src/rate-limiter.ts:61-108 | in every run of calls and resets tokens stay in bounds and keys at most maxKeys |
| `RateLimiter.RateLimiter.ConsumeOne` | workers/gateway/src/rate-limiter.ts:78-99 | one call on the shared map, eviction included |
| `RateLimiter.RateLimiter.ResetOne` | workers/gateway/src/rate-limiter.ts:101-107 | forgets one key |
| `BucketMeaning.ConsumeExactly` | workers/gateway/src/rate-limiter.ts:44-99 | a call is allowed exactly if the bucket, refilled up to the capacity, holds a token; it then takes exactly one and answers with the whole tokens left, and a denied call takes nothing |
| `BucketMeaning.FirstCall` | workers/gateway/src/rate-limiter.ts:82-93 | the first call of a key is allowed and leaves a full load less one token |
| `BucketMeaning.Burst` | workers/gateway/src/rate-limiter.ts:78-99 | of the calls of a fresh key at one moment exactly those up to the capacity rounded down are allowed, and their answers count down to 0 |
| `BucketMeaning.ExactBalance` | workers/gateway/src/rate-limiter.ts:44-99 | over any run in which the bucket never fills up, allowed calls plus tokens left equal tokens before plus what its clock has earned |
| `BucketMeaning.CallExactly` | workers/gateway/src/rate-limiter.ts:61-108 | a call touches its own key only; a new key is put last, and if the map was full the key opened first is forgotten |
| `BucketMeaning.ResetExactly` | workers/gateway/src/rate-limiter.ts:101-107 | a reset forgets its key and nothing else |
| `Failover.ParseEntry` | workers/gateway/src/failover.ts:140-142 | an entry is its provider, a slash and its model, split at the first slash, or a provider alone |
| `Failover.CooldownsAreKept` | workers/gateway/src/failover.ts:99-218 | over every run on one engine no provider is called again before its 60, 300 or 30 seconds are over, and isInCooldown says exactly what the calls so far imply, whatever was pruned |
| `Failover.FirstUsableAnswers` | workers/gateway/src/failover.ts:122-218 | a request is answered by its first usable entry, fails exactly if there is none, and then lists one failure per entry in order |
| `Failover.FailoverEngine.IsInCooldown` | workers/gateway/src/failover.ts:99-107 | true exactly if a call so far blocks the provider now; an expired entry is dropped |
| `Failover.FailoverEngine.GetCooldowns` | workers/gateway/src/failover.ts:113-120 | lists exactly the providers blocked now |
| `Failover.FailoverEngine.TryEntry` | workers/gateway/src/failover.ts:139-210 | one entry: the skips, the call, healing of an empty answer, and the cooldown for its status |
| `Failover.FailoverEngine.RouteWithFailover` | workers/gateway/src/failover.ts:122-218 | the loop over the entries, up to the first that serves |
| `FailoverMeaning.PausesAreKept` | workers/gateway/src/failover.ts:99-218 | over every run a provider is not called again before 60000 ms after a 429, 300000 after a 403 and 30000 after a 500 or 503, and is in cooldown exactly while one of these times is running |
| `FailoverMeaning.CalledExactly` | workers/gateway/src/failover.ts:139-170 | an entry is called exactly if its provider is not resting, not refused, has a key and is known; otherwise it fails with the first of these grounds |
| `FailoverMeaning.AnswerExactly` | workers/gateway/src/failover.ts:171-210 | what a called entry comes to: streams and replies with text are passed on, an empty reply outside streaming is replaced by the healed one, kept if there is none, and fails if healing throws; errors carry their status and ground |
| `Usage.RowIsSummary` | workers/gateway/src/zero-cost/usage_tracker.ts:64-75 | after every run a row has the count, tokens, last time and first provider of the uses of its key |
| `Usage.UsageAgrees` | workers/gateway/src/zero-cost/usage_tracker.ts:80-83 | counters and log agree on use, provider, count and tokens; on the last use exactly if the latest entry has the greatest time; on the limit exactly if the log uses the limit configured at the first use |
| `Usage.RowKeepsLimit` | workers/gateway/src/zero-cost/usage_tracker.ts:65-72 | a row keeps the limit that was configured when its key was first used |
| `Usage.LimitIsLastSet` | workers/gateway/src/zero-cost/usage_tracker.ts:65-72 | a provider's limit is the one set last in the run, or 1000 if none was set |
| `Usage.LatestIsMax` | workers/gateway/src/zero-cost/usage_tracker.ts:202 | the last use in the log is the greatest of its times |
| `Usage.UtilizationAgrees` | workers/gateway/src/zero-cost/usage_tracker.ts:118-134 | counters and log agree on the number of requests of a key exactly if all its uses had the provider asked about |
| `Usage.PercentagesAgree` | workers/gateway/src/zero-cost/usage_tracker.ts:118-134 | so do their percentages, if both apply the same positive limit |
| `Usage.AggregateAgrees` | workers/gateway/src/zero-cost/usage_tracker.ts:90-112 | if every key has one provider, the rows of a provider add up to its entries in the log |
| `Usage.AggregateExactly` | workers/gateway/src/zero-cost/usage_tracker.ts:90-112 | the two trackers agree on the requests of all providers at every moment of a run if and only if every key is used with one provider |
| `Usage.UsageTracker.RecordUse` | workers/gateway/src/zero-cost/usage_tracker.ts:64-75 | the upsert: provider and limit of the first use stay |
| `Usage.UsageTracker.GetUsage` | workers/gateway/src/zero-cost/usage_tracker.ts:80-83 | the row, as a summary of the uses of the key, with the limit of the first use |
| `Usage.UsageTracker.AggregateRequests` | workers/gateway/src/zero-cost/usage_tracker.ts:90-98 | the sum over the rows of a provider |
| `Usage.UsageTracker.GetAggregateProviderUtilization` | workers/gateway/src/zero-cost/usage_tracker.ts:90-112 | requests, the limit configured now, and their ratio |
| `Usage.InMemoryUsageTracker.GetUsage` | workers/gateway/src/zero-cost/usage_tracker.ts:194-205 | the same answer computed from the log |
| `Quota.RefusedExactly` | workers/gateway/src/zero-cost/circuit_breaker.ts:41-61 | paid providers are refused, and free ones exactly if their row holds a positive limit that has been reached |
| `Quota.FilterIsExact` | workers/gateway/src/http-handler.ts:455-480 | exactly the allowed entries pass the filter, and a request is turned away exactly if all are refused |
| `Quota.EntryPasses` | workers/gateway/src/http-handler.ts:455-466 | an entry passes exactly if the provider named before its first slash is configured as free and its row, if it has a positive limit, is below it; it is refused as paid exactly if the provider is not configured as free |
| `Quota.FilterConcat` | workers/gateway/src/http-handler.ts:455-466 | entries are judged one by one, in order |
| `Quota.FilterProviders` | workers/gateway/src/http-handler.ts:455-466 | the loop keeps them in order and collects one reason for every other entry |
| `Quota.RunSubTasks` | workers/gateway/src/http-handler.ts:502-523 | every routed sub-task is recorded, up to the first that is not, and the request is answered exactly if all are |
| `Quota.EverySubTaskIsUsed` | workers/gateway/src/http-handler.ts:502-523 | each routed sub-task is one use of its own provider, with its own tokens and time |
| `Quota.QuotaBound` | workers/gateway/src/zero-cost/circuit_breaker.ts:41-61 | with at most k outstanding sub-tasks per provider recorded requests stay within limit - 1 + k, so within the limit when calls are sequential; a paid provider is never used |
| `Quota.BoundIsReached` | workers/gateway/src/zero-cost/circuit_breaker.ts:41-61 | no smaller bound holds: for every limit and k some run reaches it |

## Left out

- ConfigMerge.MergeAssociative: agreement of the layers is a sufficient condition; that kinds, array modes and unique ids each matter is shown by one family of inputs per condition, not as an equivalence.
- Channel.OneReaderLosesNothing: the one-open-reader condition is sufficient; with several readers at once every log is a slice (`Channel.StreamsAreFifo`), and what was accepted is stated exactly (`Channel.MissedExactly`).
- Usage.UsageTracker.GetAggregateProviderUtilization: the rate per minute and the last use (0 in one tracker and null in the other when there is none) are not modelled.
- Distributor.ExecuteNodeWithRetry: the pool does not change during the retries of one node; between attempts other nodes may change the time stamps.
- Quota.QuotaBound: speaks about the limit that the row captured at its first use; a limit changed later does not reach the row, in the source either.
- Failover.CooldownsAreKept: the `setCooldown` method is modelled, but runs do not call it from outside.
- StageTasks.RunGates: evaluating a gate is an abstract predicate that does not throw, and the counting of a retry is one step with its end.
- Scheduler.RunIsSafe: the worker pool runs every task it is given; its own queueing is not part of this model.
- Sockets, HTTP, SQLite and real timers: only the events and times they deliver.
- The built-in engine functions other than the rename, trigger registration, and engine shutdown, which refuses new calls.
- UTF-8 decoding, aborts by signal, and `fetchWithRetry` in the client.
- `streamWithFailover`, which repeats the failover loop without cooldowns, and the non-streaming response formats.
- The order of the keys in a merged table, NaN as an array key, and TOML parsing.
- Rounding: rates, waits, scores and utilization are exact; `toLowerCase` in the tier lookup is taken to have been applied to the names.
- The differing default limits of the two trackers.
- The text of error messages, telemetry and logging.
- Prompt content: trimming, splitting and recognising conjunctions in the planner are abstract text operations.
- Pipeline.Orchestrate: the reviewers' prompts and the parsing of their answers; scores are whatever they return.
- Vault encryption, tier probing and the tier cache, quota monitoring, cost reports and the cluster registry.
