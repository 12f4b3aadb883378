/** What the nodes of one stage do at once: attempts until one brings a content, then the gate and its retries. Which
    attempt or retry ends next is left open. */
module StageTasks {
  import opened Options
  import opened Dag

  /** All the world contributes: what attempt k at a node brings (None if it throws), the same for the retries after a
      failed gate, which nodes have a gate, and which contents pass it. */
  datatype Env = Env(exec: (Id, nat) -> Option<string>, retry: (Id, nat) -> Option<string>,
                     hasGate: Id -> bool, passes: (Id, string) -> bool)

  // ---- One node ----

  /** The first attempt from k on that brings a content; attempts are numbered 0 to cap. */
  function FirstAttempt(env: Env, id: Id, cap: int, k: nat := 0): (r: Option<nat>)
    ensures r.Some? ==> k <= r.value <= cap && env.exec(id, r.value).Some?
    ensures forall j: nat :: k <= j <= (if r.Some? then r.value - 1 else cap) ==> env.exec(id, j).None?
    decreases cap - k + 1
  {
    if k > cap then None else if env.exec(id, k).Some? then Some(k) else FirstAttempt(env, id, cap, k + 1)
  }

  predicate Good(env: Env, id: Id, k: nat) {
    env.retry(id, k).Some? && env.passes(id, env.retry(id, k).value)
  }

  /** The first retry from k on that passes the gate; retries are numbered 0 to cap - 1. */
  function FirstGood(env: Env, id: Id, cap: int, k: nat := 0): (r: Option<nat>)
    ensures r.Some? ==> k <= r.value < cap && Good(env, id, r.value)
    ensures forall j: nat :: k <= j < (if r.Some? then r.value else cap) ==> !Good(env, id, j)
    decreases cap - k
  {
    if k >= cap then None else if Good(env, id, k) then Some(k) else FirstGood(env, id, cap, k + 1)
  }

  function AtLeastZero(n: int): nat {
    if n > 0 then n else 0
  }

  function ContentOf(env: Env, id: Id, cap: int): Option<string> {
    var k := FirstAttempt(env, id, cap);
    if k.Some? then env.exec(id, k.value) else None
  }

  function ExecRetries(env: Env, id: Id, cap: int): nat {
    var k := FirstAttempt(env, id, cap);
    if k.Some? then k.value else AtLeastZero(cap)
  }

  datatype Tally = Tally(passed: nat, failed: nat, retries: nat)

  datatype Gated = Gated(content: string, tally: Tally)

  /** What the gate makes of a content. */
  function GateEnd(env: Env, id: Id, cap: int, content: string): Gated {
    if !env.hasGate(id) then Gated(content, Tally(0, 0, 0))
    else if env.passes(id, content) then Gated(content, Tally(1, 0, 0))
    else
      var k := FirstGood(env, id, cap);
      if k.Some? then Gated(env.retry(id, k.value).value, Tally(1, 0, k.value + 1))
      else Gated(content, Tally(0, 1, AtLeastZero(cap)))
  }

  /** Attempt k brings a content and none before it does. */
  ghost predicate BringsFirst(env: Env, id: Id, k: nat) {
    env.exec(id, k).Some? && forall j: nat :: j < k ==> env.exec(id, j).None?
  }

  /** A node has the content of its first attempt that brings one, after as many retries as attempts before it; a node
      of which attempts 0 to cap all fail has none, after cap retries. */
  lemma AttemptsExactly(env: Env, id: Id, cap: int)
    ensures forall k: nat :: k <= cap && BringsFirst(env, id, k) ==>
      ContentOf(env, id, cap) == env.exec(id, k) && ExecRetries(env, id, cap) == k
    ensures (forall k: nat :: k <= cap ==> env.exec(id, k).None?) ==>
      ContentOf(env, id, cap).None? && ExecRetries(env, id, cap) == if cap >= 0 then cap else 0
  {
  }

  /** Retry k brings a content that passes the gate and none before it does. */
  ghost predicate PassesFirst(env: Env, id: Id, k: nat) {
    && env.retry(id, k).Some? && env.passes(id, env.retry(id, k).value)
    && forall j: nat :: j < k && env.retry(id, j).Some? ==> !env.passes(id, env.retry(id, j).value)
  }

  /** A node without a gate, or with a content that passes, keeps it without retries. Otherwise the first of the cap
      retries that passes replaces the content and the gate counts as passed; if none does, the content stays and the
      gate counts as failed, after cap retries. */
  lemma GateExactly(env: Env, id: Id, cap: int, content: string)
    ensures var end := GateEnd(env, id, cap, content);
      && (!env.hasGate(id) ==> end == Gated(content, Tally(0, 0, 0)))
      && (env.hasGate(id) && env.passes(id, content) ==> end == Gated(content, Tally(1, 0, 0)))
      && (env.hasGate(id) && !env.passes(id, content) ==>
            && (forall k: nat :: k < cap && PassesFirst(env, id, k) ==>
                  end == Gated(env.retry(id, k).value, Tally(1, 0, k + 1)))
            && ((forall k: nat :: k < cap ==> !PassesFirst(env, id, k)) ==>
                  end == Gated(content, Tally(0, 1, if cap >= 0 then cap else 0))))
  {
    forall k: nat | k < cap && PassesFirst(env, id, k) ensures FirstGood(env, id, cap) == Some(k) {
      assert Good(env, id, k);
    }
    var first := FirstGood(env, id, cap);
    if first.Some? {
      assert Good(env, id, first.value);
      forall j: nat | j < first.value && env.retry(id, j).Some? ensures !env.passes(id, env.retry(id, j).value) {
        assert !Good(env, id, j);
      }
      assert PassesFirst(env, id, first.value);
    }
  }

  // ---- Sums ----

  function Sum(s: seq<nat>): nat {
    if s == [] then 0 else Sum(s[..|s| - 1]) + s[|s| - 1]
  }

  lemma {:induction false} SumUpdate(s: seq<nat>, i: nat, n: nat)
    requires i < |s|
    ensures Sum(s[i := n]) + s[i] == Sum(s) + n
  {
    var last := |s| - 1;
    if i == last {
      assert s[i := n][..last] == s[..last];
    } else {
      assert s[i := n][..last] == s[..last][i := n];
      SumUpdate(s[..last], i, n);
    }
  }

  function Add(a: Tally, b: Tally): Tally {
    Tally(a.passed + b.passed, a.failed + b.failed, a.retries + b.retries)
  }

  function Total(s: seq<Tally>): Tally {
    if s == [] then Tally(0, 0, 0) else Add(Total(s[..|s| - 1]), s[|s| - 1])
  }

  lemma {:induction false} TotalUpdate(s: seq<Tally>, i: nat, t: Tally)
    requires i < |s|
    ensures Add(Total(s[i := t]), s[i]) == Add(Total(s), t)
  {
    var last := |s| - 1;
    if i == last {
      assert s[i := t][..last] == s[..last];
    } else {
      assert s[i := t][..last] == s[..last][i := t];
      TotalUpdate(s[..last], i, t);
    }
  }

  // ---- Running the nodes of a stage ----

  /** Node i has settled. */
  ghost predicate Settled(env: Env, ids: seq<Id>, cap: int, outcomes: seq<Option<string>>, spent: seq<nat>, i: nat)
    requires i < |ids| == |outcomes| == |spent|
  {
    outcomes[i] == ContentOf(env, ids[i], cap) && spent[i] == ExecRetries(env, ids[i], cap)
  }

  /** Node i has failed so far, as often as it was tried. */
  ghost predicate Trying(env: Env, ids: seq<Id>, cap: int, spent: seq<nat>, i: nat)
    requires i < |ids| == |spent|
  {
    spent[i] <= cap && FirstAttempt(env, ids[i], cap) == FirstAttempt(env, ids[i], cap, spent[i])
  }

  ghost predicate StageUnderway(env: Env, ids: seq<Id>, cap: int, outcomes: seq<Option<string>>, spent: seq<nat>,
                                running: set<nat>)
    requires |ids| == |outcomes| == |spent|
  {
    && (forall i :: i in running ==> i < |ids|)
    && (forall i {:trigger Settled(env, ids, cap, outcomes, spent, i)} ::
          0 <= i < |ids| && i !in running ==> Settled(env, ids, cap, outcomes, spent, i))
    && (forall i {:trigger Trying(env, ids, cap, spent, i)} ::
          0 <= i < |ids| && i in running ==> Trying(env, ids, cap, spent, i))
  }

  function Zeros(n: nat): (s: seq<nat>)
    ensures |s| == n && Sum(s) == 0 && forall i :: 0 <= i < n ==> s[i] == 0
  {
    if n == 0 then [] else var s := Zeros(n - 1); assert (s + [0])[..n - 1] == s; s + [0]
  }

  function Indices(n: nat): (r: set<nat>)
    ensures forall i: nat :: i in r <==> i < n
  {
    if n == 0 then {} else Indices(n - 1) + {n - 1}
  }

  ghost predicate AllAtMost(s: seq<nat>, n: nat) {
    forall i :: 0 <= i < |s| ==> s[i] <= n
  }

  lemma {:induction false} SumBound(s: seq<nat>, n: nat)
    requires AllAtMost(s, n)
    ensures Sum(s) <= |s| * n
  {
    if s != [] {
      SumBound(s[..|s| - 1], n);
      assert |s| * n == (|s| - 1) * n + n;
    }
  }

  lemma NodeSettles(env: Env, ids: seq<Id>, cap: int, outcomes: seq<Option<string>>, spent: seq<nat>, running: set<nat>,
                    i: nat, outcome: Option<string>)
    requires |ids| == |outcomes| == |spent| && StageUnderway(env, ids, cap, outcomes, spent, running)
    requires i in running && Settled(env, ids, cap, outcomes[i := outcome], spent, i)
    ensures StageUnderway(env, ids, cap, outcomes[i := outcome], spent, running - {i})
  {
    forall j | 0 <= j < |ids| && j !in running - {i} ensures Settled(env, ids, cap, outcomes[i := outcome], spent, j) {
      assert j != i ==> Settled(env, ids, cap, outcomes, spent, j);
    }
    forall j | 0 <= j < |ids| && j in running - {i} ensures Trying(env, ids, cap, spent, j) {}
  }

  lemma NodeTriesAgain(env: Env, ids: seq<Id>, cap: int, outcomes: seq<Option<string>>, spent: seq<nat>,
                       running: set<nat>, i: nat)
    requires |ids| == |outcomes| == |spent| && StageUnderway(env, ids, cap, outcomes, spent, running)
    requires i in running && Trying(env, ids, cap, spent[i := spent[i] + 1], i)
    ensures StageUnderway(env, ids, cap, outcomes, spent[i := spent[i] + 1], running)
  {
    var spent' := spent[i := spent[i] + 1];
    forall j | 0 <= j < |ids| && j !in running ensures Settled(env, ids, cap, outcomes, spent', j) {
      assert Settled(env, ids, cap, outcomes, spent, j);
    }
    forall j | 0 <= j < |ids| && j in running ensures Trying(env, ids, cap, spent', j) {
      assert j != i ==> Trying(env, ids, cap, spent, j);
    }
  }

  lemma CountTry(spent: seq<nat>, i: nat, n: nat)
    requires i < |spent| && AllAtMost(spent, n) && spent[i] < n
    ensures var after := spent[i := spent[i] + 1];
      Sum(after) == Sum(spent) + 1 && AllAtMost(after, n) && Sum(after) <= |spent| * n
  {
    SumUpdate(spent, i, spent[i] + 1);
    SumBound(spent[i := spent[i] + 1], n);
  }

  /** One more attempt of node i comes to an end. */
  method EndAttempt(env: Env, ids: seq<Id>, cap: int, outcomes: seq<Option<string>>, attempts: seq<nat>,
                    running: set<nat>, i: nat)
    returns (outcomes': seq<Option<string>>, attempts': seq<nat>, running': set<nat>)
    requires |ids| == |outcomes| == |attempts| && i in running && AllAtMost(attempts, AtLeastZero(cap))
    requires StageUnderway(env, ids, cap, outcomes, attempts, running)
    ensures |ids| == |outcomes'| == |attempts'| && StageUnderway(env, ids, cap, outcomes', attempts', running')
    ensures AllAtMost(attempts', AtLeastZero(cap)) && running' <= running
    ensures running' == running ==> Sum(attempts') == Sum(attempts) + 1 && Sum(attempts') <= |ids| * AtLeastZero(cap)
    ensures running' != running ==> attempts' == attempts
  {
    assert Trying(env, ids, cap, attempts, i);
    var result := env.exec(ids[i], attempts[i]);
    outcomes', attempts', running' := outcomes, attempts, running;
    if result.None? && attempts[i] < cap {
      NodeTriesAgain(env, ids, cap, outcomes, attempts, running, i);
      CountTry(attempts, i, AtLeastZero(cap));
      attempts' := attempts[i := attempts[i] + 1];
    } else {
      NodeSettles(env, ids, cap, outcomes, attempts, running, i, result);
      outcomes', running' := outcomes[i := result], running - {i};
    }
  }

  ghost function Contents(env: Env, ids: seq<Id>, cap: int): (r: seq<Option<string>>)
    ensures |r| == |ids|
  {
    seq(|ids|, i requires 0 <= i < |ids| => ContentOf(env, ids[i], cap))
  }

  ghost function Spent(env: Env, ids: seq<Id>, cap: int): (r: seq<nat>)
    ensures |r| == |ids|
  {
    seq(|ids|, i requires 0 <= i < |ids| => ExecRetries(env, ids[i], cap))
  }

  lemma AllSettled(env: Env, ids: seq<Id>, cap: int, outcomes: seq<Option<string>>, spent: seq<nat>)
    requires |ids| == |outcomes| == |spent| && StageUnderway(env, ids, cap, outcomes, spent, {})
    ensures outcomes == Contents(env, ids, cap) && spent == Spent(env, ids, cap)
  {
    forall i | 0 <= i < |ids|
      ensures outcomes[i] == ContentOf(env, ids[i], cap) && spent[i] == ExecRetries(env, ids[i], cap)
    {
      assert Settled(env, ids, cap, outcomes, spent, i);
    }
  }

  /** All nodes of a stage at once: whichever attempt ends next, every node comes to its own first content. */
  method ExecuteNodes(env: Env, ids: seq<Id>, cap: int) returns (outcomes: seq<Option<string>>, retries: nat)
    ensures outcomes == Contents(env, ids, cap) && retries == Sum(Spent(env, ids, cap))
  {
    outcomes := seq(|ids|, i => None);
    retries := 0;
    var attempts := Zeros(|ids|);
    var running: set<nat> := if cap >= 0 then Indices(|ids|) else {};
    while running != {}
      invariant |outcomes| == |ids| == |attempts| && StageUnderway(env, ids, cap, outcomes, attempts, running)
      invariant retries == Sum(attempts) && AllAtMost(attempts, AtLeastZero(cap))
      decreases running, |ids| * AtLeastZero(cap) - Sum(attempts)
    {
      var i: nat :| i in running;
      var were := running;
      outcomes, attempts, running := EndAttempt(env, ids, cap, outcomes, attempts, running, i);
      if running == were {
        retries := retries + 1;
      }
    }
    AllSettled(env, ids, cap, outcomes, attempts);
  }

  // ---- Gates of a stage ----

  ghost predicate GateDone(env: Env, ids: seq<Id>, cap: int, contents: seq<string>, stored: seq<string>,
                           tallies: seq<Tally>, i: nat)
    requires i < |ids| == |contents| == |stored| == |tallies|
  {
    Gated(stored[i], tallies[i]) == GateEnd(env, ids[i], cap, contents[i])
  }

  /** The gate of node i has failed on its content and on every retry so far. */
  ghost predicate Retrying(env: Env, ids: seq<Id>, cap: int, contents: seq<string>, stored: seq<string>,
                           tallies: seq<Tally>, i: nat)
    requires i < |ids| == |contents| == |stored| == |tallies|
  {
    && env.hasGate(ids[i]) && !env.passes(ids[i], contents[i]) && stored[i] == contents[i]
    && tallies[i].passed == 0 && tallies[i].failed == 1 && tallies[i].retries < cap
    && FirstGood(env, ids[i], cap) == FirstGood(env, ids[i], cap, tallies[i].retries)
  }

  ghost predicate GatesUnderway(env: Env, ids: seq<Id>, cap: int, contents: seq<string>, stored: seq<string>,
                                tallies: seq<Tally>,
                                running: set<nat>)
    requires |ids| == |contents| == |stored| == |tallies|
  {
    && (forall i :: i in running ==> i < |ids|)
    && (forall i {:trigger GateDone(env, ids, cap, contents, stored, tallies, i)} ::
          0 <= i < |ids| && i !in running ==> GateDone(env, ids, cap, contents, stored, tallies, i))
    && (forall i {:trigger Retrying(env, ids, cap, contents, stored, tallies, i)} ::
          0 <= i < |ids| && i in running ==> Retrying(env, ids, cap, contents, stored, tallies, i))
  }

  /** The first look at each gate, in order. */
  method FirstLook(env: Env, ids: seq<Id>, cap: int, contents: seq<string>)
    returns (passed: nat, failed: nat, running: set<nat>, ghost tallies: seq<Tally>)
    requires |ids| == |contents|
    ensures |tallies| == |ids| && Tally(passed, failed, 0) == Total(tallies)
    ensures GatesUnderway(env, ids, cap, contents, contents, tallies, running)
    ensures forall i :: 0 <= i < |ids| ==> tallies[i].retries == 0
  {
    passed, failed, running, tallies := 0, 0, {}, [];
    for i := 0 to |ids|
      invariant |tallies| == i && Tally(passed, failed, 0) == Total(tallies)
      invariant GatesUnderway(env, ids[..i], cap, contents[..i], contents[..i], tallies, running)
      invariant forall j :: 0 <= j < i ==> tallies[j].retries == 0
    {
      ghost var t := Tally(0, 0, 0);
      if env.hasGate(ids[i]) {
        if env.passes(ids[i], contents[i]) {
          passed, t := passed + 1, Tally(1, 0, 0);
        } else {
          failed, t := failed + 1, Tally(0, 1, 0);
          if cap > 0 {
            running := running + {i};
          }
        }
      }
      ghost var before := if t.failed == 1 && cap > 0 then running - {i} else running;
      LookedAt(env, ids, cap, contents, tallies, t, i, before, running);
      assert (tallies + [t])[..i] == tallies;
      tallies := tallies + [t];
    }
    assert ids[..|ids|] == ids && contents[..|ids|] == contents;
  }

  lemma LookedAt(env: Env, ids: seq<Id>, cap: int, contents: seq<string>, tallies: seq<Tally>, t: Tally, i: nat,
                 before: set<nat>, after: set<nat>)
    requires i < |ids| == |contents| && |tallies| == i
    requires GatesUnderway(env, ids[..i], cap, contents[..i], contents[..i], tallies, before)
    requires if env.hasGate(ids[i]) && !env.passes(ids[i], contents[i]) && cap > 0
             then after == before + {i} && t == Tally(0, 1, 0)
             else after == before && Gated(contents[i], t) == GateEnd(env, ids[i], cap, contents[i])
    ensures GatesUnderway(env, ids[..i + 1], cap, contents[..i + 1], contents[..i + 1], tallies + [t], after)
  {
    var ids', contents', tallies' := ids[..i + 1], contents[..i + 1], tallies + [t];
    forall j | 0 <= j < i + 1 && j !in after ensures GateDone(env, ids', cap, contents', contents', tallies', j) {
      assert j < i ==> GateDone(env, ids[..i], cap, contents[..i], contents[..i], tallies, j);
    }
    forall j | 0 <= j < i + 1 && j in after ensures Retrying(env, ids', cap, contents', contents', tallies', j) {
      assert j < i ==> Retrying(env, ids[..i], cap, contents[..i], contents[..i], tallies, j);
    }
  }

  lemma GateSettles(env: Env, ids: seq<Id>, cap: int, contents: seq<string>, stored: seq<string>, tallies: seq<Tally>,
                    running: set<nat>, i: nat, content: string, t: Tally)
    requires |ids| == |contents| == |stored| == |tallies|
    requires GatesUnderway(env, ids, cap, contents, stored, tallies, running)
    requires i in running && Gated(content, t) == GateEnd(env, ids[i], cap, contents[i])
    ensures GatesUnderway(env, ids, cap, contents, stored[i := content], tallies[i := t], running - {i})
  {
    var stored', tallies' := stored[i := content], tallies[i := t];
    forall j | 0 <= j < |ids| && j !in running - {i} ensures GateDone(env, ids, cap, contents, stored', tallies', j) {
      assert j != i ==> GateDone(env, ids, cap, contents, stored, tallies, j);
    }
    forall j | 0 <= j < |ids| && j in running - {i} ensures Retrying(env, ids, cap, contents, stored', tallies', j) {
      assert Retrying(env, ids, cap, contents, stored, tallies, j);
    }
  }

  lemma GateTriesAgain(env: Env, ids: seq<Id>, cap: int, contents: seq<string>, stored: seq<string>,
                       tallies: seq<Tally>,
                       running: set<nat>, i: nat, t: Tally)
    requires |ids| == |contents| == |stored| == |tallies|
    requires GatesUnderway(env, ids, cap, contents, stored, tallies, running)
    requires i in running && Retrying(env, ids, cap, contents, stored, tallies[i := t], i)
    ensures GatesUnderway(env, ids, cap, contents, stored, tallies[i := t], running)
  {
    var tallies' := tallies[i := t];
    forall j | 0 <= j < |ids| && j !in running ensures GateDone(env, ids, cap, contents, stored, tallies', j) {
      assert GateDone(env, ids, cap, contents, stored, tallies, j);
    }
    forall j | 0 <= j < |ids| && j in running ensures Retrying(env, ids, cap, contents, stored, tallies', j) {
      assert j != i ==> Retrying(env, ids, cap, contents, stored, tallies, j);
    }
  }

  /** One more retry of node i comes to an end; attempts counts the retries of every node. */
  method EndRetry(env: Env, ids: seq<Id>, cap: int, contents: seq<string>, stored: seq<string>, attempt: nat,
                  running: set<nat>, i: nat, ghost tallies: seq<Tally>)
    returns (stored': seq<string>, running': set<nat>, passes: bool, ghost t: Tally)
    requires |ids| == |contents| == |stored| == |tallies|
    requires GatesUnderway(env, ids, cap, contents, stored, tallies, running)
    requires i in running && attempt == tallies[i].retries
    ensures |stored'| == |ids| && GatesUnderway(env, ids, cap, contents, stored', tallies[i := t], running')
    ensures running' == running || running' == running - {i}
    ensures t == Tally(if passes then 1 else 0, if passes then 0 else 1, attempt + 1)
    ensures attempt < cap && tallies[i] == Tally(0, 1, attempt)
  {
    assert Retrying(env, ids, cap, contents, stored, tallies, i);
    var result := env.retry(ids[i], attempt);
    passes := result.Some? && env.passes(ids[i], result.value);
    t := Tally(if passes then 1 else 0, if passes then 0 else 1, attempt + 1);
    stored', running' := stored, running;
    if passes {
      GateSettles(env, ids, cap, contents, stored, tallies, running, i, result.value, t);
      stored', running' := stored[i := result.value], running - {i};
    } else if attempt + 1 == cap {
      GateSettles(env, ids, cap, contents, stored, tallies, running, i, stored[i], t);
      stored', running' := stored[i := stored[i]], running - {i};
    } else {
      GateTriesAgain(env, ids, cap, contents, stored, tallies, running, i, t);
    }
  }

  ghost predicate CountsRetries(attempts: seq<nat>, tallies: seq<Tally>) {
    |attempts| == |tallies| && forall i :: 0 <= i < |tallies| ==> attempts[i] == tallies[i].retries
  }

  ghost function GateContents(env: Env, ids: seq<Id>, cap: int, contents: seq<string>): (r: seq<string>)
    requires |ids| == |contents|
    ensures |r| == |ids|
  {
    seq(|ids|, i requires 0 <= i < |ids| => GateEnd(env, ids[i], cap, contents[i]).content)
  }

  ghost function GateTallies(env: Env, ids: seq<Id>, cap: int, contents: seq<string>): (r: seq<Tally>)
    requires |ids| == |contents|
    ensures |r| == |ids|
  {
    seq(|ids|, i requires 0 <= i < |ids| => GateEnd(env, ids[i], cap, contents[i]).tally)
  }

  lemma AllGatesDone(env: Env, ids: seq<Id>, cap: int, contents: seq<string>, stored: seq<string>, tallies: seq<Tally>)
    requires |ids| == |contents| == |stored| == |tallies| && GatesUnderway(env, ids, cap, contents, stored, tallies, {})
    ensures stored == GateContents(env, ids, cap, contents) && tallies == GateTallies(env, ids, cap, contents)
  {
    forall i | 0 <= i < |ids| ensures Gated(stored[i], tallies[i]) == GateEnd(env, ids[i], cap, contents[i]) {
      assert GateDone(env, ids, cap, contents, stored, tallies, i);
    }
  }

  /** All gates of a stage at once: whichever retry ends next, every node comes to its own end. */
  method RunGates(env: Env, ids: seq<Id>, cap: int, contents: seq<string>) returns (stored: seq<string>, tally: Tally)
    requires |ids| == |contents|
    ensures stored == GateContents(env, ids, cap, contents) && tally == Total(GateTallies(env, ids, cap, contents))
  {
    stored := contents;
    var passed, failed, running, tallies := FirstLook(env, ids, cap, contents);
    tally := Tally(passed, failed, 0);
    var attempts := Zeros(|ids|);
    while running != {}
      invariant |stored| == |tallies| == |ids| && GatesUnderway(env, ids, cap, contents, stored, tallies, running)
      invariant CountsRetries(attempts, tallies) && AllAtMost(attempts, AtLeastZero(cap))
      invariant tally == Total(tallies)
      decreases |ids| * AtLeastZero(cap) - Sum(attempts)
    {
      var i: nat :| i in running;
      var stored', running', passes, t := EndRetry(env, ids, cap, contents, stored, attempts[i], running, i, tallies);
      TotalUpdate(tallies, i, t);
      CountTry(attempts, i, AtLeastZero(cap));
      attempts, tallies := attempts[i := attempts[i] + 1], tallies[i := t];
      stored, running := stored', running';
      tally :=
        if passes then Tally(tally.passed + 1, tally.failed - 1, tally.retries + 1)
        else tally.(retries := tally.retries + 1);
    }
    AllGatesDone(env, ids, cap, contents, stored, tallies);
  }
}
