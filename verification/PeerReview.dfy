/** Peer review: reviewers are picked greedily, richest first, so that each brings a new capability; the verdict is the
    median of their scores against a threshold. */
module PeerReview {
  import opened Options

  datatype Cap = Cap(name: string)

  datatype Worker = Worker(id: string, caps: seq<Cap>)

  // ---- The order in which workers are considered ----

  /** Before every strictly poorer worker, after all the others. */
  function Place(w: Worker, sorted: seq<Worker>): seq<Worker> {
    if sorted == [] then [w]
    else
      var last := sorted[|sorted| - 1];
      if |w.caps| > |last.caps| then Place(w, sorted[..|sorted| - 1]) + [last] else sorted + [w]
  }

  /** The stable sort by number of capabilities, richest first. */
  function RichestFirst(workers: seq<Worker>): seq<Worker> {
    if workers == [] then [] else Place(workers[|workers| - 1], RichestFirst(workers[..|workers| - 1]))
  }

  ghost predicate Descending(s: seq<Worker>) {
    forall i, j :: 0 <= i < j < |s| ==> |s[i].caps| >= |s[j].caps|
  }

  /** The workers with this many capabilities, in order. */
  function WithRichness(s: seq<Worker>, n: nat): seq<Worker> {
    if s == [] then []
    else
      var last := s[|s| - 1];
      if |last.caps| == n then WithRichness(s[..|s| - 1], n) + [last] else WithRichness(s[..|s| - 1], n)
  }

  lemma WithLast(s: seq<Worker>, w: Worker, n: nat)
    ensures WithRichness(s + [w], n) == if |w.caps| == n then WithRichness(s, n) + [w] else WithRichness(s, n)
  {
    assert (s + [w])[..|s|] == s;
  }

  ghost predicate AtLeastAsRich(s: seq<Worker>, n: nat) {
    forall i :: 0 <= i < |s| ==> |s[i].caps| >= n
  }

  lemma {:induction false} PlaceBound(w: Worker, s: seq<Worker>, n: nat)
    requires AtLeastAsRich(s, n) && |w.caps| >= n
    ensures AtLeastAsRich(Place(w, s), n)
  {
    if s != [] && |w.caps| > |s[|s| - 1].caps| {
      PlaceBound(w, s[..|s| - 1], n);
    }
  }

  lemma {:induction false} PlaceSorts(w: Worker, s: seq<Worker>)
    requires Descending(s)
    ensures Descending(Place(w, s))
  {
    if s != [] && |w.caps| > |s[|s| - 1].caps| {
      var front, last := s[..|s| - 1], s[|s| - 1];
      PlaceSorts(w, front);
      PlaceBound(w, front, |last.caps|);
    }
  }

  lemma {:induction false} PlaceMembers(w: Worker, s: seq<Worker>, x: Worker)
    ensures x in Place(w, s) <==> x in s || x == w
  {
    if s != [] && |w.caps| > |s[|s| - 1].caps| {
      PlaceMembers(w, s[..|s| - 1], x);
      assert s == s[..|s| - 1] + [s[|s| - 1]];
    }
  }

  lemma {:induction false} PlaceIsStable(w: Worker, s: seq<Worker>, n: nat)
    requires Descending(s)
    ensures WithRichness(Place(w, s), n) == if |w.caps| == n then WithRichness(s, n) + [w] else WithRichness(s, n)
  {
    if s != [] && |w.caps| > |s[|s| - 1].caps| {
      var front, last := s[..|s| - 1], s[|s| - 1];
      PlaceIsStable(w, front, n);
      WithLast(Place(w, front), last, n);
    } else {
      WithLast(s, w, n);
    }
  }

  /** The order is descending, and for every richness it lists the workers of that richness in their given order: so it
      is a permutation, and a stable sort. */
  lemma {:induction false} SortIsStable(workers: seq<Worker>, n: nat)
    ensures Descending(RichestFirst(workers))
    ensures WithRichness(RichestFirst(workers), n) == WithRichness(workers, n)
  {
    if workers != [] {
      var front, last := workers[..|workers| - 1], workers[|workers| - 1];
      SortIsStable(front, n);
      PlaceSorts(last, RichestFirst(front));
      PlaceIsStable(last, RichestFirst(front), n);
    }
  }

  lemma {:induction false} SortMembers(workers: seq<Worker>, x: Worker)
    ensures x in RichestFirst(workers) <==> x in workers
  {
    if workers != [] {
      var front, last := workers[..|workers| - 1], workers[|workers| - 1];
      SortMembers(front, x);
      PlaceMembers(last, RichestFirst(front), x);
      InFrontOrLast(workers, x);
    }
  }

  lemma InFrontOrLast<T>(s: seq<T>, x: T)
    requires s != []
    ensures x in s <==> x in s[..|s| - 1] || x == s[|s| - 1]
  {
    assert s == s[..|s| - 1] + [s[|s| - 1]];
  }

  // ---- Selection ----

  predicate Covered(w: Worker, selected: seq<Worker>) {
    forall c :: c in w.caps ==> HasCap(selected, c)
  }

  predicate HasCap(selected: seq<Worker>, c: Cap) {
    exists i :: 0 <= i < |selected| && c in selected[i].caps
  }

  /** Those picked from the considered workers: until there are n, each that is not covered by those before. */
  function Greedy(considered: seq<Worker>, n: int): seq<Worker> {
    if considered == [] then []
    else
      var picked, w := Greedy(considered[..|considered| - 1], n), considered[|considered| - 1];
      if |picked| >= n || Covered(w, picked) then picked else picked + [w]
  }

  /** Worker i brings a capability that no worker before it has. */
  ghost predicate BringsNew(selected: seq<Worker>, i: nat)
    requires i < |selected|
  {
    exists c :: c in selected[i].caps && !HasCap(selected[..i], c)
  }

  lemma {:induction false} GreedyFacts(considered: seq<Worker>, n: int)
    ensures |Greedy(considered, n)| <= if n > 0 then n else 0
    ensures forall i :: 0 <= i < |Greedy(considered, n)| ==> BringsNew(Greedy(considered, n), i)
    ensures forall w :: w in Greedy(considered, n) ==> w in considered
  {
    if considered != [] {
      var front, w := considered[..|considered| - 1], considered[|considered| - 1];
      GreedyFacts(front, n);
      assert considered == front + [w];
      var picked, all := Greedy(front, n), Greedy(considered, n);
      forall i | 0 <= i < |all| ensures BringsNew(all, i) {
        if i < |picked| {
          assert BringsNew(picked, i) && picked[..i] == all[..i];
        } else {
          assert all[..i] == picked;
        }
      }
    }
  }

  /** The rule by which a worker is passed over while there is room: those picked before it have, together, all its
      capabilities. */
  lemma PassedOverExactly(considered: seq<Worker>, n: int, i: nat)
    requires i < |considered| && |Greedy(considered[..i], n)| < n
    ensures Greedy(considered[..i + 1], n) == Greedy(considered[..i], n)
      <==> Covered(considered[i], Greedy(considered[..i], n))
  {
    assert considered[..i + 1][..i] == considered[..i];
  }

  /** The documented rule: one of those picked has all the capabilities. */
  predicate CoveredByOne(w: Worker, selected: seq<Worker>) {
    exists i :: 0 <= i < |selected| && forall c :: c in w.caps ==> c in selected[i].caps
  }

  /** The two rules differ: neither of the first two workers has both capabilities of the third, which is
      passed over. */
  lemma CoveredTogether(a: Cap, b: Cap, c: Cap, d: Cap, ids: seq<string>)
    requires a != b && a != c && a != d && b != c && b != d && c != d && |ids| == 3
    ensures var x, y, z := Worker(ids[0], [a, b]), Worker(ids[1], [c, d]), Worker(ids[2], [a, c]);
      && RichestFirst([x, y, z]) == [x, y, z] && Greedy([x, y, z], 3) == [x, y]
      && !CoveredByOne(z, [x, y])
  {
    var x, y, z := Worker(ids[0], [a, b]), Worker(ids[1], [c, d]), Worker(ids[2], [a, c]);
    InOrder(x, y, z);
    PickedPair(x, y);
    assert [x, y, z][..2] == [x, y];
    assert a in [x, y][0].caps && c in [x, y][1].caps;
    assert z.caps[0] == a && z.caps[1] == c;
  }

  lemma InOrder(x: Worker, y: Worker, z: Worker)
    requires |x.caps| == |y.caps| == |z.caps|
    ensures RichestFirst([x, y, z]) == [x, y, z]
  {
    assert [x, y, z][..2] == [x, y] && [x, y][..1] == [x] && [x][..0] == [];
    assert RichestFirst([x]) == [x];
    assert RichestFirst([x, y]) == [x] + [y] == [x, y];
    assert RichestFirst([x, y, z]) == [x, y] + [z];
  }

  lemma PickedPair(x: Worker, y: Worker)
    requires x.caps != [] && y.caps != [] && forall c :: c in x.caps ==> c !in y.caps
    ensures Greedy([x, y], 3) == [x, y]
  {
    assert [x, y][..1] == [x] && [x][..0] == [];
    assert x.caps[0] in x.caps && !HasCap([], x.caps[0]);
    assert Greedy([x], 3) == [] + [x] == [x];
    assert y.caps[0] in y.caps && !HasCap([x], y.caps[0]);
    assert [x] + [y] == [x, y];
  }

  lemma HasCapGrows(selected: seq<Worker>, w: Worker, c: Cap)
    requires HasCap(selected, c)
    ensures HasCap(selected + [w], c)
  {
    var i :| 0 <= i < |selected| && c in selected[i].caps;
    assert (selected + [w])[i] == selected[i];
  }

  /** If too few are found, every worker considered is covered by those that were. */
  lemma {:induction false} TooFewMeansCovered(considered: seq<Worker>, n: int)
    requires |Greedy(considered, n)| < n
    ensures forall w :: w in considered ==> Covered(w, Greedy(considered, n))
  {
    if considered != [] {
      var front, last := considered[..|considered| - 1], considered[|considered| - 1];
      var picked, all := Greedy(front, n), Greedy(considered, n);
      TooFewMeansCovered(front, n);
      forall w, c | w in considered && c in w.caps ensures HasCap(all, c) {
        if w in front {
          assert Covered(w, picked);
          assert all == picked || all == picked + [last];
          HasCapGrows(picked, last, c);
        } else {
          assert w == last;
          assert all != picked ==> all[|picked|] == last;
        }
      }
    }
  }

  /** Reviewers are distinct: no two of them are the same worker. */
  lemma ReviewersDistinct(considered: seq<Worker>, n: int, i: nat, j: nat)
    requires i < j < |Greedy(considered, n)|
    ensures Greedy(considered, n)[i] != Greedy(considered, n)[j]
  {
    GreedyFacts(considered, n);
    var s := Greedy(considered, n);
    assert BringsNew(s, j);
    var c :| c in s[j].caps && !HasCap(s[..j], c);
    assert s[..j][i] == s[i];
  }

  // ---- The median ----

  function Insert(x: real, s: seq<real>): (r: seq<real>)
    ensures |r| == |s| + 1
  {
    if s == [] then [x]
    else if x < s[|s| - 1] then Insert(x, s[..|s| - 1]) + [s[|s| - 1]] else s + [x]
  }

  function Sort(values: seq<real>): (r: seq<real>)
    ensures |r| == |values|
  {
    if values == [] then [] else Insert(values[|values| - 1], Sort(values[..|values| - 1]))
  }

  ghost predicate Ascending(s: seq<real>) {
    forall i, j :: 0 <= i < j < |s| ==> s[i] <= s[j]
  }

  function AtLeast(values: seq<real>, t: real): nat {
    if values == [] then 0 else AtLeast(values[..|values| - 1], t) + if values[|values| - 1] >= t then 1 else 0
  }

  ghost predicate AllAtMost(s: seq<real>, t: real) {
    forall i :: 0 <= i < |s| ==> s[i] <= t
  }

  lemma {:induction false} InsertBound(x: real, s: seq<real>, t: real)
    requires AllAtMost(s, t) && x <= t
    ensures AllAtMost(Insert(x, s), t)
  {
    if s != [] && x < s[|s| - 1] {
      InsertBound(x, s[..|s| - 1], t);
    }
  }

  lemma {:induction false} InsertSorts(x: real, s: seq<real>)
    requires Ascending(s)
    ensures Ascending(Insert(x, s))
  {
    if s != [] && x < s[|s| - 1] {
      var front, last := s[..|s| - 1], s[|s| - 1];
      InsertSorts(x, front);
      InsertBound(x, front, last);
    }
  }

  lemma {:induction false} SortSorts(values: seq<real>)
    ensures Ascending(Sort(values))
  {
    if values != [] {
      SortSorts(values[..|values| - 1]);
      InsertSorts(values[|values| - 1], Sort(values[..|values| - 1]));
    }
  }

  lemma AtLeastLast(s: seq<real>, x: real, t: real)
    ensures AtLeast(s + [x], t) == AtLeast(s, t) + if x >= t then 1 else 0
  {
    assert (s + [x])[..|s|] == s;
  }

  lemma {:induction false} InsertCounts(x: real, s: seq<real>, t: real)
    ensures AtLeast(Insert(x, s), t) == AtLeast(s, t) + if x >= t then 1 else 0
  {
    if s != [] && x < s[|s| - 1] {
      InsertCounts(x, s[..|s| - 1], t);
      AtLeastLast(Insert(x, s[..|s| - 1]), s[|s| - 1], t);
    } else {
      AtLeastLast(s, x, t);
    }
  }

  /** The sorted copy has as many values from t up, for every t: it is a permutation. */
  lemma {:induction false} SortCounts(values: seq<real>, t: real)
    ensures AtLeast(Sort(values), t) == AtLeast(values, t)
  {
    if values != [] {
      SortCounts(values[..|values| - 1], t);
      InsertCounts(values[|values| - 1], Sort(values[..|values| - 1]), t);
    }
  }

  lemma {:induction false} AtLeastBound(s: seq<real>, t: real)
    ensures AtLeast(s, t) <= |s|
    ensures s != [] && Ascending(s) && s[|s| - 1] < t ==> AtLeast(s, t) == 0
  {
    if s != [] {
      var front := s[..|s| - 1];
      AtLeastBound(front, t);
    }
  }

  /** In a sorted sequence, position i reaches t exactly if all from i on do. */
  lemma {:induction false} PositionCounts(s: seq<real>, i: nat, t: real)
    requires Ascending(s) && i < |s|
    ensures s[i] >= t <==> AtLeast(s, t) >= |s| - i
  {
    var front, n := s[..|s| - 1], |s| - 1;
    AtLeastBound(s, t);
    AtLeastBound(front, t);
    if i < n {
      PositionCounts(front, i, t);
    }
  }

  function Median(values: seq<real>): real {
    if values == [] then 0.0
    else
      var sorted := Sort(values);
      var mid := |sorted| / 2;
      if |sorted| % 2 == 1 then sorted[mid] else (sorted[mid - 1] + sorted[mid]) / 2.0
  }

  /** An odd number of scores: the median reaches the threshold exactly if a majority of the scores does. */
  lemma MajorityDecides(scores: seq<real>, t: real)
    requires |scores| % 2 == 1
    ensures Median(scores) >= t <==> AtLeast(scores, t) >= (|scores| + 1) / 2
  {
    SortSorts(scores);
    SortCounts(scores, t);
    PositionCounts(Sort(scores), |scores| / 2, t);
  }

  /** An even number: more than half is enough, less than half is too little, and exactly half is decided by the mean of
      the two middle scores. */
  lemma EvenScores(scores: seq<real>, t: real)
    requires |scores| % 2 == 0 && scores != []
    ensures AtLeast(scores, t) > |scores| / 2 ==> Median(scores) >= t
    ensures AtLeast(scores, t) < |scores| / 2 ==> Median(scores) < t
  {
    var sorted, mid := Sort(scores), |scores| / 2;
    SortSorts(scores);
    SortCounts(scores, t);
    PositionCounts(sorted, mid, t);
    PositionCounts(sorted, mid - 1, t);
    Between(sorted[mid - 1], sorted[mid], t);
  }

  lemma Between(lo: real, hi: real, t: real)
    requires lo <= hi
    ensures lo >= t ==> (lo + hi) / 2.0 >= t
    ensures hi < t ==> (lo + hi) / 2.0 < t
  {
  }

  // ---- The review ----

  /** What a reviewer answers: a score, or nothing if its review failed. */
  function ScoreOf(answer: Option<real>): real {
    if answer.Some? then answer.value else 0.0
  }

  datatype ReviewResult =
    | Reviewed(passed: bool, consensus: real, scores: seq<real>, recommended: Option<Worker>)
    | NotEnoughWorkers(available: nat)
    | NotDistinct(found: nat)

  predicate Meets(w: Worker, r: Worker) {
    exists c :: c in w.caps && c in r.caps
  }

  /** The worker has no capability of a reviewer that scored below the threshold. */
  predicate Unrelated(w: Worker, selected: seq<Worker>, scores: seq<real>, t: real)
    requires |selected| == |scores|
  {
    forall i :: 0 <= i < |selected| && scores[i] < t ==> !Meets(w, selected[i])
  }

  ghost predicate IsFirst(available: seq<Worker>, selected: seq<Worker>, scores: seq<real>, t: real, k: nat)
    requires |selected| == |scores| && k < |available|
  {
    && Unrelated(available[k], selected, scores, t)
    && forall j :: 0 <= j < k ==> !Unrelated(available[j], selected, scores, t)
  }

  /** The first of these workers that is unrelated to every reviewer that scored below the threshold. */
  ghost predicate Recommends(available: seq<Worker>, selected: seq<Worker>, scores: seq<real>, t: real,
                             r: Option<Worker>)
    requires |selected| == |scores|
  {
    match r
    case None => forall j :: 0 <= j < |available| ==> !Unrelated(available[j], selected, scores, t)
    case Some(w) => exists k :: 0 <= k < |available| && available[k] == w && IsFirst(available, selected, scores, t, k)
  }

  function Scores(selected: seq<Worker>, answer: Worker -> Option<real>): (r: seq<real>)
    ensures |r| == |selected|
  {
    seq(|selected|, i requires 0 <= i < |selected| => ScoreOf(answer(selected[i])))
  }

  /** What a review comes to, for every way the reviewers may answer. */
  ghost predicate ReviewIs(available: seq<Worker>, t: real, n: int, answer: Worker -> Option<real>, r: ReviewResult) {
    var selected := Greedy(RichestFirst(available), n);
    var scores := Scores(selected, answer);
    match r
    case NotEnoughWorkers(have) => |available| < n && have == |available|
    case NotDistinct(found) => |available| >= n && |selected| < n && found == |selected|
    case Reviewed(passed, consensus, given, recommended) =>
      && |available| >= n && |selected| >= n && given == scores && consensus == Median(scores)
      && (passed <==> consensus >= t)
      && (if passed then recommended.None? else Recommends(available, selected, scores, t, recommended))
  }

  method SelectReviewers(sorted: seq<Worker>, n: int) returns (selected: seq<Worker>)
    ensures selected == Greedy(sorted, n)
  {
    selected := [];
    var used: set<Cap> := {};
    var i := 0;
    while i < |sorted| && |selected| < n
      invariant 0 <= i <= |sorted| && selected == Greedy(sorted[..i], n)
      invariant forall c :: c in used <==> HasCap(selected, c)
    {
      var w := sorted[i];
      assert sorted[..i + 1][..i] == sorted[..i];
      if !(forall c :: c in w.caps ==> c in used) {
        UseCaps(selected, w, used);
        selected := selected + [w];
        used := used + (set c | c in w.caps);
      }
      i := i + 1;
    }
    FullStaysFull(sorted, i, n);
  }

  lemma UseCaps(selected: seq<Worker>, w: Worker, used: set<Cap>)
    requires forall c :: c in used <==> HasCap(selected, c)
    ensures forall c :: c in used + (set c | c in w.caps) <==> HasCap(selected + [w], c)
  {
    forall c ensures HasCap(selected + [w], c) <==> HasCap(selected, c) || c in w.caps {
      if HasCap(selected, c) {
        HasCapGrows(selected, w, c);
      }
      assert (selected + [w])[|selected|] == w;
      if HasCap(selected + [w], c) {
        var i :| 0 <= i < |selected + [w]| && c in (selected + [w])[i].caps;
        assert i < |selected| ==> c in selected[i].caps;
      }
    }
  }

  lemma {:induction false} FullStaysFull(sorted: seq<Worker>, i: nat, n: int)
    requires i <= |sorted| && (i == |sorted| || |Greedy(sorted[..i], n)| >= n)
    ensures Greedy(sorted, n) == Greedy(sorted[..i], n)
    decreases |sorted|
  {
    if i < |sorted| {
      var front := sorted[..|sorted| - 1];
      assert front[..i] == sorted[..i];
      FullStaysFull(front, i, n);
    } else {
      assert sorted[..i] == sorted;
    }
  }

  method Review(available: seq<Worker>, t: real, n: int, answer: Worker -> Option<real>) returns (r: ReviewResult)
    ensures ReviewIs(available, t, n, answer, r)
  {
    if |available| < n {
      return NotEnoughWorkers(|available|);
    }
    var selected := SelectReviewers(RichestFirst(available), n);
    if |selected| < n {
      return NotDistinct(|selected|);
    }
    var scores := [];
    for i := 0 to |selected|
      invariant |scores| == i && forall j :: 0 <= j < i ==> scores[j] == ScoreOf(answer(selected[j]))
    {
      scores := scores + [ScoreOf(answer(selected[i]))];
    }
    assert scores == Scores(selected, answer);
    var consensus := Median(scores);
    if consensus >= t {
      return Reviewed(true, consensus, scores, None);
    }
    var recommended := Recommend(available, selected, scores, t);
    return Reviewed(false, consensus, scores, recommended);
  }

  method Recommend(available: seq<Worker>, selected: seq<Worker>, scores: seq<real>, t: real)
    returns (r: Option<Worker>)
    requires |selected| == |scores|
    ensures Recommends(available, selected, scores, t, r)
  {
    var failing := FailingCaps(selected, scores, t);
    for i := 0 to |available|
      invariant forall j :: 0 <= j < i ==> !Unrelated(available[j], selected, scores, t)
    {
      var w := available[i];
      assert Unrelated(w, selected, scores, t) <==> !exists c :: c in w.caps && c in failing;
      if !exists c :: c in w.caps && c in failing {
        assert IsFirst(available, selected, scores, t, i);
        return Some(w);
      }
    }
    return None;
  }

  method FailingCaps(selected: seq<Worker>, scores: seq<real>, t: real) returns (failing: set<Cap>)
    requires |selected| == |scores|
    ensures forall w {:trigger Unrelated(w, selected, scores, t)} ::
      Unrelated(w, selected, scores, t) <==> !exists c :: c in w.caps && c in failing
  {
    failing := {};
    for i := 0 to |selected|
      invariant forall c :: c in failing <==> exists j :: 0 <= j < i && scores[j] < t && c in selected[j].caps
    {
      if scores[i] < t {
        failing := failing + (set c | c in selected[i].caps);
      }
    }
  }

  /** With an odd number of reviewers the result is passed exactly if a majority of them scored at or above the
      threshold, a failed reviewer counting as 0. */
  lemma VerdictIsMajority(available: seq<Worker>, t: real, n: int, answer: Worker -> Option<real>, r: ReviewResult)
    requires ReviewIs(available, t, n, answer, r) && r.Reviewed? && n > 0 && n % 2 == 1
    ensures |r.scores| == n && (r.passed <==> AtLeast(r.scores, t) >= (n + 1) / 2)
  {
    GreedyFacts(RichestFirst(available), n);
    MajorityDecides(r.scores, t);
  }

  /** A reviewer that reached the threshold with its answer; one that failed reaches no positive threshold. */
  predicate Approves(answer: Option<real>, t: real) {
    match answer
    case Some(score) => t <= score
    case None => t <= 0.0
  }

  /** How many of these reviewers approve. */
  function Approvals(selected: seq<Worker>, t: real, answer: Worker -> Option<real>): nat {
    if selected == [] then 0
    else Approvals(selected[..|selected| - 1], t, answer) +
         if Approves(answer(selected[|selected| - 1]), t) then 1 else 0
  }

  lemma {:induction false} ApprovalsCount(selected: seq<Worker>, t: real, answer: Worker -> Option<real>)
    ensures AtLeast(Scores(selected, answer), t) == Approvals(selected, t, answer)
  {
    if selected != [] {
      var n := |selected| - 1;
      ApprovalsCount(selected[..n], t, answer);
      assert Scores(selected, answer)[..n] == Scores(selected[..n], answer);
    }
  }

  /** The verdict over the answers: with an odd number of reviewers a review passes exactly if a majority of them
      approves. With an even number, more than half is enough and less than half is too little. */
  lemma AnswersDecide(available: seq<Worker>, t: real, n: int, answer: Worker -> Option<real>, r: ReviewResult)
    requires ReviewIs(available, t, n, answer, r) && r.Reviewed? && n > 0
    ensures Decides(Approvals(Greedy(RichestFirst(available), n), t, answer), n, r.passed)
  {
    var selected := Greedy(RichestFirst(available), n);
    assert |selected| == n by { GreedyFacts(RichestFirst(available), n); }
    ApprovalsCount(selected, t, answer);
    MedianDecides(r.scores, t);
  }

  predicate Decides(yes: nat, n: nat, passed: bool) {
    (n % 2 == 1 ==> (passed <==> 2 * yes > n)) && (2 * yes > n ==> passed) && (2 * yes < n ==> !passed)
  }

  lemma MedianDecides(scores: seq<real>, t: real)
    requires scores != []
    ensures Decides(AtLeast(scores, t), |scores|, Median(scores) >= t)
  {
    if |scores| % 2 == 1 {
      MajorityDecides(scores, t);
    } else {
      EvenScores(scores, t);
    }
  }

  /** x stands at position k of the scores in ascending order. */
  ghost predicate IsRanked(scores: seq<real>, k: nat, x: real) {
    forall t :: x >= t <==> AtLeast(scores, t) >= |scores| - k
  }

  lemma SortedIsRanked(scores: seq<real>, k: nat)
    requires k < |scores| == |Sort(scores)|
    ensures IsRanked(scores, k, Sort(scores)[k])
  {
    forall t ensures Sort(scores)[k] >= t <==> AtLeast(scores, t) >= |scores| - k {
      SortSorts(scores);
      SortCounts(scores, t);
      PositionCounts(Sort(scores), k, t);
    }
  }

  /** The consensus is the middle score, or the mean of the two middle ones. */
  lemma MedianIsMiddle(scores: seq<real>) returns (lo: real, hi: real)
    requires scores != []
    ensures IsRanked(scores, (|scores| - 1) / 2, lo) && IsRanked(scores, |scores| / 2, hi)
    ensures Median(scores) == (lo + hi) / 2.0
  {
    var sorted := Sort(scores);
    lo, hi := sorted[(|scores| - 1) / 2], sorted[|scores| / 2];
    SortedIsRanked(scores, (|scores| - 1) / 2);
    SortedIsRanked(scores, |scores| / 2);
  }

  /** Some reviewer scored below the threshold and has a capability of the worker. */
  ghost predicate Tainted(w: Worker, selected: seq<Worker>, scores: seq<real>, t: real)
    requires |selected| == |scores|
  {
    exists i, c :: 0 <= i < |selected| && scores[i] < t && c in w.caps && c in selected[i].caps
  }

  lemma TaintedIsRelated(w: Worker, selected: seq<Worker>, scores: seq<real>, t: real)
    requires |selected| == |scores|
    ensures Tainted(w, selected, scores, t) <==> !Unrelated(w, selected, scores, t)
  {
  }

  /** A review that has not passed recommends the first available worker that shares no capability with a reviewer below
      the threshold, and nobody exactly if every available worker shares one. */
  lemma RecommendedExactly(available: seq<Worker>, t: real, n: int, answer: Worker -> Option<real>, r: ReviewResult)
    requires ReviewIs(available, t, n, answer, r) && r.Reviewed? && !r.passed
    ensures var selected := Greedy(RichestFirst(available), n);
      && |selected| == |r.scores|
      && (r.recommended.None? <==> forall j :: 0 <= j < |available| ==> Tainted(available[j], selected, r.scores, t))
      && (r.recommended.Some? ==>
            exists k :: 0 <= k < |available| && available[k] == r.recommended.value
                        && !Tainted(available[k], selected, r.scores, t)
                        && forall j :: 0 <= j < k ==> Tainted(available[j], selected, r.scores, t))
  {
    var selected := Greedy(RichestFirst(available), n);
    forall w ensures Tainted(w, selected, r.scores, t) <==> !Unrelated(w, selected, r.scores, t) {
      TaintedIsRelated(w, selected, r.scores, t);
    }
    if r.recommended.Some? {
      var k :| 0 <= k < |available| && available[k] == r.recommended.value
        && IsFirst(available, selected, r.scores, t, k);
      assert !Tainted(available[k], selected, r.scores, t);
    }
  }

  /** A review by nobody comes to a consensus of 0. */
  lemma NoReviewers(available: seq<Worker>, t: real, n: int, answer: Worker -> Option<real>, r: ReviewResult)
    requires ReviewIs(available, t, n, answer, r) && n <= 0
    ensures r.Reviewed? && r.scores == [] && r.consensus == 0.0 && (r.passed <==> t <= 0.0)
  {
    GreedyFacts(RichestFirst(available), n);
  }

  /** The recommended worker shares no capability with a reviewer that scored below the threshold; in particular it is
      not one of them. */
  lemma RecommendedIsUnrelated(available: seq<Worker>, t: real, n: int, answer: Worker -> Option<real>,
                               r: ReviewResult, i: nat)
    requires ReviewIs(available, t, n, answer, r) && r.Reviewed? && r.recommended.Some?
    requires i < |r.scores| && r.scores[i] < t
    ensures var reviewer := Greedy(RichestFirst(available), n)[i];
      r.recommended.value in available && !Meets(r.recommended.value, reviewer) && r.recommended.value != reviewer
  {
    var selected := Greedy(RichestFirst(available), n);
    GreedyFacts(RichestFirst(available), n);
    assert BringsNew(selected, i);
    var c :| c in selected[i].caps && !HasCap(selected[..i], c);
  }

  /** The reviewers come from the pool, and a review that finds too few leaves no worker with a capability of
      its own. */
  lemma SelectionFromPool(available: seq<Worker>, n: int, w: Worker)
    ensures var selected := Greedy(RichestFirst(available), n);
      (w in selected ==> w in available) && (|selected| < n && w in available ==> Covered(w, selected))
  {
    SortMembers(available, w);
    GreedyFacts(RichestFirst(available), n);
    if |Greedy(RichestFirst(available), n)| < n {
      TooFewMeansCovered(RichestFirst(available), n);
    }
  }
}
