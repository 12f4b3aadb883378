/** The heuristic planner that produces the graphs: whatever the messages are, its plan is a proper DAG
    of at most two stages, with the first intent alone in front. */
module SimplePlan {
  import opened Dag
  import opened Stages

  datatype Message = Message(role: string, content: string)

  /** The text operations the planner uses: both regular expressions and trimming. */
  datatype TextOps =
    TextOps(hasConjunction: string -> bool, splitOnConjunction: string -> seq<string>, trim: string -> string)

  function UserContents(messages: seq<Message>): seq<string> {
    if messages == [] then []
    else UserContents(messages[..|messages| - 1]) +
         var last := messages[|messages| - 1]; if last.role == "user" then [last.content] else []
  }

  function TrimAll(parts: seq<string>, ops: TextOps): seq<string> {
    if parts == [] then []
    else TrimAll(parts[..|parts| - 1], ops) +
         var t := ops.trim(parts[|parts| - 1]); if t != "" then [t] else []
  }

  /** The intents of a multi-intent request; at most one means the request stays whole. */
  function Intents(messages: seq<Message>, ops: TextOps): seq<string> {
    var users := UserContents(messages);
    var last := if users == [] then "" else users[|users| - 1];
    if |users| < 2 && !ops.hasConjunction(last) then []
    else if |users| >= 2 then TrimAll(users, ops)
    else TrimAll(ops.splitOnConjunction(last), ops)
  }

  function Decimal(n: nat): (s: string)
    ensures |s| >= 1 && (|s| >= 2 <==> n >= 10)
  {
    if n < 10 then ["0123456789"[n]] else Decimal(n / 10) + ["0123456789"[n % 10]]
  }

  function NodeId(i: nat): Id {
    Id("n" + Decimal(i))
  }

  /** SimpleDAGPlanner.plan: one node for a single intent, else one per intent, all but the first
      depending on the first. */
  function Plan(messages: seq<Message>, ops: TextOps): seq<Node> {
    var intents := Intents(messages, ops);
    if |intents| <= 1 then [Node(NodeId(0), [])] else Star(|intents|)
  }

  function Star(n: nat): seq<Node> {
    seq(n, i requires 0 <= i < n => Node(NodeId(i), if i == 0 then [] else [NodeId(0)]))
  }

  lemma {:induction false} DecimalInjective(a: nat, b: nat)
    requires Decimal(a) == Decimal(b)
    ensures a == b
  {
    var digits := "0123456789";
    assert forall i, j :: 0 <= i < j < 10 ==> digits[i] != digits[j];
    if a >= 10 {
      var da, db := Decimal(a / 10), Decimal(b / 10);
      var m := |da|;
      assert Decimal(a) == da + [digits[a % 10]] && Decimal(b) == db + [digits[b % 10]];
      assert |db| == m;
      assert Decimal(a)[m] == Decimal(b)[m];
      assert da == Decimal(a)[..m] == Decimal(b)[..m] == db;
      DecimalInjective(a / 10, b / 10);
    }
  }

  lemma NodeIdInjective(i: nat, j: nat)
    requires NodeId(i) == NodeId(j)
    ensures i == j
  {
    assert Decimal(i) == ("n" + Decimal(i))[1..] == ("n" + Decimal(j))[1..] == Decimal(j);
    DecimalInjective(i, j);
  }

  lemma StarIsWellFormed(n: nat)
    requires n >= 1
    ensures UniqueIds(Star(n)) && DepsKnown(Star(n))
    ensures forall i: nat :: i < n ==> DepsOf(DepMap(Star(n)), NodeId(i)) == if i == 0 then [] else [NodeId(0)]
  {
    var nodes := Star(n);
    forall i, j | 0 <= i < j < n ensures nodes[i].id != nodes[j].id {
      if nodes[i].id == nodes[j].id { NodeIdInjective(i, j); }
    }
    assert nodes[0].id in Ids(nodes);
    forall i: nat | i < n ensures DepsOf(DepMap(nodes), NodeId(i)) == if i == 0 then [] else [NodeId(0)] {
      DepMapIsLastWins(nodes, i);
    }
  }

  /** The plan as an order: any plan lists its nodes with dependencies first already. */
  lemma PlanOrder(n: nat)
    requires n >= 1
    ensures DepsFirst(DepMap(Star(n)), StageIds(Star(n))) && ToSet(StageIds(Star(n))) == Ids(Star(n))
  {
    var nodes, order, adj := Star(n), StageIds(Star(n)), DepMap(Star(n));
    StarIsWellFormed(n);
    forall i | 0 <= i < n ensures DepsBefore(adj, order, i) {
      assert order[i] == NodeId(i);
      if i > 0 { assert order[..i][0] == NodeId(0); }
    }
    forall i | 0 <= i < n ensures nodes[i].id in ToSet(order) { assert order[i] == nodes[i].id; }
  }

  /** Every plan passes the cycle test and the stage computation, and needs at most two stages. */
  lemma PlanIsDag(messages: seq<Message>, ops: TextOps)
    ensures UniqueIds(Plan(messages, ops)) && DepsKnown(Plan(messages, ops))
    ensures !Cyclic(DepMap(Plan(messages, ops)))
    ensures forall stages :: IsStaging(Plan(messages, ops), stages) ==>
      1 <= |stages| <= 2 && StageIds(stages[0]) == [NodeId(0)]
  {
    var n := if |Intents(messages, ops)| <= 1 then 1 else |Intents(messages, ops)|;
    assert Plan(messages, ops) == Star(n);
    StarIsWellFormed(n);
    PlanOrder(n);
    DepMapKeys(Star(n));
    OrderedIsAcyclic(DepMap(Star(n)), StageIds(Star(n)));
    forall stages | IsStaging(Star(n), stages) ensures 1 <= |stages| <= 2 && StageIds(stages[0]) == [NodeId(0)] {
      StarStages(n, stages);
    }
  }

  lemma StarStages(n: nat, stages: seq<seq<Node>>)
    requires n >= 1 && IsStaging(Star(n), stages)
    ensures 1 <= |stages| <= 2 && StageIds(stages[0]) == [NodeId(0)]
  {
    var nodes := Star(n);
    StarIsWellFormed(n);
    assert nodes[0].id in Ids(nodes);
    FlatMembers(stages, NodeId(0));
    var round := map x | x in Ids(nodes) :: if x == NodeId(0) then 0 else 1;
    StarRounds(n, round);
    FewestStages(nodes, stages, round, 2);
    FirstStage(n, stages);
  }

  lemma StarRounds(n: nat, round: map<Id, nat>)
    requires n >= 1 && round == map x | x in Ids(Star(n)) :: if x == NodeId(0) then 0 else 1
    ensures ValidRounds(Star(n), round, 2)
  {
    StarIsWellFormed(n);
    var nodes := Star(n);
    assert nodes[0].id in Ids(nodes);
    forall x, d | x in round && d in DepsOf(DepMap(nodes), x) ensures d in round && round[d] < round[x] {
      var i :| 0 <= i < n && nodes[i].id == x;
      NodeIdOnly0(i);
    }
  }

  lemma NodeIdOnly0(i: nat)
    ensures NodeId(i) == NodeId(0) <==> i == 0
  {
    if NodeId(i) == NodeId(0) { NodeIdInjective(i, 0); }
  }

  /** Only n0 has no dependency, so it is all of the first stage. */
  lemma FirstStage(n: nat, stages: seq<seq<Node>>)
    requires n >= 1 && IsStaging(Star(n), stages) && |stages| >= 1
    ensures StageIds(stages[0]) == [NodeId(0)]
  {
    var nodes, first := Star(n), StageIds(stages[0]);
    StarIsWellFormed(n);
    forall k | 0 <= k < |first| ensures first[k] == NodeId(0) {
      assert InStage(stages, 0, first[k]);
      assert WellPlaced(DepMap(nodes), stages, 0, first[k]);
      FlatMembers(stages, first[k]);
      assert first[k] in ToSet(FlatIds(stages));
      var i :| 0 <= i < n && nodes[i].id == first[k];
      var root := NodeId(0);
      assert root in DepsOf(DepMap(nodes), nodes[i].id) || i == 0;
    }
    FirstIsPrefix(stages);
    SingleValue(first, FlatIds(stages), NodeId(0));
  }

  lemma SingleValue(p: seq<Id>, s: seq<Id>, x: Id)
    requires p != [] && p <= s && NoDup(s)
    requires forall k :: 0 <= k < |p| ==> p[k] == x
    ensures p == [x]
  {
    var k := |p| - 1;
    assert s[k] == p[k] == p[0] == s[0];
  }

  lemma {:induction false} FirstIsPrefix(stages: seq<seq<Node>>)
    requires stages != []
    ensures StageIds(stages[0]) <= FlatIds(stages)
  {
    if |stages| > 1 {
      FirstIsPrefix(stages[..|stages| - 1]);
    } else {
      assert FlatIds(stages) == [] + StageIds(stages[0]);
    }
  }

  // ---- The size of a plan ----

  /** How many messages are the user's, and how many of those say anything. */
  function Asked(messages: seq<Message>): nat {
    if messages == [] then 0
    else Asked(messages[..|messages| - 1]) + if messages[|messages| - 1].role == "user" then 1 else 0
  }

  function Spoken(messages: seq<Message>, ops: TextOps): nat {
    if messages == [] then 0
    else
      var last := messages[|messages| - 1];
      Spoken(messages[..|messages| - 1], ops) + if last.role == "user" && ops.trim(last.content) != "" then 1 else 0
  }

  /** How many of these texts say anything. */
  function Parts(texts: seq<string>, ops: TextOps): nat {
    if texts == [] then 0
    else Parts(texts[..|texts| - 1], ops) + if ops.trim(texts[|texts| - 1]) != "" then 1 else 0
  }

  function OneOrMore(n: nat): nat {
    if n == 0 then 1 else n
  }

  lemma {:induction false} PartsLeft(texts: seq<string>, ops: TextOps)
    ensures |TrimAll(texts, ops)| == Parts(texts, ops)
  {
    if texts != [] {
      PartsLeft(texts[..|texts| - 1], ops);
    }
  }

  lemma {:induction false} UsersCount(messages: seq<Message>, ops: TextOps)
    ensures |UserContents(messages)| == Asked(messages)
    ensures Parts(UserContents(messages), ops) == Spoken(messages, ops)
  {
    if messages != [] {
      var front, last := messages[..|messages| - 1], messages[|messages| - 1];
      UsersCount(front, ops);
      assert (UserContents(front) + [last.content])[..|UserContents(front)|] == UserContents(front);
      assert UserContents(front) + [] == UserContents(front);
    }
  }

  lemma {:induction false} UserIsListed(messages: seq<Message>, k: nat)
    requires k < |messages| && messages[k].role == "user"
    ensures messages[k].content in UserContents(messages)
  {
    if k < |messages| - 1 {
      UserIsListed(messages[..|messages| - 1], k);
    }
  }

  /** With two or more user messages the plan has a node for each that says anything, and at least one node. With one,
      it has a node for each part of the message that says anything if the message has a conjunction, and one node
      otherwise; with none, the same holds of the empty text. */
  lemma PlanSize(messages: seq<Message>, ops: TextOps, content: string)
    requires Asked(messages) == 0 ==> content == ""
    requires Asked(messages) == 1 ==> exists k :: 0 <= k < |messages| && messages[k] == Message("user", content)
    ensures Asked(messages) >= 2 ==> |Plan(messages, ops)| == OneOrMore(Spoken(messages, ops))
    ensures Asked(messages) < 2 ==>
      |Plan(messages, ops)|
        == if ops.hasConjunction(content) then OneOrMore(Parts(ops.splitOnConjunction(content), ops)) else 1
  {
    UsersCount(messages, ops);
    PartsLeft(UserContents(messages), ops);
    PartsLeft(ops.splitOnConjunction(content), ops);
    if Asked(messages) == 1 {
      var k :| 0 <= k < |messages| && messages[k] == Message("user", content);
      UserIsListed(messages, k);
      assert UserContents(messages) == [content];
    }
  }
}
