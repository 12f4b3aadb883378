/** The failover engine: providers are tried in order, and one that fails with certain statuses is left alone for a
    while. Requests on one engine do not overlap, and the clock does not go back. */
module Failover {
  import opened Options
  import opened Providers

  datatype Response = Stream | Reply(content: string)

  /** What a try block can throw: a ProviderError with its status, or anything else. */
  datatype Problem = ProviderError(status: int) | OtherError(text: string)

  datatype CallOutcome = Answered(response: Response) | CallThrew(problem: Problem)

  datatype HealOutcome = Healed(response: Response) | NotHealed | HealThrew(problem: Problem)

  /** All the world contributes to one entry of the array: the clock when the entry is looked at, when the provider is
      called and when that call ends, and the answers of the circuit breaker, the vault, the registry, the provider
      and the healer. */
  datatype Probe = Probe(checkedAt: int, calledAt: int, endedAt: int, refused: Option<string>, hasKey: bool,
                         known: bool, call: CallOutcome, heal: HealOutcome)

  datatype Reason =
    | CoolingDown | Refused(why: string) | NoKey | UnknownProvider
    | RateLimited | Forbidden | ServerError | InvalidKey | Http(status: int) | Thrown(text: string)

  datatype Failure = Failure(provider: Provider, status: Option<int>, reason: Reason)

  datatype RouteResult = RouteSuccess(provider: Provider, response: Response) | RouteFailure(failures: seq<Failure>)

  const COOLDOWN_429 := 60_000
  const COOLDOWN_403 := 300_000
  const COOLDOWN_SERVER := 30_000

  /** For how long a provider is left alone after a call that ended with this status. */
  function Penalty(status: Option<int>): nat {
    if status == Some(429) then COOLDOWN_429
    else if status == Some(403) then COOLDOWN_403
    else if status == Some(500) || status == Some(503) then COOLDOWN_SERVER
    else 0
  }

  // ---- Entries ----

  function SlashIndex(entry: string): (i: nat)
    ensures i <= |entry| && '/' !in entry[..i] && (i < |entry| ==> entry[i] == '/')
  {
    if entry == "" || entry[0] == '/' then 0 else 1 + SlashIndex(entry[1..])
  }

  /** "provider/model", split at the first slash; without one the model asked for is used. */
  function ParseEntry(entry: string, model: string): (r: (Provider, string))
    ensures '/' !in r.0.id
    ensures entry == r.0.id + "/" + r.1 || (entry == r.0.id && r.1 == model)
  {
    var i := SlashIndex(entry);
    if i == |entry| then (Provider(entry), model) else (Provider(entry[..i]), entry[i + 1..])
  }

  // ---- One visit ----

  /** A call that was made; `status` is that of the ProviderError it ended with. */
  datatype Call = Call(provider: Provider, calledAt: int, endedAt: int, status: Option<int>)

  /** The engine with the calls made so far and the latest time at which it read the clock. */
  datatype State = State(cooldowns: map<Provider, int>, calls: seq<Call>, clock: int)

  datatype Verdict = PassedOver(failure: Failure) | Served(response: Response)

  function Fresh(start: int): State {
    State(map[], [], start)
  }

  predicate InCooldown(s: State, p: Provider, now: int) {
    p in s.cooldowns && now < s.cooldowns[p]
  }

  /** isInCooldown drops an entry that has run out. */
  function Look(s: State, p: Provider, now: int): State {
    s.(cooldowns := if InCooldown(s, p, now) then s.cooldowns else s.cooldowns - {p}, clock := now)
  }

  predicate IsMalformed(r: Response) {
    r.Reply? && r.content == ""
  }

  /** The try block: an empty non-streaming answer may be replaced by a healed one, and healing may itself throw. */
  function Attempt(probe: Probe, stream: bool): CallOutcome {
    match probe.call
    case CallThrew(_) => probe.call
    case Answered(r) =>
      if !stream && IsMalformed(r) then
        match probe.heal
        case Healed(better) => Answered(better)
        case NotHealed => Answered(r)
        case HealThrew(problem) => CallThrew(problem)
      else Answered(r)
  }

  function ReasonOf(problem: Problem): Reason {
    match problem
    case OtherError(text) => Thrown(text)
    case ProviderError(status) =>
      if status == 429 then RateLimited
      else if status == 403 then Forbidden
      else if status == 500 || status == 503 then ServerError
      else if status == 401 then InvalidKey
      else Http(status)
  }

  function StatusOf(problem: Problem): Option<int> {
    match problem
    case ProviderError(status) => Some(status)
    case OtherError(_) => None
  }

  /** Why an entry is passed over without a call, if it is. */
  function Skipped(s: State, p: Provider, probe: Probe): Option<Reason> {
    if InCooldown(s, p, probe.checkedAt) then Some(CoolingDown)
    else if probe.refused.Some? then Some(Refused(probe.refused.value))
    else if !probe.hasKey then Some(NoKey)
    else if !probe.known then Some(UnknownProvider)
    else None
  }

  function AfterCall(s: State, p: Provider, probe: Probe, status: Option<int>): State {
    var s := s.(calls := s.calls + [Call(p, probe.calledAt, probe.endedAt, status)], clock := probe.endedAt);
    if Penalty(status) == 0 then s else s.(cooldowns := s.cooldowns[p := probe.endedAt + Penalty(status)])
  }

  function Visit(s: State, p: Provider, probe: Probe, stream: bool): (State, Verdict) {
    var looked := Look(s, p, probe.checkedAt);
    match Skipped(s, p, probe)
    case Some(reason) => (looked, PassedOver(Failure(p, None, reason)))
    case None =>
      match Attempt(probe, stream)
      case Answered(r) => (AfterCall(looked, p, probe, None), Served(r))
      case CallThrew(problem) =>
        (AfterCall(looked, p, probe, StatusOf(problem)), PassedOver(Failure(p, StatusOf(problem), ReasonOf(problem))))
  }

  // ---- What holds at every moment ----

  /** The call keeps its provider from being called at that time. */
  ghost predicate Blocks(c: Call, p: Provider, now: int) {
    c.provider == p && Penalty(c.status) > 0 && now < c.endedAt + Penalty(c.status)
  }

  ghost predicate Blocked(calls: seq<Call>, p: Provider, now: int) {
    exists i :: 0 <= i < |calls| && Blocks(calls[i], p, now)
  }

  ghost predicate EndedBy(calls: seq<Call>, clock: int) {
    forall i :: 0 <= i < |calls| ==> calls[i].endedAt <= clock
  }

  /** From the clock on, the map says exactly what the calls made so far say. */
  ghost predicate Mirrors(s: State) {
    forall p, now {:trigger InCooldown(s, p, now)} ::
      now >= s.clock ==> (InCooldown(s, p, now) <==> Blocked(s.calls, p, now))
  }

  /** The later call respects the cooldown that the earlier one brought. */
  ghost predicate Respects(earlier: Call, later: Call) {
    earlier.provider == later.provider ==> later.calledAt >= earlier.endedAt + Penalty(earlier.status)
  }

  ghost predicate AllRespected(calls: seq<Call>) {
    forall i, j :: 0 <= i < j < |calls| ==> Respects(calls[i], calls[j])
  }

  ghost predicate Valid(s: State) {
    EndedBy(s.calls, s.clock) && Mirrors(s) && AllRespected(s.calls)
  }

  /** The clock of a probe does not go back. */
  predicate InTime(s: State, probe: Probe) {
    s.clock <= probe.checkedAt <= probe.calledAt <= probe.endedAt
  }

  lemma LookMirrors(s: State, p: Provider, now: int)
    requires Mirrors(s) && s.clock <= now
    ensures Mirrors(Look(s, p, now))
  {
    var s' := Look(s, p, now);
    forall q, t | t >= now ensures InCooldown(s', q, t) <==> Blocked(s'.calls, q, t) {
      assert InCooldown(s', q, t) <==> InCooldown(s, q, t);
    }
  }

  lemma BlockedGrows(calls: seq<Call>, c: Call, p: Provider, now: int)
    ensures Blocked(calls + [c], p, now) <==> Blocked(calls, p, now) || Blocks(c, p, now)
  {
    if Blocked(calls, p, now) {
      var i :| 0 <= i < |calls| && Blocks(calls[i], p, now);
      assert (calls + [c])[i] == calls[i];
    }
    if Blocks(c, p, now) {
      assert (calls + [c])[|calls|] == c;
    }
    if Blocked(calls + [c], p, now) {
      var i :| 0 <= i < |calls + [c]| && Blocks((calls + [c])[i], p, now);
      assert i < |calls| ==> calls[i] == (calls + [c])[i];
    }
  }

  lemma CallMirrors(s: State, p: Provider, probe: Probe, status: Option<int>)
    requires Mirrors(s) && s.clock <= probe.endedAt && !Blocked(s.calls, p, probe.endedAt)
    ensures Mirrors(AfterCall(s, p, probe, status))
  {
    var s' := AfterCall(s, p, probe, status);
    forall q, t | t >= probe.endedAt ensures InCooldown(s', q, t) <==> Blocked(s'.calls, q, t) {
      BlockedGrows(s.calls, Call(p, probe.calledAt, probe.endedAt, status), q, t);
      assert InCooldown(s, q, t) <==> Blocked(s.calls, q, t);
      if q == p {
        StaysUnblocked(s.calls, p, probe.endedAt, t);
      }
    }
  }

  lemma StaysUnblocked(calls: seq<Call>, p: Provider, now: int, later: int)
    requires !Blocked(calls, p, now) && now <= later
    ensures !Blocked(calls, p, later)
  {
    forall i | 0 <= i < |calls| ensures !Blocks(calls[i], p, later) {
      assert !Blocks(calls[i], p, now);
    }
  }

  lemma CallRespects(s: State, p: Provider, probe: Probe, status: Option<int>)
    requires AllRespected(s.calls) && EndedBy(s.calls, probe.calledAt) && !Blocked(s.calls, p, probe.calledAt)
    ensures AllRespected(AfterCall(s, p, probe, status).calls)
  {
    var c := Call(p, probe.calledAt, probe.endedAt, status);
    forall i | 0 <= i < |s.calls| ensures Respects(s.calls[i], c) {
      assert !Blocks(s.calls[i], p, probe.calledAt);
    }
  }

  lemma VisitValid(s: State, p: Provider, probe: Probe, stream: bool)
    requires Valid(s) && InTime(s, probe)
    ensures var s' := Visit(s, p, probe, stream).0; Valid(s') && s.clock <= s'.clock
  {
    var looked := Look(s, p, probe.checkedAt);
    LookMirrors(s, p, probe.checkedAt);
    if Skipped(s, p, probe).None? {
      assert !InCooldown(s, p, probe.checkedAt);
      StaysUnblocked(s.calls, p, probe.checkedAt, probe.calledAt);
      StaysUnblocked(s.calls, p, probe.checkedAt, probe.endedAt);
      var status := match Attempt(probe, stream) case Answered(_) => None case CallThrew(problem) => StatusOf(problem);
      CallMirrors(looked, p, probe, status);
      CallRespects(looked, p, probe, status);
    }
  }

  // ---- A request ----

  datatype Request = Request(providers: seq<string>, model: string, stream: bool, probes: seq<Probe>)

  predicate Matched(req: Request) {
    |req.providers| == |req.probes|
  }

  function ProviderAt(req: Request, k: nat): Provider
    requires k < |req.providers|
  {
    ParseEntry(req.providers[k], req.model).0
  }

  function VisitAt(s: State, req: Request, k: nat): (State, Verdict)
    requires Matched(req) && k < |req.providers|
  {
    Visit(s, ProviderAt(req, k), req.probes[k], req.stream)
  }

  /** The engine after the first k entries. */
  function StateAt(s: State, req: Request, k: nat): State
    requires Matched(req) && k <= |req.providers|
  {
    if k == 0 then s else VisitAt(StateAt(s, req, k - 1), req, k - 1).0
  }

  function VerdictAt(s: State, req: Request, k: nat): Verdict
    requires Matched(req) && k < |req.providers|
  {
    VisitAt(StateAt(s, req, k), req, k).1
  }

  /** The entries before k were all passed over, with these failures in this order. */
  ghost predicate PassedBefore(s: State, req: Request, k: nat, failures: seq<Failure>)
    requires Matched(req) && k <= |req.providers|
  {
    |failures| == k && forall j {:trigger failures[j]} :: 0 <= j < k ==> VerdictAt(s, req, j) == PassedOver(failures[j])
  }

  lemma PassedGrows(s: State, req: Request, k: nat, failures: seq<Failure>, failure: Failure)
    requires Matched(req) && k < |req.providers|
    requires PassedBefore(s, req, k, failures) && VerdictAt(s, req, k) == PassedOver(failure)
    ensures PassedBefore(s, req, k + 1, failures + [failure])
  {
    var grown := failures + [failure];
    forall j | 0 <= j < k + 1 ensures VerdictAt(s, req, j) == PassedOver(grown[j]) {
      assert j < k ==> grown[j] == failures[j];
    }
  }

  lemma PassedAll(s: State, req: Request, k: nat, failures: seq<Failure>)
    requires Matched(req) && k <= |req.providers| && PassedBefore(s, req, k, failures)
    ensures forall j :: 0 <= j < k ==> VerdictAt(s, req, j).PassedOver?
  {
    forall j | 0 <= j < k ensures VerdictAt(s, req, j).PassedOver? {
      assert VerdictAt(s, req, j) == PassedOver(failures[j]);
    }
  }

  /** The answer of a request and the number of entries it visited. */
  ghost predicate Answers(s: State, req: Request, result: RouteResult, visited: nat)
    requires Matched(req) && visited <= |req.providers|
  {
    match result
    case RouteFailure(failures) => visited == |req.providers| && PassedBefore(s, req, visited, failures)
    case RouteSuccess(provider, response) =>
      && visited > 0 && provider == ProviderAt(req, visited - 1) && VerdictAt(s, req, visited - 1) == Served(response)
      && forall j :: 0 <= j < visited - 1 ==> VerdictAt(s, req, j).PassedOver?
  }

  /** A request stops after its first entry that serves, or after its last one. */
  ghost predicate Stops(s: State, req: Request, visited: nat) {
    && Matched(req) && visited <= |req.providers|
    && (visited == |req.providers| || (visited > 0 && VerdictAt(s, req, visited - 1).Served?))
    && forall j :: 0 <= j < visited - 1 ==> VerdictAt(s, req, j).PassedOver?
  }

  lemma AnsweredWhenStopped(s: State, req: Request, result: RouteResult, visited: nat)
    requires Matched(req) && visited <= |req.providers| && Answers(s, req, result, visited)
    ensures Stops(s, req, visited)
  {
    if result.RouteFailure? {
      PassedAll(s, req, visited, result.failures);
    }
  }

  ghost predicate TimelyAt(s: State, req: Request, k: nat)
    requires Matched(req) && k < |req.providers|
  {
    InTime(StateAt(s, req, k), req.probes[k])
  }

  ghost predicate Timely(s: State, req: Request) {
    Matched(req) && forall k {:trigger TimelyAt(s, req, k)} :: 0 <= k < |req.providers| ==> TimelyAt(s, req, k)
  }

  lemma {:induction false} RequestValid(s: State, req: Request, k: nat)
    requires Valid(s) && Timely(s, req) && k <= |req.providers|
    ensures Valid(StateAt(s, req, k))
  {
    if k > 0 {
      RequestValid(s, req, k - 1);
      assert TimelyAt(s, req, k - 1);
      VisitValid(StateAt(s, req, k - 1), ProviderAt(req, k - 1), req.probes[k - 1], req.stream);
    }
  }

  /** What makes an entry usable, told from the calls made so far and not from the map. */
  ghost predicate Usable(calls: seq<Call>, p: Provider, probe: Probe, stream: bool) {
    && !Blocked(calls, p, probe.checkedAt) && probe.refused.None? && probe.hasKey && probe.known
    && Attempt(probe, stream).Answered?
  }

  ghost predicate UsableAt(s: State, req: Request, k: nat)
    requires Matched(req) && k < |req.providers|
  {
    Usable(StateAt(s, req, k).calls, ProviderAt(req, k), req.probes[k], req.stream)
  }

  lemma ServedIfUsable(s: State, req: Request, k: nat)
    requires Valid(s) && Timely(s, req) && k < |req.providers|
    ensures VerdictAt(s, req, k).Served? <==> UsableAt(s, req, k)
    ensures VerdictAt(s, req, k).Served? ==>
      Attempt(req.probes[k], req.stream) == Answered(VerdictAt(s, req, k).response)
    ensures VerdictAt(s, req, k).PassedOver? ==> VerdictAt(s, req, k).failure.provider == ProviderAt(req, k)
  {
    RequestValid(s, req, k);
    var before, p, probe := StateAt(s, req, k), ProviderAt(req, k), req.probes[k];
    assert TimelyAt(s, req, k);
    assert InCooldown(before, p, probe.checkedAt) <==> Blocked(before.calls, p, probe.checkedAt);
  }

  /** A request is answered by the first usable provider, and fails exactly if there is none; then it lists one failure
      for every entry, in order. */
  lemma FirstUsableAnswers(s: State, req: Request, result: RouteResult, visited: nat)
    requires Valid(s) && Timely(s, req) && visited <= |req.providers| && Answers(s, req, result, visited)
    ensures result.RouteFailure? <==> forall k :: 0 <= k < |req.providers| ==> !UsableAt(s, req, k)
    ensures result.RouteFailure? ==> |result.failures| == |req.providers|
    ensures result.RouteFailure? ==>
      forall k :: 0 <= k < |req.providers| ==> result.failures[k].provider == ProviderAt(req, k)
    ensures result.RouteSuccess? ==> visited > 0 && UsableAt(s, req, visited - 1)
    ensures result.RouteSuccess? ==> Attempt(req.probes[visited - 1], req.stream) == Answered(result.response)
    ensures result.RouteSuccess? ==> forall k :: 0 <= k < visited - 1 ==> !UsableAt(s, req, k)
  {
    forall k | 0 <= k < |req.providers|
      ensures VerdictAt(s, req, k).Served? <==> UsableAt(s, req, k)
      ensures VerdictAt(s, req, k).PassedOver? ==> VerdictAt(s, req, k).failure.provider == ProviderAt(req, k)
    {
      ServedIfUsable(s, req, k);
    }
    if result.RouteSuccess? {
      ServedIfUsable(s, req, visited - 1);
    } else {
      forall k | 0 <= k < |req.providers| ensures VerdictAt(s, req, k) == PassedOver(result.failures[k]) {
        var failure := result.failures[k];
      }
    }
  }

  // ---- Runs ----

  function Prune(s: State, now: int): State {
    s.(cooldowns := map p | p in s.cooldowns && now < s.cooldowns[p] :: s.cooldowns[p], clock := now)
  }

  lemma PruneMirrors(s: State, now: int)
    requires Mirrors(s) && s.clock <= now
    ensures Mirrors(Prune(s, now))
  {
    forall q, t | t >= now ensures InCooldown(Prune(s, now), q, t) <==> Blocked(s.calls, q, t) {
      assert InCooldown(Prune(s, now), q, t) <==> InCooldown(s, q, t);
    }
  }

  /** What is done with one engine; for a request, with the number of entries it gets to visit. */
  datatype Op = Route(req: Request, visited: nat) | Ask(provider: Provider, now: int) | List(now: int)

  ghost predicate Legal(s: State, op: Op) {
    match op
    case Route(req, visited) => Timely(s, req) && Stops(s, req, visited)
    case Ask(_, now) => s.clock <= now
    case List(now) => s.clock <= now
  }

  ghost function Apply(s: State, op: Op): State
    requires Legal(s, op)
  {
    match op
    case Route(req, visited) => StateAt(s, req, visited)
    case Ask(p, now) => Look(s, p, now)
    case List(now) => Prune(s, now)
  }

  ghost predicate LegalRun(s: State, ops: seq<Op>)
    decreases |ops|
  {
    ops == [] || (Legal(s, ops[0]) && LegalRun(Apply(s, ops[0]), ops[1..]))
  }

  ghost function Run(s: State, ops: seq<Op>): State
    requires LegalRun(s, ops)
    decreases |ops|
  {
    if ops == [] then s else Run(Apply(s, ops[0]), ops[1..])
  }

  lemma ApplyValid(s: State, op: Op)
    requires Valid(s) && Legal(s, op)
    ensures Valid(Apply(s, op))
  {
    match op
    case Route(req, visited) => RequestValid(s, req, visited);
    case Ask(p, now) => LookMirrors(s, p, now);
    case List(now) => PruneMirrors(s, now);
  }

  lemma {:induction false} RunValid(s: State, ops: seq<Op>)
    requires Valid(s) && LegalRun(s, ops)
    ensures Valid(Run(s, ops))
    decreases |ops|
  {
    if ops != [] {
      ApplyValid(s, ops[0]);
      RunValid(Apply(s, ops[0]), ops[1..]);
    }
  }

  /** Over every run of requests and queries on a fresh engine, no provider is called again before its cooldown is over,
      and isInCooldown says exactly what the calls made so far imply, whatever has been pruned. */
  lemma CooldownsAreKept(start: int, ops: seq<Op>, p: Provider, now: int)
    requires LegalRun(Fresh(start), ops)
    ensures var s := Run(Fresh(start), ops);
      AllRespected(s.calls) && (now >= s.clock ==> (InCooldown(s, p, now) <==> Blocked(s.calls, p, now)))
  {
    RunValid(Fresh(start), ops);
  }

  // ---- The engine object ----

  class FailoverEngine {
    var cooldowns: map<Provider, int>
    ghost var calls: seq<Call>
    ghost var clock: int

    ghost function View(): State
      reads this
    {
      State(cooldowns, calls, clock)
    }

    constructor (ghost start: int)
      ensures View() == Fresh(start) && Valid(View())
    {
      cooldowns := map[];
      calls, clock := [], start;
    }

    method IsInCooldown(p: Provider, now: int) returns (answer: bool)
      requires Valid(View()) && clock <= now
      modifies this
      ensures View() == Look(old(View()), p, now) && Valid(View())
      ensures answer <==> Blocked(calls, p, now)
    {
      LookMirrors(View(), p, now);
      assert InCooldown(View(), p, now) <==> Blocked(calls, p, now);
      clock := now;
      if p !in cooldowns {
        return false;
      }
      if now >= cooldowns[p] {
        cooldowns := cooldowns - {p};
        return false;
      }
      return true;
    }

    method GetCooldowns(now: int) returns (active: map<Provider, int>)
      requires Valid(View()) && clock <= now
      modifies this
      ensures View() == Prune(old(View()), now) && Valid(View()) && active == cooldowns
      ensures forall p :: p in active <==> Blocked(calls, p, now)
    {
      PruneMirrors(View(), now);
      cooldowns := map p | p in cooldowns && now < cooldowns[p] :: cooldowns[p];
      clock := now;
      assert forall p :: InCooldown(View(), p, now) <==> p in cooldowns;
      return cooldowns;
    }

    method SetCooldown(p: Provider, durationMs: nat, now: int)
      modifies this`cooldowns
      ensures cooldowns == old(cooldowns)[p := now + durationMs]
    {
      cooldowns := cooldowns[p := now + durationMs];
    }

    /** One entry of the array, tried: None to go on with the next one. */
    method TryEntry(p: Provider, probe: Probe, stream: bool) returns (verdict: Verdict)
      requires Valid(View()) && InTime(View(), probe)
      modifies this
      ensures (View(), verdict) == Visit(old(View()), p, probe, stream)
    {
      var cooling := IsInCooldown(p, probe.checkedAt);
      if cooling {
        return PassedOver(Failure(p, None, CoolingDown));
      }
      if probe.refused.Some? {
        return PassedOver(Failure(p, None, Refused(probe.refused.value)));
      }
      if !probe.hasKey {
        return PassedOver(Failure(p, None, NoKey));
      }
      if !probe.known {
        return PassedOver(Failure(p, None, UnknownProvider));
      }
      var outcome := Attempt(probe, stream);
      clock := probe.endedAt;
      ghost var ended := if outcome.CallThrew? then StatusOf(outcome.problem) else None;
      calls := calls + [Call(p, probe.calledAt, probe.endedAt, ended)];
      match outcome
      case Answered(response) => return Served(response);
      case CallThrew(OtherError(text)) => return PassedOver(Failure(p, None, Thrown(text)));
      case CallThrew(ProviderError(status)) =>
        if status == 429 {
          SetCooldown(p, COOLDOWN_429, probe.endedAt);
          return PassedOver(Failure(p, Some(status), RateLimited));
        } else if status == 403 {
          SetCooldown(p, COOLDOWN_403, probe.endedAt);
          return PassedOver(Failure(p, Some(status), Forbidden));
        } else if status == 500 || status == 503 {
          SetCooldown(p, COOLDOWN_SERVER, probe.endedAt);
          return PassedOver(Failure(p, Some(status), ServerError));
        } else if status == 401 {
          return PassedOver(Failure(p, Some(status), InvalidKey));
        } else {
          return PassedOver(Failure(p, Some(status), Http(status)));
        }
    }

    method TryAt(ghost start: State, req: Request, i: nat) returns (verdict: Verdict)
      requires Matched(req) && i < |req.providers| && TimelyAt(start, req, i)
      requires Valid(View()) && View() == StateAt(start, req, i)
      modifies this
      ensures View() == StateAt(start, req, i + 1) && verdict == VerdictAt(start, req, i)
    {
      var (provider, name) := ParseEntry(req.providers[i], req.model);
      verdict := TryEntry(provider, req.probes[i], req.stream);
    }

    method RouteWithFailover(req: Request) returns (result: RouteResult, ghost visited: nat)
      requires Valid(View()) && Timely(View(), req)
      modifies this
      ensures Valid(View()) && visited <= |req.providers|
      ensures View() == StateAt(old(View()), req, visited) && Answers(old(View()), req, result, visited)
      ensures Legal(old(View()), Route(req, visited))
    {
      var failures: seq<Failure> := [];
      ghost var start := View();
      var i := 0;
      while i < |req.providers|
        invariant 0 <= i <= |req.providers|
        invariant Valid(View()) && View() == StateAt(start, req, i) && PassedBefore(start, req, i, failures)
      {
        assert TimelyAt(start, req, i);
        RequestValid(start, req, i + 1);
        var verdict := TryAt(start, req, i);
        if verdict.Served? {
          PassedAll(start, req, i, failures);
          AnsweredWhenStopped(start, req, RouteSuccess(ProviderAt(req, i), verdict.response), i + 1);
          return RouteSuccess(ProviderAt(req, i), verdict.response), i + 1;
        }
        PassedGrows(start, req, i, failures, verdict.failure);
        failures := failures + [verdict.failure];
        i := i + 1;
      }
      AnsweredWhenStopped(start, req, RouteFailure(failures), i);
      return RouteFailure(failures), i;
    }
  }
}
