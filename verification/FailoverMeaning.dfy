/** What a visit of the failover engine does, status by status and in milliseconds, and how long providers are left
    alone over whole runs. */
module FailoverMeaning {
  import opened Failover
  import opened Options
  import opened Providers

  /** For how many milliseconds a provider is left alone after a call that ended with this status: a minute when it was
      rate limited, five when it was forbidden, half a minute after a server error. */
  function Pause(status: Option<int>): nat {
    match status
    case None => 0
    case Some(code) =>
      if code == 429 then 60000
      else if code == 403 then 300000
      else if code in {500, 503} then 30000
      else 0
  }

  lemma PenaltyIsPause(status: Option<int>)
    ensures Penalty(status) == Pause(status)
  {
  }

  // ---- One visit ----

  /** A call of the provider that ended with this status, or without one. */
  ghost predicate Paused(c: Call, p: Provider, now: int) {
    c.provider == p && now < c.endedAt + Pause(c.status)
  }

  ghost predicate Resting(calls: seq<Call>, p: Provider, now: int) {
    exists i :: 0 <= i < |calls| && Paused(calls[i], p, now)
  }

  lemma RestingIsBlocked(calls: seq<Call>, p: Provider, now: int)
    requires EndedBy(calls, now)
    ensures Resting(calls, p, now) <==> Blocked(calls, p, now)
  {
    if Resting(calls, p, now) {
      var i :| 0 <= i < |calls| && Paused(calls[i], p, now);
      PenaltyIsPause(calls[i].status);
      assert Blocks(calls[i], p, now);
    }
    if Blocked(calls, p, now) {
      var i :| 0 <= i < |calls| && Blocks(calls[i], p, now);
      PenaltyIsPause(calls[i].status);
      assert Paused(calls[i], p, now);
    }
  }

  /** Nothing keeps the engine from calling the provider. */
  ghost predicate MayCall(s: State, p: Provider, probe: Probe) {
    !Resting(s.calls, p, probe.checkedAt) && probe.refused.None? && probe.hasKey && probe.known
  }

  /** An entry is called exactly if its provider is not resting after an earlier call, is not refused, has a key and is
      known. An entry that is not called fails with the first of these grounds that applies. */
  lemma CalledExactly(s: State, p: Provider, probe: Probe, stream: bool)
    requires Valid(s) && InTime(s, probe)
    ensures var (s', verdict) := Visit(s, p, probe, stream);
      if MayCall(s, p, probe) then
        && |s'.calls| == |s.calls| + 1
        && s'.calls == s.calls + [Call(p, probe.calledAt, probe.endedAt, s'.calls[|s.calls|].status)]
      else
        && s'.calls == s.calls
        && verdict == PassedOver(Failure(p, None,
             if Resting(s.calls, p, probe.checkedAt) then CoolingDown
             else if probe.refused.Some? then Refused(probe.refused.value)
             else if !probe.hasKey then NoKey
             else UnknownProvider))
  {
    assert InCooldown(s, p, probe.checkedAt) <==> Blocked(s.calls, p, probe.checkedAt);
    RestingIsBlocked(s.calls, p, probe.checkedAt);
  }

  /** The entry's provider answered and that is the answer of the request. */
  ghost predicate ServedBy(s: State, p: Provider, probe: Probe, stream: bool, r: Response) {
    var (s', verdict) := Visit(s, p, probe, stream);
    verdict == Served(r) && s'.calls == s.calls + [Call(p, probe.calledAt, probe.endedAt, None)]
  }

  /** The call failed with this problem: the entry is passed over, with the status of a provider's error. */
  ghost predicate FailedBy(s: State, p: Provider, probe: Probe, stream: bool, problem: Problem) {
    var (s', verdict) := Visit(s, p, probe, stream);
    match problem
    case OtherError(text) =>
      && verdict == PassedOver(Failure(p, None, Thrown(text)))
      && s'.calls == s.calls + [Call(p, probe.calledAt, probe.endedAt, None)]
    case ProviderError(code) =>
      && verdict == PassedOver(Failure(p, Some(code), GroundOf(code)))
      && s'.calls == s.calls + [Call(p, probe.calledAt, probe.endedAt, Some(code))]
  }

  function GroundOf(code: int): Reason {
    match code
    case 429 => RateLimited
    case 403 => Forbidden
    case 401 => InvalidKey
    case 500 => ServerError
    case 503 => ServerError
    case _ => Http(code)
  }

  /** What an entry that is called comes to. A stream, and any answer to a streaming request, is passed on as it is,
      and so is a reply with text. An empty reply is replaced by the healed one, passed on if healing finds nothing,
      and turned into a failure if healing throws. */
  lemma AnswerExactly(s: State, p: Provider, probe: Probe, stream: bool)
    requires Valid(s) && InTime(s, probe) && MayCall(s, p, probe)
    ensures match probe.call
      case CallThrew(problem) => FailedBy(s, p, probe, stream, problem)
      case Answered(Stream) => ServedBy(s, p, probe, stream, Stream)
      case Answered(Reply(text)) =>
        if text != "" || stream then ServedBy(s, p, probe, stream, Reply(text))
        else match probe.heal
          case Healed(better) => ServedBy(s, p, probe, stream, better)
          case NotHealed => ServedBy(s, p, probe, stream, Reply(""))
          case HealThrew(problem) => FailedBy(s, p, probe, stream, problem)
  {
    assert InCooldown(s, p, probe.checkedAt) <==> Blocked(s.calls, p, probe.checkedAt);
    RestingIsBlocked(s.calls, p, probe.checkedAt);
  }

  // ---- Runs ----

  /** Over every run: a provider that was rate limited is not called again for a minute, one that forbade the call not
      for five, one with a server error not for half a minute. From the engine's clock on a provider is in cooldown
      exactly while one of these times is running. */
  lemma PausesAreKept(start: int, ops: seq<Op>, i: nat, j: nat, p: Provider, now: int)
    requires LegalRun(Fresh(start), ops)
    ensures var s := Run(Fresh(start), ops);
      && (i < j < |s.calls| && s.calls[i].provider == s.calls[j].provider ==>
            s.calls[j].calledAt >= s.calls[i].endedAt + Pause(s.calls[i].status))
      && (now >= s.clock ==> (InCooldown(s, p, now) <==> Resting(s.calls, p, now)))
  {
    var s := Run(Fresh(start), ops);
    CooldownsAreKept(start, ops, p, now);
    RunValid(Fresh(start), ops);
    if i < j < |s.calls| {
      assert Respects(s.calls[i], s.calls[j]);
      PenaltyIsPause(s.calls[i].status);
    }
    if now >= s.clock {
      RestingIsBlocked(s.calls, p, now);
    }
  }
}
