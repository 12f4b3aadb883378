/** The engine's invocation tables: calls in flight, calls forwarded between workers, how each is settled, and the
    metrics recorded on the way. */
module Invocations {
  import opened Options
  import opened CallMetrics

  datatype Payload = Payload(json: string)

  datatype Reply = Result(result: Payload) | Error(error: Payload)

  /** A worker in order of arrival: `live` while it is in the table, `isOpen` while its socket is. */
  datatype Worker = Worker(name: string, functions: set<string>, live: bool, isOpen: bool)

  /** What the closures of a pending call remember. The worker is remembered by identity, not by name. */
  datatype Call = Call(worker: nat, fn: string, startMs: int)

  datatype Outcome = Replied(reply: Reply) | TimeoutError | NotConnected

  datatype Settlement = Settlement(id: nat, outcome: Outcome)

  datatype AnswerBody = Relayed(reply: Reply) | NotFound

  /** A message back to the worker that asked for a forwarded call. */
  datatype Answer = Answer(to: nat, id: nat, body: AnswerBody)

  /** The engine. `started` and `asked` are the ids used so far by calls of the engine and by workers; `lost` counts
      calls whose end found no record. */
  datatype Engine = Engine(workers: seq<Worker>,
                           totalCalls: nat, totalErrors: nat, totalTimeouts: nat, functions: map<MetricKey, Metrics>,
                           pending: map<nat, Call>, forwards: map<nat, nat>,
                           settled: seq<Settlement>, answers: seq<Answer>,
                           started: set<nat>, asked: set<nat>, lost: nat)

  datatype Change =
    | Joins(name: string)
    | Registers(worker: nat, fn: string)
    | Unregisters(worker: nat, fn: string)
    | Renames(worker: nat, name: string)
    | Closes(worker: nat)
    | Leaves(worker: nat)

  /** What can happen. A trigger carries the clock at its start and, for a call that cannot be sent, at its end. */
  datatype Event =
    | Changes(change: Change)
    | Triggers(id: nat, fn: string, startMs: int, now: int)
    | Asks(id: nat, caller: nat, fn: string)
    | Replies(id: nat, reply: Reply, now: int)
    | TimesOut(id: nat, now: int)

  function Empty(): Engine {
    Engine([], 0, 0, 0, map[], map[], map[], [], [], {}, {}, 0)
  }

  predicate Enabled(e: Engine, ev: Event) {
    match ev
    case Changes(c) => c.Joins? || c.worker < |e.workers|
    case Triggers(id, _, _, _) => id !in e.started + e.asked
    case Asks(id, _, _) => id !in e.started + e.asked
    case Replies(_, _, _) => true
    case TimesOut(_, _) => true
  }

  // ---- Workers ----

  function Changed(workers: seq<Worker>, c: Change): (r: seq<Worker>)
    requires c.Joins? || c.worker < |workers|
    ensures |r| >= |workers|
    ensures forall i :: 0 <= i < |workers| && !(c.Renames? && c.worker == i) ==> r[i].name == workers[i].name
  {
    match c
    case Joins(name) => workers + [Worker(name, {}, true, true)]
    case Registers(w, fn) => workers[w := workers[w].(functions := workers[w].functions + {fn})]
    case Unregisters(w, fn) => workers[w := workers[w].(functions := workers[w].functions - {fn})]
    case Renames(w, name) => workers[w := workers[w].(name := name)]
    case Closes(w) => workers[w := workers[w].(isOpen := false)]
    case Leaves(w) => workers[w := workers[w].(live := false, isOpen := false)]
  }

  predicate Serves(w: Worker, fn: string) {
    w.live && fn in w.functions
  }

  /** The first live worker with the function, other than the excluded one. */
  function Owner(workers: seq<Worker>, fn: string, except: int, from: nat := 0): (r: Option<nat>)
    requires from <= |workers|
    ensures r.Some? ==> from <= r.value < |workers| && Serves(workers[r.value], fn) && r.value != except
    ensures forall i :: from <= i < (if r.Some? then r.value else |workers|) && i != except ==> !Serves(workers[i], fn)
    decreases |workers| - from
  {
    if from == |workers| then None
    else if from != except && Serves(workers[from], fn) then Some(from)
    else Owner(workers, fn, except, from + 1)
  }

  // ---- Steps ----

  function WithStart(records: map<MetricKey, Metrics>, key: MetricKey, now: int): map<MetricKey, Metrics> {
    records[key := (if key in records then records[key] else NewMetrics()).(lastCallAt := now)]
  }

  function WithEnd(records: map<MetricKey, Metrics>, key: MetricKey, dur: int, kind: EndKind): map<MetricKey, Metrics> {
    if key in records then records[key := Bump(records[key], dur, kind)] else records
  }

  /** The key of a call's record as its worker is called now. */
  function CallKey(workers: seq<Worker>, call: Call): MetricKey {
    KeyOf(call.fn, if call.worker < |workers| then workers[call.worker].name else "")
  }

  /** recordInvocationEnd: the key is made from the name the worker has now. */
  function Ended(e: Engine, call: Call, now: int, kind: EndKind): Engine {
    var key := CallKey(e.workers, call);
    if key !in e.functions then e.(lost := e.lost + 1)
    else e.(functions := WithEnd(e.functions, key, now - call.startMs, kind),
            totalErrors := e.totalErrors + (if kind == Fine then 0 else 1),
            totalTimeouts := e.totalTimeouts + (if kind == TimedOut then 1 else 0))
  }

  function KindOf(o: Outcome): EndKind {
    match o
    case Replied(Result(_)) => Fine
    case Replied(Error(_)) => Failed
    case TimeoutError => TimedOut
    case NotConnected => Failed
  }

  /** A call leaves the table, is recorded and settles its promise. */
  function Settle(e: Engine, id: nat, call: Call, now: int, o: Outcome): Engine {
    Ended(e, call, now, KindOf(o)).(pending := e.pending - {id}, settled := e.settled + [Settlement(id, o)])
  }

  /** recordInvocationStart and the entry in the table. */
  function Started(e: Engine, id: nat, call: Call): Engine {
    e.(totalCalls := e.totalCalls + 1, started := e.started + {id}, pending := e.pending[id := call],
       functions := WithStart(e.functions, CallKey(e.workers, call), call.startMs))
  }

  function OnTrigger(e: Engine, id: nat, fn: string, startMs: int, now: int): Engine {
    match Owner(e.workers, fn, -1)
    case None => e
    case Some(w) =>
      var call := Call(w, fn, startMs);
      var e := Started(e, id, call);
      if e.workers[w].isOpen then e else Settle(e, id, call, now, NotConnected)
  }

  function OnAsk(e: Engine, id: nat, caller: nat, fn: string): Engine {
    var e := e.(asked := e.asked + {id});
    if Owner(e.workers, fn, caller).None? then e.(answers := e.answers + [Answer(caller, id, NotFound)])
    else e.(forwards := e.forwards[id := caller])
  }

  function OnReply(e: Engine, id: nat, reply: Reply, now: int): Engine {
    if id in e.forwards then
      e.(forwards := e.forwards - {id}, answers := e.answers + [Answer(e.forwards[id], id, Relayed(reply))])
    else if id in e.pending then
      Settle(e, id, e.pending[id], now, Replied(reply))
    else e
  }

  function OnTimeout(e: Engine, id: nat, now: int): Engine {
    if id in e.pending then Settle(e, id, e.pending[id], now, TimeoutError) else e
  }

  function Step(e: Engine, ev: Event): Engine
    requires Enabled(e, ev)
  {
    match ev
    case Changes(c) => e.(workers := Changed(e.workers, c))
    case Triggers(id, fn, startMs, now) => OnTrigger(e, id, fn, startMs, now)
    case Asks(id, caller, fn) => OnAsk(e, id, caller, fn)
    case Replies(id, reply, now) => OnReply(e, id, reply, now)
    case TimesOut(id, now) => OnTimeout(e, id, now)
  }

  ghost predicate Legal(events: seq<Event>)
    decreases |events|, 0
  {
    events == [] || (Legal(events[..|events| - 1]) && Enabled(After(events[..|events| - 1]), events[|events| - 1]))
  }

  ghost function After(events: seq<Event>): Engine
    requires Legal(events)
    decreases |events|, 1
  {
    if events == [] then Empty() else Step(After(events[..|events| - 1]), events[|events| - 1])
  }

  // ---- Metrics add up ----

  function Calls(): Metrics -> nat { (m: Metrics) => m.calls }

  function Errors(): Metrics -> nat { (m: Metrics) => m.errors }

  function Timeouts(): Metrics -> nat { (m: Metrics) => m.timeouts }

  ghost predicate AllSound(records: map<MetricKey, Metrics>) {
    forall k {:trigger Sound(records[k])} :: k in records ==> Sound(records[k])
  }

  ghost predicate AddUp(e: Engine) {
    && AllSound(e.functions)
    && e.totalCalls == |e.pending| + Total(e.functions, Calls()) + e.lost
    && e.totalErrors == Total(e.functions, Errors())
    && e.totalTimeouts == Total(e.functions, Timeouts())
  }

  lemma NewIsSound()
    ensures Sound(NewMetrics())
  {
    assert Sum([0, 0, 0, 0]) == 0;
    assert Sum([0, 0, 0, 0, 0, 0, 0, 0]) == 0;
  }

  lemma StartAdds(records: map<MetricKey, Metrics>, key: MetricKey, now: int, part: Metrics -> nat)
    requires part == Calls() || part == Errors() || part == Timeouts()
    ensures Total(WithStart(records, key, now), part) == Total(records, part)
  {
    TotalUpdate(records, part, key, (if key in records then records[key] else NewMetrics()).(lastCallAt := now));
  }

  lemma StartSound(records: map<MetricKey, Metrics>, key: MetricKey, now: int)
    requires AllSound(records)
    ensures AllSound(WithStart(records, key, now))
  {
    NewIsSound();
    assert key in records ==> Sound(records[key]);
    var m := if key in records then records[key] else NewMetrics();
    assert Sound(m.(lastCallAt := now));
  }

  lemma EndAdds(records: map<MetricKey, Metrics>, key: MetricKey, dur: int, kind: EndKind)
    requires key in records
    ensures var after := WithEnd(records, key, dur, kind);
      && Total(after, Calls()) == Total(records, Calls()) + 1
      && Total(after, Errors()) == Total(records, Errors()) + (if kind == Fine then 0 else 1)
      && Total(after, Timeouts()) == Total(records, Timeouts()) + (if kind == TimedOut then 1 else 0)
  {
    var m := Bump(records[key], dur, kind);
    TotalUpdate(records, Calls(), key, m);
    TotalUpdate(records, Errors(), key, m);
    TotalUpdate(records, Timeouts(), key, m);
  }

  lemma EndSound(records: map<MetricKey, Metrics>, key: MetricKey, dur: int, kind: EndKind)
    requires AllSound(records) && key in records
    ensures AllSound(WithEnd(records, key, dur, kind))
  {
    assert Sound(records[key]);
    BumpSound(records[key], dur, kind);
  }

  lemma EndedSound(e: Engine, call: Call, now: int, kind: EndKind)
    requires AllSound(e.functions)
    ensures AllSound(Ended(e, call, now, kind).functions)
  {
    var key := CallKey(e.workers, call);
    if key in e.functions {
      EndSound(e.functions, key, now - call.startMs, kind);
    }
  }

  lemma EndedAdds(e: Engine, call: Call, now: int, kind: EndKind)
    requires e.totalErrors == Total(e.functions, Errors()) && e.totalTimeouts == Total(e.functions, Timeouts())
    ensures var e' := Ended(e, call, now, kind);
      && Total(e'.functions, Calls()) + e'.lost == Total(e.functions, Calls()) + e.lost + 1
      && e'.totalErrors == Total(e'.functions, Errors())
      && e'.totalTimeouts == Total(e'.functions, Timeouts())
  {
    var key := CallKey(e.workers, call);
    if key in e.functions {
      EndAdds(e.functions, key, now - call.startMs, kind);
    }
  }

  lemma SettleAddsUp(e: Engine, id: nat, call: Call, now: int, o: Outcome)
    requires AddUp(e) && id in e.pending
    ensures AddUp(Settle(e, id, call, now, o))
  {
    EndedSound(e, call, now, KindOf(o));
    EndedAdds(e, call, now, KindOf(o));
    assert |e.pending - {id}| == |e.pending| - 1;
  }

  lemma StartedAddsUp(e: Engine, id: nat, call: Call)
    requires AddUp(e) && id !in e.pending
    ensures AddUp(Started(e, id, call))
  {
    var key := CallKey(e.workers, call);
    StartSound(e.functions, key, call.startMs);
    StartAdds(e.functions, key, call.startMs, Calls());
    StartAdds(e.functions, key, call.startMs, Errors());
    StartAdds(e.functions, key, call.startMs, Timeouts());
  }

  lemma TriggerAddsUp(e: Engine, id: nat, fn: string, startMs: int, now: int)
    requires AddUp(e) && id !in e.pending
    ensures AddUp(OnTrigger(e, id, fn, startMs, now))
  {
    var w := Owner(e.workers, fn, -1);
    if w.Some? {
      StartedAddsUp(e, id, Call(w.value, fn, startMs));
      if !e.workers[w.value].isOpen {
        SettleAddsUp(Started(e, id, Call(w.value, fn, startMs)), id, Call(w.value, fn, startMs), now, NotConnected);
      }
    }
  }

  ghost predicate PendingStarted(e: Engine) {
    forall id :: id in e.pending ==> id in e.started
  }

  lemma StepAddsUp(e: Engine, ev: Event)
    requires Enabled(e, ev) && AddUp(e) && PendingStarted(e)
    ensures AddUp(Step(e, ev))
  {
    match ev
    case Triggers(id, fn, startMs, now) => TriggerAddsUp(e, id, fn, startMs, now);
    case Replies(id, reply, now) =>
      if id !in e.forwards && id in e.pending {
        SettleAddsUp(e, id, e.pending[id], now, Replied(reply));
      }
    case TimesOut(id, now) =>
      if id in e.pending {
        SettleAddsUp(e, id, e.pending[id], now, TimeoutError);
      }
    case _ =>
  }

  lemma {:induction false} OnlyStartedPend(events: seq<Event>)
    requires Legal(events)
    ensures PendingStarted(After(events))
  {
    if events != [] {
      OnlyStartedPend(events[..|events| - 1]);
    }
  }

  /** Conservation: in every run, the calls made are those in flight, those recorded and those whose end was lost;
      the totals are the sums over the records, and each record is sound. */
  lemma {:induction false} CallsAreConserved(events: seq<Event>)
    requires Legal(events)
    ensures AddUp(After(events))
  {
    if events == [] {
    } else {
      var front := events[..|events| - 1];
      CallsAreConserved(front);
      OnlyStartedPend(front);
      StepAddsUp(After(front), events[|events| - 1]);
    }
  }

  // ---- Every call is settled once ----

  function TimesSettled(settled: seq<Settlement>, id: nat): nat {
    if settled == [] then 0
    else TimesSettled(settled[..|settled| - 1], id) + if settled[|settled| - 1].id == id then 1 else 0
  }

  function TimesAnswered(answers: seq<Answer>, id: nat): nat {
    if answers == [] then 0
    else TimesAnswered(answers[..|answers| - 1], id) + if answers[|answers| - 1].id == id then 1 else 0
  }

  /** A call made is in flight or has been settled exactly once, and likewise for a forwarded call and its answer. */
  ghost predicate InLedger(e: Engine, id: nat) {
    && !(id in e.started && id in e.asked)
    && (id in e.pending ==> id in e.started)
    && (id in e.forwards ==> id in e.asked)
    && TimesSettled(e.settled, id) == (if id in e.started && id !in e.pending then 1 else 0)
    && TimesAnswered(e.answers, id) == (if id in e.asked && id !in e.forwards then 1 else 0)
  }

  lemma SettledGrows(settled: seq<Settlement>, s: Settlement, id: nat)
    ensures TimesSettled(settled + [s], id) == TimesSettled(settled, id) + if s.id == id then 1 else 0
  {
    assert (settled + [s])[..|settled|] == settled;
  }

  lemma AnsweredGrows(answers: seq<Answer>, a: Answer, id: nat)
    ensures TimesAnswered(answers + [a], id) == TimesAnswered(answers, id) + if a.id == id then 1 else 0
  {
    assert (answers + [a])[..|answers|] == answers;
  }

  lemma SettleOnly(e: Engine, id: nat, call: Call, now: int, o: Outcome)
    ensures var e' := Settle(e, id, call, now, o);
      && e'.pending == e.pending - {id} && e'.settled == e.settled + [Settlement(id, o)]
      && e'.forwards == e.forwards && e'.answers == e.answers && e'.started == e.started && e'.asked == e.asked
  {
  }

  lemma SettleLedger(e: Engine, call: Call, now: int, o: Outcome, j: nat, id: nat)
    requires InLedger(e, id) && j in e.pending && j in e.started
    ensures InLedger(Settle(e, j, call, now, o), id)
  {
    SettleOnly(e, j, call, now, o);
    SettledGrows(e.settled, Settlement(j, o), id);
  }

  lemma TriggerLedger(e: Engine, j: nat, fn: string, startMs: int, now: int, id: nat)
    requires j !in e.started + e.asked && InLedger(e, id)
    ensures InLedger(OnTrigger(e, j, fn, startMs, now), id)
  {
    var w := Owner(e.workers, fn, -1);
    if w.Some? {
      var call := Call(w.value, fn, startMs);
      SettleLedger(Started(e, j, call), call, now, NotConnected, j, id);
    }
  }

  lemma AskLedger(e: Engine, j: nat, caller: nat, fn: string, id: nat)
    requires j !in e.started + e.asked && InLedger(e, id)
    ensures InLedger(OnAsk(e, j, caller, fn), id)
  {
    AnsweredGrows(e.answers, Answer(caller, j, NotFound), id);
  }

  lemma AnswerLedger(e: Engine, j: nat, reply: Reply, now: int, id: nat)
    requires j in e.forwards && j in e.asked && InLedger(e, id)
    ensures InLedger(OnReply(e, j, reply, now), id)
  {
    AnsweredGrows(e.answers, Answer(e.forwards[j], j, Relayed(reply)), id);
  }

  /** Steps about other ids need to know that these are in the ledger as well. */
  lemma StepLedger(e: Engine, ev: Event, id: nat)
    requires Enabled(e, ev) && InLedger(e, id) && (!ev.Changes? ==> InLedger(e, ev.id))
    ensures InLedger(Step(e, ev), id)
  {
    match ev
    case Changes(_) =>
    case Triggers(j, fn, startMs, now) => TriggerLedger(e, j, fn, startMs, now, id);
    case Asks(j, caller, fn) => AskLedger(e, j, caller, fn, id);
    case Replies(j, reply, now) =>
      if j in e.forwards {
        AnswerLedger(e, j, reply, now, id);
      } else if j in e.pending {
        SettleLedger(e, e.pending[j], now, Replied(reply), j, id);
      }
    case TimesOut(j, now) =>
      if j in e.pending {
        SettleLedger(e, e.pending[j], now, TimeoutError, j, id);
      }
  }

  /** In every run, every call the engine made is either in flight or settled exactly once, and every call a worker
      asked for is either forwarded and open or answered exactly once. */
  lemma {:induction false} SettledExactlyOnce(events: seq<Event>, id: nat)
    requires Legal(events)
    ensures InLedger(After(events), id)
  {
    if events != [] {
      var front, ev := events[..|events| - 1], events[|events| - 1];
      SettledExactlyOnce(front, id);
      if !ev.Changes? {
        SettledExactlyOnce(front, ev.id);
      }
      StepLedger(After(front), ev, id);
    }
  }

  ghost predicate Over(e: Engine, id: nat) {
    TimesSettled(e.settled, id) + TimesAnswered(e.answers, id) > 0
  }

  predicate Ends(ev: Event, id: nat) {
    (ev.Replies? || ev.TimesOut?) && ev.id == id
  }

  lemma LogsGrow(e: Engine, ev: Event)
    requires Enabled(e, ev)
    ensures e.settled <= Step(e, ev).settled && e.answers <= Step(e, ev).answers
  {
  }

  lemma {:induction false} MoreSettled(a: seq<Settlement>, b: seq<Settlement>, id: nat)
    requires a <= b
    ensures TimesSettled(a, id) <= TimesSettled(b, id)
  {
    if |a| < |b| {
      MoreSettled(a, b[..|b| - 1], id);
    } else {
      assert a == b;
    }
  }

  lemma {:induction false} MoreAnswered(a: seq<Answer>, b: seq<Answer>, id: nat)
    requires a <= b
    ensures TimesAnswered(a, id) <= TimesAnswered(b, id)
  {
    if |a| < |b| {
      MoreAnswered(a, b[..|b| - 1], id);
    } else {
      assert a == b;
    }
  }

  lemma StaysOver(e: Engine, ev: Event, id: nat)
    requires Enabled(e, ev) && Over(e, id)
    ensures Over(Step(e, ev), id)
  {
    LogsGrow(e, ev);
    MoreSettled(e.settled, Step(e, ev).settled, id);
    MoreAnswered(e.answers, Step(e, ev).answers, id);
  }

  lemma OverIsOver(e: Engine, ev: Event, id: nat)
    requires InLedger(e, id) && Over(e, id) && Ends(ev, id)
    ensures Enabled(e, ev) && Step(e, ev) == e
  {
  }

  /** Once a call is over, a late or repeated reply or timeout changes nothing, however much later it comes. */
  lemma {:induction false} LateRepliesChangeNothing(events: seq<Event>, n: nat, id: nat, ev: Event)
    requires Legal(events) && n <= |events| && Legal(events[..n]) && Over(After(events[..n]), id) && Ends(ev, id)
    ensures Over(After(events), id) && Enabled(After(events), ev) && Step(After(events), ev) == After(events)
    decreases |events|
  {
    if n == |events| {
      assert events[..n] == events;
    } else {
      var front := events[..|events| - 1];
      assert front[..n] == events[..n];
      LateRepliesChangeNothing(front, n, id, ev);
      StaysOver(After(front), events[|events| - 1], id);
    }
    SettledExactlyOnce(events, id);
    OverIsOver(After(events), ev, id);
  }

  // ---- What a call is settled with ----

  /** Worker w is the first that serves the function, the excluded one aside. */
  ghost predicate ServesFirst(workers: seq<Worker>, fn: string, except: int, w: nat) {
    && w < |workers| && w != except && Serves(workers[w], fn)
    && forall i :: 0 <= i < w && i != except ==> !Serves(workers[i], fn)
  }

  ghost predicate NobodyServes(workers: seq<Worker>, fn: string, except: int) {
    forall i :: 0 <= i < |workers| && i != except ==> !Serves(workers[i], fn)
  }

  /** The function's first worker has a closed socket. */
  ghost predicate FirstIsClosed(workers: seq<Worker>, fn: string) {
    exists w: nat :: ServesFirst(workers, fn, -1, w) && !workers[w].isOpen
  }

  /** The event, in the state before it, is what the settlement says. */
  ghost predicate SettledBy(e: Engine, ev: Event, s: Settlement) {
    match s.outcome
    case Replied(reply) => ev.Replies? && ev.id == s.id && ev.reply == reply && s.id in e.pending
    case TimeoutError => ev.TimesOut? && ev.id == s.id && s.id in e.pending
    case NotConnected => ev.Triggers? && ev.id == s.id && FirstIsClosed(e.workers, ev.fn)
  }

  predicate AskedBy(ev: Event, id: nat, caller: nat) {
    ev.Asks? && ev.id == id && ev.caller == caller
  }

  ghost predicate AnsweredBy(e: Engine, ev: Event, a: Answer) {
    match a.body
    case Relayed(reply) => ev.Replies? && ev.id == a.id && ev.reply == reply && a.id in e.forwards
    case NotFound => ev.Asks? && ev.id == a.id && NobodyServes(e.workers, ev.fn, ev.caller)
  }

  ghost predicate HasCause(events: seq<Event>, s: Settlement)
    requires Legal(events)
    decreases |events|
  {
    events != [] &&
    (var front := events[..|events| - 1]; HasCause(front, s) || SettledBy(After(front), events[|events| - 1], s))
  }

  ghost predicate WasAsked(events: seq<Event>, id: nat, caller: nat) {
    exists i :: 0 <= i < |events| && AskedBy(events[i], id, caller)
  }

  ghost predicate HasSource(events: seq<Event>, a: Answer)
    requires Legal(events)
    decreases |events|
  {
    events != [] &&
    (var front := events[..|events| - 1]; HasSource(front, a) || AnsweredBy(After(front), events[|events| - 1], a))
  }

  lemma AskStays(events: seq<Event>, ev: Event, id: nat, caller: nat)
    requires WasAsked(events, id, caller) || AskedBy(ev, id, caller)
    ensures WasAsked(events + [ev], id, caller)
  {
    if WasAsked(events, id, caller) {
      var i :| 0 <= i < |events| && AskedBy(events[i], id, caller);
      assert (events + [ev])[i] == events[i];
    } else {
      assert (events + [ev])[|events|] == ev;
    }
  }

  lemma SettlesWithCause(e: Engine, ev: Event)
    requires Enabled(e, ev) && Step(e, ev).settled != e.settled
    ensures Step(e, ev).settled == e.settled + [Step(e, ev).settled[|e.settled|]]
    ensures SettledBy(e, ev, Step(e, ev).settled[|e.settled|])
  {
    if ev.Triggers? {
      var w := Owner(e.workers, ev.fn, -1);
      assert w.Some? ==> ServesFirst(e.workers, ev.fn, -1, w.value);
    }
  }

  /** A promise is settled with what an event brought for its id while it was in flight, the reply itself or the
      timeout, or because the socket of the function's first worker was closed when the call was made. */
  lemma {:induction false} SettledWithItsReply(events: seq<Event>, k: nat)
    requires Legal(events) && k < |After(events).settled|
    ensures HasCause(events, After(events).settled[k])
  {
    var front, ev := events[..|events| - 1], events[|events| - 1];
    var before, after := After(front), After(events);
    if after.settled != before.settled {
      SettlesWithCause(before, ev);
    }
    if k < |before.settled| {
      SettledWithItsReply(front, k);
      assert after.settled[k] == before.settled[k];
    }
  }

  lemma {:induction false} ForwardWasAsked(events: seq<Event>, id: nat)
    requires Legal(events) && id in After(events).forwards
    ensures WasAsked(events, id, After(events).forwards[id])
  {
    var front, ev := events[..|events| - 1], events[|events| - 1];
    assert events == front + [ev];
    var before, caller := After(front), After(events).forwards[id];
    if id in before.forwards && before.forwards[id] == caller {
      ForwardWasAsked(front, id);
    }
    AskStays(front, ev, id, caller);
  }

  /** An answer to a forwarded call goes to the worker that asked. It carries the reply that came for its id while it
      was forwarded, or says that no other worker served the function when it was asked. */
  lemma {:induction false} AnsweredToAsker(events: seq<Event>, k: nat)
    requires Legal(events) && k < |After(events).answers|
    ensures var a := After(events).answers[k]; WasAsked(events, a.id, a.to) && HasSource(events, a)
  {
    var front, ev := events[..|events| - 1], events[|events| - 1];
    assert events == front + [ev];
    var before, a := After(front), After(events).answers[k];
    if k < |before.answers| {
      AnsweredToAsker(front, k);
      assert a == before.answers[k];
    } else if ev.Replies? {
      ForwardWasAsked(front, ev.id);
    }
    AskStays(front, ev, a.id, a.to);
  }

  // ---- Renaming a worker ----

  ghost predicate Recorded(e: Engine) {
    forall id :: id in e.pending ==>
      e.pending[id].worker < |e.workers| && CallKey(e.workers, e.pending[id]) in e.functions
  }

  /** No worker is renamed while a call to it is in flight. */
  ghost predicate QuietStep(e: Engine, ev: Event) {
    ev.Changes? && ev.change.Renames? ==> forall id :: id in e.pending ==> e.pending[id].worker != ev.change.worker
  }

  ghost predicate Quiet(events: seq<Event>)
    requires Legal(events)
    decreases |events|
  {
    events == [] || (Quiet(events[..|events| - 1]) && QuietStep(After(events[..|events| - 1]), events[|events| - 1]))
  }

  lemma QuietKeeps(e: Engine, ev: Event)
    requires Enabled(e, ev) && Recorded(e) && QuietStep(e, ev)
    ensures Recorded(Step(e, ev)) && Step(e, ev).lost == e.lost
  {
  }

  /** If no worker is renamed while a call to it is in flight, no end is lost, so the calls made are those in flight
      plus those recorded. */
  lemma {:induction false} QuietLosesNothing(events: seq<Event>)
    requires Legal(events) && Quiet(events)
    ensures var e := After(events);
      Recorded(e) && e.lost == 0 && e.totalCalls == |e.pending| + Total(e.functions, Calls())
  {
    if events != [] {
      var front := events[..|events| - 1];
      QuietLosesNothing(front);
      QuietKeeps(After(front), events[|events| - 1]);
    }
    CallsAreConserved(events);
  }

  /** The event ends a call, and the function has no record under the name its worker has by then. */
  predicate EndsUnrecorded(e: Engine, ev: Event) {
    match ev
    case Replies(id, _, _) => id !in e.forwards && id in e.pending && CallKey(e.workers, e.pending[id]) !in e.functions
    case TimesOut(id, _) => id in e.pending && CallKey(e.workers, e.pending[id]) !in e.functions
    case _ => false
  }

  /** No event of the run ends a call without a record, judged in the state before it. */
  ghost predicate NoEndLost(events: seq<Event>)
    requires Legal(events)
    decreases |events|
  {
    events == [] ||
    (var front := events[..|events| - 1];
     NoEndLost(front) && !EndsUnrecorded(After(front), events[|events| - 1]))
  }

  lemma StepLoses(e: Engine, ev: Event)
    requires Enabled(e, ev)
    ensures Step(e, ev).lost == e.lost + if EndsUnrecorded(e, ev) then 1 else 0
  {
    if ev.Triggers? {
      TriggerLoses(e, ev.id, ev.fn, ev.startMs, ev.now);
    }
  }

  /** A call that cannot be sent ends right after its record was opened. */
  lemma TriggerLoses(e: Engine, id: nat, fn: string, startMs: int, now: int)
    ensures OnTrigger(e, id, fn, startMs, now).lost == e.lost
  {
    var w := Owner(e.workers, fn, -1);
    if w.Some? {
      var call := Call(w.value, fn, startMs);
      assert CallKey(Started(e, id, call).workers, call) in Started(e, id, call).functions;
    }
  }

  lemma {:induction false} LostExactly(events: seq<Event>)
    requires Legal(events)
    ensures After(events).lost == 0 <==> NoEndLost(events)
  {
    if events != [] {
      LostExactly(events[..|events| - 1]);
      StepLoses(After(events[..|events| - 1]), events[|events| - 1]);
    }
  }

  /** For every run: the calls made are those in flight plus those recorded if and only if no call has ended while its
      function had no record under its worker's name of that moment. */
  lemma CallsAddUpExactly(events: seq<Event>)
    requires Legal(events)
    ensures var e := After(events); e.totalCalls == |e.pending| + Total(e.functions, Calls()) <==> NoEndLost(events)
  {
    CallsAreConserved(events);
    LostExactly(events);
  }

  /** A rename and right after it the reply: the end is lost exactly if there is no record under the new name. */
  lemma RenameLoses(e: Engine, id: nat, name: string, reply: Reply, now: int)
    requires id in e.pending && id !in e.forwards && e.pending[id].worker < |e.workers|
    ensures var call := e.pending[id];
      var renamed := Step(e, Changes(Renames(call.worker, name)));
      Step(renamed, Replies(id, reply, now)).lost == e.lost + if KeyOf(call.fn, name) in e.functions then 0 else 1
  {
  }

  /** Another call of the function after the rename opens the record, so that the first call's end is not lost. */
  lemma SecondCallSaves(e: Engine, id: nat, name: string, other: nat, startMs: int, reply: Reply, now: int)
    requires id in e.pending && id !in e.forwards && e.pending[id].worker < |e.workers|
    requires other !in e.started + e.asked && other != id
    requires Owner(e.workers, e.pending[id].fn, -1) == Some(e.pending[id].worker)
    requires e.workers[e.pending[id].worker].isOpen
    ensures var call := e.pending[id];
      var renamed := Step(e, Changes(Renames(call.worker, name)));
      var called := OnTrigger(renamed, other, call.fn, startMs, startMs);
      Step(called, Replies(id, reply, now)).lost == e.lost
  {
    var call := e.pending[id];
    var renamed := Step(e, Changes(Renames(call.worker, name)));
    SameOwner(e.workers, renamed.workers, call.fn, 0);
  }

  lemma {:induction false} SameOwner(a: seq<Worker>, b: seq<Worker>, fn: string, from: nat)
    requires |a| == |b| && from <= |a|
    requires forall i :: 0 <= i < |a| ==> Serves(a[i], fn) == Serves(b[i], fn)
    ensures Owner(a, fn, -1, from) == Owner(b, fn, -1, from)
    decreases |a| - from
  {
    if from < |a| {
      SameOwner(a, b, fn, from + 1);
    }
  }

  lemma Extend(events: seq<Event>, ev: Event)
    requires Legal(events) && Enabled(After(events), ev)
    ensures Legal(events + [ev]) && After(events + [ev]) == Step(After(events), ev)
  {
    assert (events + [ev])[..|events|] == events;
  }

  /** Such a run exists: the call is counted, is no longer in flight, and is in no record. */
  lemma RenameExample() returns (events: seq<Event>)
    ensures Legal(events) && After(events).lost == 1
    ensures After(events).totalCalls == 1 && |After(events).pending| == 0
  {
    events := [];
    var join, register := Changes(Joins("a")), Changes(Registers(0, "f"));
    Extend(events, join);
    events := events + [join];
    Extend(events, register);
    events := events + [register];
    var worker := Worker("a", {} + {"f"}, true, true);
    assert [Worker("a", {}, true, true)][0 := worker] == [worker];
    assert After(events) == Empty().(workers := [worker]);
    var call := Triggers(0, "f", 0, 0);
    assert Serves(worker, "f");
    assert Owner([worker], "f", -1) == Some(0);
    Extend(events, call);
    events := events + [call];
    assert After(events) == Started(Empty().(workers := [worker]), 0, Call(0, "f", 0));
    assert KeyOf("f", "b").text[2] != KeyOf("f", "a").text[2];
    var reply := Result(Payload("null"));
    RenameLoses(After(events), 0, "b", reply, 5);
    Extend(events, Changes(Renames(0, "b")));
    events := events + [Changes(Renames(0, "b"))];
    Extend(events, Replies(0, reply, 5));
    events := events + [Replies(0, reply, 5)];
  }

  // ---- The engine object ----

  /** The maps and counters of the engine. Ids are passed in where the source draws a fresh one. */
  class InvocationEngine {
    var workers: seq<Worker>
    var totalCalls: nat
    var totalErrors: nat
    var totalTimeouts: nat
    var functions: map<MetricKey, Metrics>
    var pending: map<nat, Call>
    var workerInvocations: map<nat, nat>
    var settled: seq<Settlement>
    var answers: seq<Answer>
    ghost var started: set<nat>
    ghost var asked: set<nat>
    ghost var lost: nat

    ghost function View(): Engine
      reads this
    {
      Engine(workers, totalCalls, totalErrors, totalTimeouts, functions, pending, workerInvocations, settled, answers,
             started, asked, lost)
    }

    constructor ()
      ensures View() == Empty()
    {
      workers, totalCalls, totalErrors, totalTimeouts := [], 0, 0, 0;
      functions, pending, workerInvocations, settled, answers := map[], map[], map[], [], [];
      started, asked, lost := {}, {}, 0;
    }

    method RecordInvocationStart(key: MetricKey, now: int)
      modifies this`totalCalls, this`functions
      ensures totalCalls == old(totalCalls) + 1 && functions == WithStart(old(functions), key, now)
    {
      totalCalls := totalCalls + 1;
      if key !in functions {
        functions := functions[key := NewMetrics()];
      }
      functions := functions[key := functions[key].(lastCallAt := now)];
    }

    method RecordInvocationEnd(call: Call, now: int, kind: EndKind)
      modifies this`functions, this`totalErrors, this`totalTimeouts, this`lost
      ensures View() == Ended(old(View()), call, now, kind)
    {
      var key := CallKey(workers, call);
      if key !in functions {
        lost := lost + 1;
        return;
      }
      functions := functions[key := Bump(functions[key], now - call.startMs, kind)];
      if kind != Fine {
        totalErrors := totalErrors + 1;
        if kind == TimedOut {
          totalTimeouts := totalTimeouts + 1;
        }
      }
    }

    method FindWorker(fn: string, except: int) returns (w: Option<nat>)
      ensures w == Owner(workers, fn, except)
    {
      var i := 0;
      while i < |workers|
        invariant 0 <= i <= |workers|
        invariant Owner(workers, fn, except) == Owner(workers, fn, except, i)
      {
        if i != except && Serves(workers[i], fn) {
          return Some(i);
        }
        i := i + 1;
      }
      return None;
    }

    method SettleCall(id: nat, call: Call, now: int, outcome: Outcome)
      modifies this
      ensures View() == Settle(old(View()), id, call, now, outcome)
    {
      pending := pending - {id};
      RecordInvocationEnd(call, now, KindOf(outcome));
      settled := settled + [Settlement(id, outcome)];
    }

    /** trigger and sendInvocation; the call is refused if nobody serves the function. */
    method Trigger(id: nat, fn: string, startMs: int, now: int) returns (found: bool)
      requires Enabled(View(), Triggers(id, fn, startMs, now))
      modifies this
      ensures View() == Step(old(View()), Triggers(id, fn, startMs, now))
      ensures found <==> exists i :: 0 <= i < |workers| && Serves(workers[i], fn)
    {
      var target := FindWorker(fn, -1);
      if target.None? {
        return false;
      }
      var call := Call(target.value, fn, startMs);
      RecordInvocationStart(CallKey(workers, call), startMs);
      started := started + {id};
      pending := pending[id := call];
      if !workers[target.value].isOpen {
        SettleCall(id, call, now, NotConnected);
      }
      return true;
    }

    method HandleWorkerInvokeFunction(id: nat, caller: nat, fn: string)
      requires Enabled(View(), Asks(id, caller, fn))
      modifies this
      ensures View() == Step(old(View()), Asks(id, caller, fn))
    {
      asked := asked + {id};
      var target := FindWorker(fn, caller);
      if target.None? {
        answers := answers + [Answer(caller, id, NotFound)];
      } else {
        workerInvocations := workerInvocations[id := caller];
      }
    }

    method HandleInvocationResult(id: nat, reply: Reply, now: int)
      modifies this
      ensures View() == Step(old(View()), Replies(id, reply, now))
    {
      if id in workerInvocations {
        var caller := workerInvocations[id];
        workerInvocations := workerInvocations - {id};
        answers := answers + [Answer(caller, id, Relayed(reply))];
        return;
      }
      if id !in pending {
        return;
      }
      SettleCall(id, pending[id], now, Replied(reply));
    }

    method HandleTimeout(id: nat, now: int)
      modifies this
      ensures View() == Step(old(View()), TimesOut(id, now))
    {
      if id in pending {
        SettleCall(id, pending[id], now, TimeoutError);
      }
    }
  }
}
