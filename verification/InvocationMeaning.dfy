/** What each event does to the engine's tables and records, in every run and number by number. */
module InvocationMeaning {
  import opened CallMetrics
  import opened Invocations
  import opened Options

  // ---- Who can be called ----

  /** The function's first worker has an open socket. */
  ghost predicate FirstIsOpen(workers: seq<Worker>, fn: string) {
    exists w: nat :: ServesFirst(workers, fn, -1, w) && workers[w].isOpen
  }

  /** A function is offered by a worker exactly from a registration on until it is taken back. */
  ghost predicate Offered(events: seq<Event>, w: nat, fn: string) {
    exists i :: 0 <= i < |events| && events[i] == Changes(Registers(w, fn)) && NotTakenBack(events, i, w, fn)
  }

  ghost predicate NotTakenBack(events: seq<Event>, from: nat, w: nat, fn: string) {
    forall j :: from <= j < |events| ==> events[j] != Changes(Unregisters(w, fn))
  }

  ghost predicate Happened(events: seq<Event>, c: Change) {
    exists i :: 0 <= i < |events| && events[i] == Changes(c)
  }

  lemma HappenedGrows(front: seq<Event>, ev: Event, c: Change)
    ensures Happened(front + [ev], c) <==> Happened(front, c) || ev == Changes(c)
  {
    if Happened(front, c) {
      var i :| 0 <= i < |front| && front[i] == Changes(c);
      assert (front + [ev])[i] == Changes(c);
    }
    if ev == Changes(c) {
      assert (front + [ev])[|front|] == Changes(c);
    }
  }

  lemma OfferedGrows(front: seq<Event>, ev: Event, w: nat, fn: string)
    ensures Offered(front + [ev], w, fn)
      <==> ev == Changes(Registers(w, fn)) || (Offered(front, w, fn) && ev != Changes(Unregisters(w, fn)))
  {
    var events := front + [ev];
    if ev == Changes(Registers(w, fn)) {
      assert events[|front|] == ev && NotTakenBack(events, |front|, w, fn);
    }
    if Offered(front, w, fn) && ev != Changes(Unregisters(w, fn)) {
      var i :| 0 <= i < |front| && front[i] == Changes(Registers(w, fn)) && NotTakenBack(front, i, w, fn);
      assert events[i] == front[i] && NotTakenBack(events, i, w, fn);
    }
    if Offered(events, w, fn) && ev != Changes(Registers(w, fn)) {
      var i :| 0 <= i < |events| && events[i] == Changes(Registers(w, fn)) && NotTakenBack(events, i, w, fn);
      assert events[i] == front[i] && events[|front|] == ev;
      assert forall j :: i <= j < |front| ==> events[j] == front[j];
      assert NotTakenBack(front, i, w, fn);
    }
  }

  lemma ChangeExactly(e: Engine, c: Change, w: nat, fn: string)
    requires Enabled(e, Changes(c)) && w < |Changed(e.workers, c)|
    ensures var after := Changed(e.workers, c)[w];
      if w == |e.workers| then c.Joins? && after.live && after.isOpen && fn !in after.functions
      else
        && |Changed(e.workers, c)| == |e.workers| + (if c.Joins? then 1 else 0)
        && (after.live <==> e.workers[w].live && c != Leaves(w))
        && (after.isOpen <==> e.workers[w].isOpen && c != Leaves(w) && c != Closes(w))
        && (fn in after.functions <==>
            c == Registers(w, fn) || (fn in e.workers[w].functions && c != Unregisters(w, fn)))
  {
  }

  lemma WorkersStay(e: Engine, ev: Event)
    requires Enabled(e, ev)
    ensures |Step(e, ev).workers| >= |e.workers|
    ensures ev.Changes? && !ev.change.Joins? ==> ev.change.worker < |e.workers|
  {
  }

  lemma {:induction false} NothingBeforeJoining(events: seq<Event>, c: Change)
    requires Legal(events) && !c.Joins? && Happened(events, c)
    ensures c.worker < |After(events).workers|
  {
    if events != [] {
      var front, ev := events[..|events| - 1], events[|events| - 1];
      assert events == front + [ev];
      HappenedGrows(front, ev, c);
      WorkersStay(After(front), ev);
      if Happened(front, c) {
        NothingBeforeJoining(front, c);
      }
    }
  }

  lemma NotYetOffered(events: seq<Event>, w: nat, fn: string)
    requires Legal(events) && w >= |After(events).workers|
    ensures !Offered(events, w, fn) && !Happened(events, Leaves(w)) && !Happened(events, Closes(w))
  {
    if Offered(events, w, fn) {
      assert Happened(events, Registers(w, fn));
      NothingBeforeJoining(events, Registers(w, fn));
    } else if Happened(events, Leaves(w)) {
      NothingBeforeJoining(events, Leaves(w));
    } else if Happened(events, Closes(w)) {
      NothingBeforeJoining(events, Closes(w));
    }
  }

  /** In every run: a worker serves a function exactly if it has registered it, has not taken it back since, and has not
      left; its socket is open exactly if it has neither been closed nor left. */
  lemma {:induction false} ServesExactly(events: seq<Event>, w: nat, fn: string)
    requires Legal(events) && w < |After(events).workers|
    ensures var worker := After(events).workers[w];
      && (Serves(worker, fn) <==> Offered(events, w, fn) && !Happened(events, Leaves(w)))
      && (worker.isOpen <==> !Happened(events, Closes(w)) && !Happened(events, Leaves(w)))
  {
    OffersExactly(events, w, fn);
  }

  /** What the events so far say of a worker and a function. */
  ghost predicate SaidBy(events: seq<Event>, worker: Worker, w: nat, fn: string) {
    && (worker.live <==> !Happened(events, Leaves(w)))
    && (fn in worker.functions <==> Offered(events, w, fn))
    && (worker.isOpen <==> !Happened(events, Closes(w)) && !Happened(events, Leaves(w)))
  }

  lemma {:induction false} OffersExactly(events: seq<Event>, w: nat, fn: string)
    requires Legal(events) && w < |After(events).workers|
    ensures SaidBy(events, After(events).workers[w], w, fn)
  {
    var front, ev := events[..|events| - 1], events[|events| - 1];
    assert events == front + [ev];
    if w < |After(front).workers| {
      OffersExactly(front, w, fn);
    } else {
      NotYetOffered(front, w, fn);
    }
    OneMoreSaid(After(front), front, ev, w, fn);
  }

  lemma OneMoreSaid(e: Engine, front: seq<Event>, ev: Event, w: nat, fn: string)
    requires Enabled(e, ev) && w < |Step(e, ev).workers|
    requires if w < |e.workers| then SaidBy(front, e.workers[w], w, fn)
      else !Offered(front, w, fn) && !Happened(front, Leaves(w)) && !Happened(front, Closes(w))
    ensures SaidBy(front + [ev], Step(e, ev).workers[w], w, fn)
  {
    HappenedGrows(front, ev, Leaves(w));
    HappenedGrows(front, ev, Closes(w));
    OfferedGrows(front, ev, w, fn);
    if ev.Changes? {
      ChangeExactly(e, ev.change, w, fn);
    }
  }

  // ---- Records ----

  /** The eight classes of durations, in milliseconds. */
  predicate InClass(dur: int, b: nat) {
    match b
    case 0 => dur <= 10
    case 1 => 10 < dur <= 50
    case 2 => 50 < dur <= 100
    case 3 => 100 < dur <= 500
    case 4 => 500 < dur <= 1000
    case 5 => 1000 < dur <= 5000
    case 6 => 5000 < dur <= 30000
    case 7 => 30000 < dur
    case _ => false
  }

  /** One more ended call of the given duration in a record. */
  ghost predicate OneMoreEnd(was: Metrics, now: Metrics, dur: int, error: bool, timeout: bool) {
    && now.calls == was.calls + 1 && now.totalMs == was.totalMs + dur && now.lastCallAt == was.lastCallAt
    && now.errors == was.errors + (if error then 1 else 0) && now.timeouts == was.timeouts + (if timeout then 1 else 0)
    && now.min.Some? && now.min.value <= dur && (now.min.value == dur || now.min == was.min)
    && (was.min.Some? ==> now.min.value <= was.min.value)
    && now.max >= dur && now.max >= was.max && (now.max == dur || now.max == was.max)
    && forall b :: 0 <= b < 8 ==> now.buckets[b] == was.buckets[b] + if InClass(dur, b) then 1 else 0
  }

  /** The end of a call counts in the record under its worker's present name, and in the totals; without such a record
      nothing is counted. */
  ghost predicate EndCounts(e: Engine, e': Engine, call: Call, now: int, error: bool, timeout: bool)
    requires call.worker < |e.workers|
  {
    var key := MetricKey(call.fn + "@" + e.workers[call.worker].name);
    && e'.totalCalls == e.totalCalls
    && if key in e.functions then
         && key in e'.functions && OneMoreEnd(e.functions[key], e'.functions[key], now - call.startMs, error, timeout)
         && e'.functions - {key} == e.functions - {key}
         && e'.totalErrors == e.totalErrors + (if error then 1 else 0)
         && e'.totalTimeouts == e.totalTimeouts + (if timeout then 1 else 0)
       else
         e'.functions == e.functions && e'.totalErrors == e.totalErrors && e'.totalTimeouts == e.totalTimeouts
  }

  lemma BumpCounts(m: Metrics, dur: int, kind: EndKind)
    ensures OneMoreEnd(m, Bump(m, dur, kind), dur, kind != Fine, kind == TimedOut)
  {
  }

  lemma EndedCounts(e: Engine, call: Call, now: int, kind: EndKind)
    requires call.worker < |e.workers|
    ensures EndCounts(e, Ended(e, call, now, kind), call, now, kind != Fine, kind == TimedOut)
  {
    var key := CallKey(e.workers, call);
    if key in e.functions {
      BumpCounts(e.functions[key], now - call.startMs, kind);
      assert e.functions[key := Bump(e.functions[key], now - call.startMs, kind)] - {key} == e.functions - {key};
    }
  }

  // ---- Calls of the engine ----

  /** A call takes up a record under the worker's name, as it was or new, and notes the time. */
  ghost predicate CallCounts(e: Engine, e': Engine, w: nat, fn: string, startMs: int)
    requires w < |e.workers|
  {
    var key := MetricKey(fn + "@" + e.workers[w].name);
    && e'.totalCalls == e.totalCalls + 1 && e'.totalErrors == e.totalErrors && e'.totalTimeouts == e.totalTimeouts
    && e'.functions - {key} == e.functions - {key} && key in e'.functions && e'.functions[key].lastCallAt == startMs
    && if key in e.functions then e'.functions[key].(lastCallAt := e.functions[key].lastCallAt) == e.functions[key]
       else e'.functions[key] == Metrics(0, 0, 0, 0, None, 0, [0, 0, 0, 0, 0, 0, 0, 0], startMs)
  }

  lemma StartCounts(e: Engine, id: nat, w: nat, fn: string, startMs: int)
    requires w < |e.workers|
    ensures CallCounts(e, Started(e, id, Call(w, fn, startMs)), w, fn, startMs)
  {
    var key := CallKey(e.workers, Call(w, fn, startMs));
    assert Started(e, id, Call(w, fn, startMs)).functions - {key} == e.functions - {key};
  }

  lemma FirstIsOne(workers: seq<Worker>, fn: string, except: int, w: nat)
    requires ServesFirst(workers, fn, except, w)
    ensures Owner(workers, fn, except) == Some(w)
  {
  }

  lemma NobodyOwns(workers: seq<Worker>, fn: string, except: int)
    ensures Owner(workers, fn, except).None? <==> NobodyServes(workers, fn, except)
  {
  }

  lemma NoLatecomer(settled: seq<Settlement>, id: nat)
    ensures TimesSettled(settled, id) == 0 <==> forall k :: 0 <= k < |settled| ==> settled[k].id != id
  {
    if settled != [] {
      NoLatecomer(settled[..|settled| - 1], id);
    }
  }

  /** A call of a function whose first worker is w. The source sends it exactly if the worker's socket is open: it is
      then in flight and nothing has been settled. Otherwise it is settled at once as not connected, counted as an
      error. */
  lemma CallOfFirst(e: Engine, id: nat, fn: string, startMs: int, now: int, w: nat)
    requires Enabled(e, Triggers(id, fn, startMs, now)) && PendingStarted(e) && ServesFirst(e.workers, fn, -1, w)
    ensures var e', called := Step(e, Triggers(id, fn, startMs, now)), Call(w, fn, startMs);
      && e'.workers == e.workers && e'.forwards == e.forwards && e'.answers == e.answers
      && if e.workers[w].isOpen then
           e'.pending == e.pending[id := called] && e'.settled == e.settled && CallCounts(e, e', w, fn, startMs)
         else
           && e'.pending == e.pending && e'.settled == e.settled + [Settlement(id, NotConnected)]
           && exists mid: Engine :: mid.workers == e.workers && CallCounts(e, mid, w, fn, startMs)
                                    && EndCounts(mid, e', called, now, true, false)
  {
    FirstIsOne(e.workers, fn, -1, w);
    var called := Call(w, fn, startMs);
    var mid := Started(e, id, called);
    StartCounts(e, id, w, fn, startMs);
    assert mid.workers == e.workers;
    if !e.workers[w].isOpen {
      EndedCounts(mid, called, now, Failed);
      assert mid.pending - {id} == e.pending;
    }
  }

  lemma NotSettledYet(events: seq<Event>, id: nat)
    requires Legal(events) && id !in After(events).started
    ensures id !in After(events).pending
    ensures forall k :: 0 <= k < |After(events).settled| ==> After(events).settled[k].id != id
  {
    OnlyStartedPend(events);
    SettledExactlyOnce(events, id);
    NoLatecomer(After(events).settled, id);
  }

  /** In every run, a call is in flight right after it was made exactly if the function's first live worker has an
      open socket. It is settled exactly if that socket is closed, and then as not connected. A call of a function
      that nobody serves leaves no trace. */
  lemma TriggerExactly(events: seq<Event>, id: nat, fn: string, startMs: int, now: int)
    requires Legal(events + [Triggers(id, fn, startMs, now)])
    ensures Legal(events)
    ensures var e, e' := After(events), After(events + [Triggers(id, fn, startMs, now)]);
      && (id in e'.pending <==> FirstIsOpen(e.workers, fn))
      && (Settlement(id, NotConnected) in e'.settled <==> FirstIsClosed(e.workers, fn))
      && (forall o :: Settlement(id, o) in e'.settled ==> o == NotConnected)
      && (NobodyServes(e.workers, fn, -1) ==> e' == e)
      && (NobodyServes(e.workers, fn, -1) <==> !FirstIsOpen(e.workers, fn) && !FirstIsClosed(e.workers, fn))
  {
    var ev := Triggers(id, fn, startMs, now);
    assert (events + [ev])[..|events|] == events;
    var e, e' := After(events), After(events + [ev]);
    assert e' == Step(e, ev);
    NotSettledYet(events, id);
    OnlyStartedPend(events);
    NobodyOwns(e.workers, fn, -1);
    match Owner(e.workers, fn, -1)
    case None =>
    case Some(w) =>
      assert ServesFirst(e.workers, fn, -1, w);
      CallOfFirst(e, id, fn, startMs, now, w);
      forall v: nat | ServesFirst(e.workers, fn, -1, v) ensures v == w {
        FirstIsOne(e.workers, fn, -1, v);
      }
      assert !e.workers[w].isOpen ==> e'.settled[|e.settled|] == Settlement(id, NotConnected);
  }

  // ---- Replies and timeouts ----

  /** The workers and the forwarded calls are as they were. */
  ghost predicate OnlyCalls(e: Engine, e': Engine) {
    e'.workers == e.workers && e'.forwards == e.forwards && e'.answers == e.answers
  }

  lemma CalledWorkersExist(e: Engine, ev: Event)
    requires Enabled(e, ev) && forall id :: id in e.pending ==> e.pending[id].worker < |e.workers|
    ensures forall id :: id in Step(e, ev).pending ==> Step(e, ev).pending[id].worker < |Step(e, ev).workers|
  {
  }

  lemma {:induction false} InFlight(events: seq<Event>, id: nat)
    requires Legal(events) && id in After(events).pending
    ensures After(events).pending[id].worker < |After(events).workers| && id !in After(events).forwards
  {
    WorkersExist(events);
    SettledExactlyOnce(events, id);
  }

  lemma {:induction false} WorkersExist(events: seq<Event>)
    requires Legal(events)
    ensures forall id :: id in After(events).pending ==> After(events).pending[id].worker < |After(events).workers|
  {
    if events != [] {
      WorkersExist(events[..|events| - 1]);
      CalledWorkersExist(After(events[..|events| - 1]), events[|events| - 1]);
    }
  }

  /** In every run, a reply for a call in flight settles it with that reply and counts its end, as an error if the reply
      is one. */
  lemma ReplySettles(events: seq<Event>, id: nat, reply: Reply, now: int)
    requires Legal(events) && id in After(events).pending
    ensures var e, e' := After(events), Step(After(events), Replies(id, reply, now));
      && e.pending[id].worker < |e.workers|
      && e'.pending == e.pending - {id} && e'.settled == e.settled + [Settlement(id, Replied(reply))]
      && OnlyCalls(e, e') && EndCounts(e, e', e.pending[id], now, reply.Error?, false)
  {
    InFlight(events, id);
    var e := After(events);
    EndedCounts(e, e.pending[id], now, if reply.Error? then Failed else Fine);
  }

  /** In every run, a timeout settles a call in flight as timed out, counted as an error and as a timeout. */
  lemma TimeoutSettles(events: seq<Event>, id: nat, now: int)
    requires Legal(events) && id in After(events).pending
    ensures var e, e' := After(events), Step(After(events), TimesOut(id, now));
      && e.pending[id].worker < |e.workers|
      && e'.pending == e.pending - {id} && e'.settled == e.settled + [Settlement(id, TimeoutError)]
      && OnlyCalls(e, e') && EndCounts(e, e', e.pending[id], now, true, true)
  {
    InFlight(events, id);
    var e := After(events);
    EndedCounts(e, e.pending[id], now, TimedOut);
  }

  // ---- Forwarded calls ----

  /** A worker's call is forwarded exactly if another worker serves the function, and is answered NOT_FOUND at once
      otherwise. The engine's own calls and records are not touched. */
  lemma AskExactly(e: Engine, id: nat, caller: nat, fn: string)
    requires Enabled(e, Asks(id, caller, fn)) && id !in e.forwards
    ensures var e' := Step(e, Asks(id, caller, fn));
      && e'.forwards == (if NobodyServes(e.workers, fn, caller) then e.forwards else e.forwards[id := caller])
      && e'.answers == e.answers + (if NobodyServes(e.workers, fn, caller) then [Answer(caller, id, NotFound)] else [])
      && e' == e.(asked := e.asked + {id}, forwards := e'.forwards, answers := e'.answers)
  {
    NobodyOwns(e.workers, fn, caller);
  }

  /** A reply for a forwarded call goes to the worker that asked and ends the forwarding; the engine's own calls and
      records are not touched. */
  lemma ReplyRelays(e: Engine, id: nat, reply: Reply, now: int)
    requires id in e.forwards
    ensures var e' := Step(e, Replies(id, reply, now));
      && e'.answers == e.answers + [Answer(e.forwards[id], id, Relayed(reply))]
      && e' == e.(forwards := e.forwards - {id}, answers := e'.answers)
  {
  }

  // ---- The totals ----

  predicate IsError(o: Outcome) {
    match o
    case Replied(reply) => reply.Error?
    case TimeoutError => true
    case NotConnected => true
  }

  function ErrorsIn(settled: seq<Settlement>): nat {
    if settled == [] then 0
    else ErrorsIn(settled[..|settled| - 1]) + if IsError(settled[|settled| - 1].outcome) then 1 else 0
  }

  function TimeoutsIn(settled: seq<Settlement>): nat {
    if settled == [] then 0
    else TimeoutsIn(settled[..|settled| - 1]) + if settled[|settled| - 1].outcome.TimeoutError? then 1 else 0
  }

  /** The error and timeout totals have grown with the settlements, if these count. */
  ghost predicate CountsMore(e: Engine, e': Engine, counts: bool) {
    var errors := ErrorsIn(e'.settled) - ErrorsIn(e.settled);
    var timeouts := TimeoutsIn(e'.settled) - TimeoutsIn(e.settled);
    && errors >= 0 && timeouts >= 0
    && e'.totalErrors == e.totalErrors + (if counts then errors else 0)
    && e'.totalTimeouts == e.totalTimeouts + (if counts then timeouts else 0)
  }

  lemma SettleCounts(e: Engine, id: nat, call: Call, now: int, o: Outcome)
    ensures CountsMore(e, Settle(e, id, call, now, o), CallKey(e.workers, call) in e.functions)
  {
    assert (e.settled + [Settlement(id, o)])[..|e.settled|] == e.settled;
  }

  lemma TriggerCounts(e: Engine, id: nat, fn: string, startMs: int, now: int)
    ensures CountsMore(e, OnTrigger(e, id, fn, startMs, now), true)
  {
    var w := Owner(e.workers, fn, -1);
    if w.Some? {
      var call := Call(w.value, fn, startMs);
      SettleCounts(Started(e, id, call), id, call, now, NotConnected);
    }
  }

  /** The settlements a step adds are counted, unless the call's record is missing. */
  lemma StepCounts(e: Engine, ev: Event)
    requires Enabled(e, ev)
    ensures CountsMore(e, Step(e, ev), !EndsUnrecorded(e, ev))
  {
    match ev
    case Triggers(id, fn, startMs, now) => TriggerCounts(e, id, fn, startMs, now);
    case Replies(id, reply, now) =>
      if id !in e.forwards && id in e.pending {
        SettleCounts(e, id, e.pending[id], now, Replied(reply));
      }
    case TimesOut(id, now) =>
      if id in e.pending {
        SettleCounts(e, id, e.pending[id], now, TimeoutError);
      }
    case _ =>
  }

  /** In every run in which no end is lost, the error total is the number of calls settled with anything but a result,
      and the timeout total the number settled by a timeout. In any run the totals are at most these numbers. */
  lemma {:induction false} TotalsCountSettlements(events: seq<Event>)
    requires Legal(events)
    ensures var e := After(events);
      && e.totalErrors <= ErrorsIn(e.settled) && e.totalTimeouts <= TimeoutsIn(e.settled)
      && (NoEndLost(events) ==> e.totalErrors == ErrorsIn(e.settled) && e.totalTimeouts == TimeoutsIn(e.settled))
  {
    if events != [] {
      var front := events[..|events| - 1];
      TotalsCountSettlements(front);
      StepCounts(After(front), events[|events| - 1]);
    }
  }
}
