/** One streaming channel of the engine: a writer, readers that attach lazily, a bounded buffer for frames no reader
    has seen, and a timer that drops what nobody collects. */
module Channel {

  newtype Byte = x: int | 0 <= x < 256

  datatype Frame = Frame(data: seq<Byte>, isBinary: bool)

  /** A reader's socket as the engine sees it; `log` is what has been sent on it. */
  datatype Socket = Socket(isOpen: bool, log: seq<Frame>)

  /** The state of a channel. Sockets are numbered in the order in which they attached; `readers` is readWss. */
  datatype Chan = Chan(registered: bool, writerClosed: bool, timer: bool,
                       pending: seq<Frame>, pendingBytes: nat,
                       readers: set<nat>, sockets: seq<Socket>)

  const MAX_PENDING_CHANNEL_BYTES: nat := 8 * 1024 * 1024

  /** What can happen to a channel. A socket that stops being open stays among the readers until its close event. */
  datatype Event =
    | WriterSends(frame: Frame)
    | WriterCloses
    | ReaderAttaches
    | ReaderStops(reader: nat)
    | ReaderCloses(reader: nat)
    | TimerFires

  function Created(): Chan {
    Chan(true, false, false, [], 0, {}, [])
  }

  function Bytes(frames: seq<Frame>): nat {
    if frames == [] then 0 else Bytes(frames[..|frames| - 1]) + |frames[|frames| - 1].data|
  }

  predicate Enabled(c: Chan, e: Event) {
    match e
    case WriterSends(_) => !c.writerClosed
    case WriterCloses => !c.writerClosed
    case ReaderAttaches => c.registered
    case ReaderStops(i) => i in c.readers && i < |c.sockets| && c.sockets[i].isOpen
    case ReaderCloses(i) => i in c.readers && i < |c.sockets|
    case TimerFires => c.timer
  }

  // ---- The steps ----

  predicate Receives(readers: set<nat>, sockets: seq<Socket>, i: nat)
    requires i < |sockets|
  {
    i in readers && sockets[i].isOpen
  }

  function Send(s: Socket, f: Frame): Socket {
    s.(log := s.log + [f])
  }

  function Stop(s: Socket): Socket {
    s.(isOpen := false)
  }

  /** The frame goes to every reader that is open, and to nobody else. */
  function Relay(readers: set<nat>, sockets: seq<Socket>, f: Frame): (r: seq<Socket>)
    ensures |r| == |sockets|
  {
    seq(|sockets|, i requires 0 <= i < |sockets| =>
      if Receives(readers, sockets, i) then Send(sockets[i], f) else sockets[i])
  }

  function StopAll(readers: set<nat>, sockets: seq<Socket>): (r: seq<Socket>)
    ensures |r| == |sockets|
  {
    seq(|sockets|, i requires 0 <= i < |sockets| => if i in readers then Stop(sockets[i]) else sockets[i])
  }

  predicate Fits(c: Chan, f: Frame) {
    c.pendingBytes + |f.data| <= MAX_PENDING_CHANNEL_BYTES
  }

  function Dispose(c: Chan): Chan {
    c.(timer := false, pending := [], registered := c.registered && !(c.readers == {} && c.writerClosed))
  }

  function OnSend(c: Chan, f: Frame): Chan {
    if c.readers != {} then c.(sockets := Relay(c.readers, c.sockets, f))
    else if Fits(c, f) then c.(pending := c.pending + [f], pendingBytes := c.pendingBytes + |f.data|)
    else c
  }

  function OnWriterClose(c: Chan): Chan {
    var c := c.(writerClosed := true);
    if c.pending == [] then Dispose(c.(sockets := StopAll(c.readers, c.sockets))) else c.(timer := true)
  }

  /** The newcomer is sent the whole buffer, and is closed at once if the writer is already gone. */
  function OnAttach(c: Chan): Chan {
    c.(readers := c.readers + {|c.sockets|}, sockets := c.sockets + [Socket(!c.writerClosed, c.pending)],
       pending := [], pendingBytes := if c.pending == [] then c.pendingBytes else 0)
  }

  function OnStop(c: Chan, i: nat): Chan
    requires i < |c.sockets|
  {
    c.(sockets := c.sockets[i := Stop(c.sockets[i])])
  }

  function OnReaderClose(c: Chan, i: nat): Chan
    requires i < |c.sockets|
  {
    var c := OnStop(c, i).(readers := c.readers - {i});
    if c.writerClosed && c.readers == {} then Dispose(c) else c
  }

  function Step(c: Chan, e: Event): Chan
    requires Enabled(c, e)
  {
    match e
    case WriterSends(f) => OnSend(c, f)
    case WriterCloses => OnWriterClose(c)
    case ReaderAttaches => OnAttach(c)
    case ReaderStops(i) => OnStop(c, i)
    case ReaderCloses(i) => OnReaderClose(c, i)
    case TimerFires => Dispose(c)
  }

  // ---- Runs ----

  /** A run so far: the state, every frame offered that did not overflow, those of them that somebody received or that
      were buffered, how many found only closing readers, and what the timer dropped. */
  datatype History = History(chan: Chan, offered: seq<Frame>, accepted: seq<Frame>, missed: nat, abandoned: seq<Frame>)

  predicate AnyOpen(c: Chan) {
    exists i :: 0 <= i < |c.sockets| && Receives(c.readers, c.sockets, i)
  }

  /** The two ways to lose a frame on arrival. */
  predicate Overflows(c: Chan, f: Frame) {
    c.readers == {} && !Fits(c, f)
  }

  predicate Misses(c: Chan) {
    c.readers != {} && !AnyOpen(c)
  }

  function Next(h: History, e: Event): History
    requires Enabled(h.chan, e)
  {
    var c := Step(h.chan, e);
    match e
    case WriterSends(f) =>
      if Overflows(h.chan, f) then h.(chan := c)
      else if Misses(h.chan) then h.(chan := c, offered := h.offered + [f], missed := h.missed + 1)
      else h.(chan := c, offered := h.offered + [f], accepted := h.accepted + [f])
    case TimerFires => h.(chan := c, abandoned := h.abandoned + h.chan.pending)
    case _ => h.(chan := c)
  }

  ghost predicate Legal(events: seq<Event>)
    decreases |events|, 0
  {
    events == [] || (Legal(events[..|events| - 1]) && Enabled(After(events[..|events| - 1]).chan, events[|events| - 1]))
  }

  ghost function After(events: seq<Event>): History
    requires Legal(events)
    decreases |events|, 1
  {
    if events == [] then History(Created(), [], [], 0, [])
    else Next(After(events[..|events| - 1]), events[|events| - 1])
  }

  // ---- What every run keeps ----

  /** The buffer is accounted for and bounded, and a channel that has lost its writer can still go away. */
  ghost predicate Kept(c: Chan) {
    && (c.registered ==> c.pendingBytes == Bytes(c.pending) <= MAX_PENDING_CHANNEL_BYTES)
    && (c.pending != [] ==> c.readers == {} && (c.writerClosed ==> c.timer))
    && (c.writerClosed && c.registered ==> c.readers != {} || c.timer)
    && (!c.registered ==> c.writerClosed && c.readers == {} && c.pending == [] && !c.timer)
    && (c.timer ==> c.writerClosed)
  }

  ghost predicate ReadersKnown(c: Chan) {
    forall i :: i in c.readers ==> i < |c.sockets|
  }

  ghost predicate OpenAreReaders(c: Chan) {
    forall i :: 0 <= i < |c.sockets| && c.sockets[i].isOpen ==> i in c.readers
  }

  lemma StepKeeps(c: Chan, e: Event)
    requires Enabled(c, e) && Kept(c)
    ensures Kept(Step(c, e))
  {
    if e.WriterSends? && c.readers == {} && Fits(c, e.frame) {
      assert (c.pending + [e.frame])[..|c.pending|] == c.pending;
    }
  }

  lemma {:induction false} CleanUp(events: seq<Event>)
    requires Legal(events)
    ensures Kept(After(events).chan)
  {
    if events != [] {
      CleanUp(events[..|events| - 1]);
      StepKeeps(After(events[..|events| - 1]).chan, events[|events| - 1]);
    }
  }

  // ---- Order ----

  /** The frames of the log stand next to each other among the accepted frames. */
  ghost predicate IsSlice(log: seq<Frame>, frames: seq<Frame>) {
    exists k :: SliceAt(log, frames, k)
  }

  ghost predicate SliceAt(log: seq<Frame>, frames: seq<Frame>, k: int) {
    0 <= k && k + |log| <= |frames| && frames[k..k + |log|] == log
  }

  ghost predicate IsSuffix(log: seq<Frame>, frames: seq<Frame>) {
    SliceAt(log, frames, |frames| - |log|)
  }

  /** A socket's log is a slice of the accepted frames, and while it is open it misses none of the latest. */
  ghost predicate InOrder(s: Socket, accepted: seq<Frame>) {
    IsSlice(s.log, accepted) && (s.isOpen ==> IsSuffix(s.log, accepted))
  }

  ghost predicate AllInOrder(sockets: seq<Socket>, accepted: seq<Frame>) {
    forall i :: 0 <= i < |sockets| ==> InOrder(sockets[i], accepted)
  }

  /** What holds of the logs in every run. */
  ghost predicate Fifo(h: History) {
    && ReadersKnown(h.chan) && OpenAreReaders(h.chan)
    && AllInOrder(h.chan.sockets, h.accepted)
    && (h.chan.pending != [] ==> IsSuffix(h.chan.pending, h.accepted))
  }

  lemma SliceGrows(log: seq<Frame>, frames: seq<Frame>, f: Frame)
    requires IsSlice(log, frames)
    ensures IsSlice(log, frames + [f])
  {
    var k :| SliceAt(log, frames, k);
    assert SliceAt(log, frames + [f], k);
  }

  lemma SuffixGrows(log: seq<Frame>, frames: seq<Frame>, f: Frame)
    requires IsSuffix(log, frames)
    ensures IsSuffix(log + [f], frames + [f]) && IsSlice(log + [f], frames + [f])
  {
    assert SliceAt(log + [f], frames + [f], |frames| - |log|);
  }

  lemma RelayInOrder(c: Chan, accepted: seq<Frame>, f: Frame)
    requires OpenAreReaders(c) && AllInOrder(c.sockets, accepted)
    ensures AllInOrder(Relay(c.readers, c.sockets, f), accepted + [f])
  {
    forall i | 0 <= i < |c.sockets| ensures InOrder(Relay(c.readers, c.sockets, f)[i], accepted + [f]) {
      var s := c.sockets[i];
      assert InOrder(s, accepted);
      if s.isOpen {
        SuffixGrows(s.log, accepted, f);
      } else {
        SliceGrows(s.log, accepted, f);
      }
    }
  }

  /** With no reader nobody is open, so the logs only have to stay slices. */
  lemma BufferInOrder(c: Chan, accepted: seq<Frame>, f: Frame)
    requires c.readers == {} && OpenAreReaders(c) && AllInOrder(c.sockets, accepted)
    ensures AllInOrder(c.sockets, accepted + [f])
  {
    forall i | 0 <= i < |c.sockets| ensures InOrder(c.sockets[i], accepted + [f]) {
      assert InOrder(c.sockets[i], accepted);
      SliceGrows(c.sockets[i].log, accepted, f);
    }
  }

  lemma BufferSuffix(pending: seq<Frame>, accepted: seq<Frame>, f: Frame)
    requires pending != [] ==> IsSuffix(pending, accepted)
    ensures IsSuffix(pending + [f], accepted + [f])
  {
    if pending != [] {
      SuffixGrows(pending, accepted, f);
    }
  }

  lemma SendFifo(h: History, f: Frame)
    requires Enabled(h.chan, WriterSends(f)) && Kept(h.chan) && Fifo(h)
    ensures Fifo(Next(h, WriterSends(f)))
  {
    var c := h.chan;
    if Overflows(c, f) {
    } else if c.readers == {} {
      BufferInOrder(c, h.accepted, f);
      BufferSuffix(c.pending, h.accepted, f);
    } else if AnyOpen(c) {
      RelayInOrder(c, h.accepted, f);
    } else {
      NobodyReceives(c, f);
    }
  }

  lemma NobodyReceives(c: Chan, f: Frame)
    requires !AnyOpen(c)
    ensures Relay(c.readers, c.sockets, f) == c.sockets
  {
    forall i | 0 <= i < |c.sockets| ensures Relay(c.readers, c.sockets, f)[i] == c.sockets[i] {
      assert !Receives(c.readers, c.sockets, i);
    }
  }

  lemma AttachFifo(h: History)
    requires Enabled(h.chan, ReaderAttaches) && Fifo(h)
    ensures Fifo(Next(h, ReaderAttaches))
  {
    if h.chan.pending == [] {
      assert SliceAt([], h.accepted, |h.accepted|);
    }
    assert InOrder(Socket(!h.chan.writerClosed, h.chan.pending), h.accepted);
  }

  lemma StopInOrder(s: Socket, accepted: seq<Frame>)
    requires InOrder(s, accepted)
    ensures InOrder(Stop(s), accepted)
  {
  }

  lemma OtherFifo(h: History, e: Event)
    requires Enabled(h.chan, e) && Fifo(h) && !e.WriterSends? && !e.ReaderAttaches?
    ensures Fifo(Next(h, e))
  {
    forall i | 0 <= i < |h.chan.sockets| ensures InOrder(Stop(h.chan.sockets[i]), h.accepted) {
      StopInOrder(h.chan.sockets[i], h.accepted);
    }
  }

  /** FIFO: in every run each reader's log is a contiguous slice of the accepted frames, ending with the latest one as
      long as the reader is open; the buffer holds the latest frames. */
  lemma {:induction false} StreamsAreFifo(events: seq<Event>)
    requires Legal(events)
    ensures Fifo(After(events))
  {
    if events != [] {
      var front, e := events[..|events| - 1], events[|events| - 1];
      StreamsAreFifo(front);
      CleanUp(front);
      if e.WriterSends? {
        SendFifo(After(front), e.frame);
      } else if e.ReaderAttaches? {
        AttachFifo(After(front));
      } else {
        OtherFifo(After(front), e);
      }
    }
  }

  // ---- One reader at a time ----

  function Delivered(sockets: seq<Socket>): seq<Frame> {
    if sockets == [] then [] else Delivered(sockets[..|sockets| - 1]) + sockets[|sockets| - 1].log
  }

  ghost predicate OneOpen(c: Chan) {
    forall i, j :: 0 <= i < j < |c.sockets| ==> !(c.sockets[i].isOpen && c.sockets[j].isOpen)
  }

  ghost predicate OneReader(events: seq<Event>)
    requires Legal(events)
    decreases |events|
  {
    OneOpen(After(events).chan) && (events == [] || OneReader(events[..|events| - 1]))
  }

  /** Nobody but the last to attach is open, and nobody once the writer has closed. */
  ghost predicate OnlyLastOpen(c: Chan) {
    forall i :: 0 <= i < |c.sockets| && c.sockets[i].isOpen ==> i == |c.sockets| - 1 && !c.writerClosed
  }

  ghost predicate Balanced(h: History) {
    && Delivered(h.chan.sockets) + h.chan.pending + h.abandoned == h.accepted
    && (h.abandoned != [] ==> !h.chan.registered)
  }

  ghost predicate Counted(h: History) {
    |h.accepted| + h.missed == |h.offered| && (h.missed == 0 ==> h.accepted == h.offered)
  }

  lemma {:induction false} SameLogs(a: seq<Socket>, b: seq<Socket>)
    requires |a| == |b| && forall i :: 0 <= i < |a| ==> a[i].log == b[i].log
    ensures Delivered(a) == Delivered(b)
  {
    if a != [] {
      SameLogs(a[..|a| - 1], b[..|b| - 1]);
    }
  }

  lemma RelayToLast(c: Chan, f: Frame)
    requires OnlyLastOpen(c) && OpenAreReaders(c) && AnyOpen(c)
    ensures Delivered(Relay(c.readers, c.sockets, f)) == Delivered(c.sockets) + [f]
  {
    var n := |c.sockets| - 1;
    var r := Relay(c.readers, c.sockets, f);
    assert Receives(c.readers, c.sockets, n);
    forall i | 0 <= i < n ensures r[i] == c.sockets[i] { assert !c.sockets[i].isOpen; }
    assert r[..n] == c.sockets[..n];
    assert Delivered(r) == Delivered(c.sockets[..n]) + (c.sockets[n].log + [f]);
  }

  lemma SendBalanced(h: History, f: Frame)
    requires Enabled(h.chan, WriterSends(f)) && Kept(h.chan) && OpenAreReaders(h.chan)
    requires OnlyLastOpen(h.chan) && Balanced(h)
    ensures Balanced(Next(h, WriterSends(f)))
  {
    var c := h.chan;
    if c.readers != {} {
      if AnyOpen(c) {
        RelayToLast(c, f);
      } else {
        NobodyReceives(c, f);
      }
    }
  }

  lemma AttachBalanced(h: History)
    requires Enabled(h.chan, ReaderAttaches) && Balanced(h)
    ensures Balanced(Next(h, ReaderAttaches))
  {
    var after := Next(h, ReaderAttaches).chan.sockets;
    assert after[..|h.chan.sockets|] == h.chan.sockets;
  }

  lemma OtherBalanced(h: History, e: Event)
    requires Enabled(h.chan, e) && !e.WriterSends? && !e.ReaderAttaches?
    requires Kept(h.chan) && Balanced(h)
    ensures Balanced(Next(h, e))
  {
    SameLogs(h.chan.sockets, Next(h, e).chan.sockets);
  }

  lemma StaysLast(h: History, e: Event)
    requires Enabled(h.chan, e) && Kept(h.chan) && OpenAreReaders(h.chan) && OnlyLastOpen(h.chan)
    requires OneOpen(Next(h, e).chan)
    ensures OnlyLastOpen(Next(h, e).chan)
  {
    if e.ReaderAttaches? && !h.chan.writerClosed {
      NewcomerIsAlone(h.chan);
    }
  }

  lemma NewcomerIsAlone(c: Chan)
    requires OneOpen(OnAttach(c)) && !c.writerClosed
    ensures forall i :: 0 <= i < |c.sockets| ==> !c.sockets[i].isOpen
  {
    var c' := OnAttach(c);
    assert c'.sockets[|c.sockets|].isOpen;
    forall i | 0 <= i < |c.sockets| ensures !c.sockets[i].isOpen {
      assert c'.sockets[i] == c.sockets[i];
    }
  }

  lemma {:induction false} OneReaderRun(events: seq<Event>)
    requires Legal(events) && OneReader(events)
    ensures var h := After(events); OnlyLastOpen(h.chan) && Balanced(h)
  {
    if events != [] {
      var front, e := events[..|events| - 1], events[|events| - 1];
      OneReaderRun(front);
      CleanUp(front);
      StreamsAreFifo(front);
      StaysLast(After(front), e);
      if e.WriterSends? {
        SendBalanced(After(front), e.frame);
      } else if e.ReaderAttaches? {
        AttachBalanced(After(front));
      } else {
        OtherBalanced(After(front), e);
      }
    }
  }

  lemma {:induction false} Counts(events: seq<Event>)
    requires Legal(events)
    ensures Counted(After(events))
  {
    if events != [] {
      Counts(events[..|events| - 1]);
    }
  }

  /** With at most one open reader at a time, what was delivered, then the buffer, then what the timer dropped are the
      accepted frames in order; and they are all the frames that did not overflow exactly if none arrived while the
      only readers left were closing. */
  lemma OneReaderLosesNothing(events: seq<Event>)
    requires Legal(events) && OneReader(events)
    ensures var h := After(events);
      && Delivered(h.chan.sockets) + h.chan.pending + h.abandoned == h.accepted
      && (Delivered(h.chan.sockets) + h.chan.pending + h.abandoned == h.offered <==> h.missed == 0)
  {
    OneReaderRun(events);
    Counts(events);
  }

  // ---- Frames that find no open reader ----

  /** No frame of the run arrives while readers are attached of which none is open. */
  ghost predicate NoneMissed(events: seq<Event>)
    requires Legal(events)
    decreases |events|
  {
    events == [] ||
    (var front, e := events[..|events| - 1], events[|events| - 1];
     NoneMissed(front) && !(e.WriterSends? && Misses(After(front).chan)))
  }

  /** For every run and any number of readers: every frame that did not overflow was accepted if and only if none
      arrived while the only readers left were closing. */
  lemma {:induction false} MissedExactly(events: seq<Event>)
    requires Legal(events)
    ensures After(events).missed == 0 <==> NoneMissed(events)
    ensures After(events).accepted == After(events).offered <==> NoneMissed(events)
  {
    Counts(events);
    if events != [] {
      MissedExactly(events[..|events| - 1]);
    }
  }

  lemma Extend(events: seq<Event>, e: Event)
    requires Legal(events) && Enabled(After(events).chan, e)
    ensures Legal(events + [e]) && After(events + [e]) == Next(After(events), e)
  {
    assert (events + [e])[..|events|] == events;
  }

  /** Such a run: the only reader has stopped being open and its close event has not come when the frame arrives. */
  lemma MissedFrame(f: Frame) returns (events: seq<Event>)
    ensures events == [ReaderAttaches, ReaderStops(0), WriterSends(f)] && Legal(events)
    ensures After(events).missed == 1 && After(events).accepted == [] && After(events).offered == [f]
  {
    Extend([], ReaderAttaches);
    assert [] + [ReaderAttaches] == [ReaderAttaches];
    var c := After([ReaderAttaches]).chan;
    assert c.readers == {0} && c.sockets == [Socket(true, [])];
    Extend([ReaderAttaches], ReaderStops(0));
    assert [ReaderAttaches] + [ReaderStops(0)] == [ReaderAttaches, ReaderStops(0)];
    var d := After([ReaderAttaches, ReaderStops(0)]).chan;
    assert d.sockets == [Socket(false, [])] && 0 in d.readers;
    Extend([ReaderAttaches, ReaderStops(0)], WriterSends(f));
    events := [ReaderAttaches, ReaderStops(0), WriterSends(f)];
    assert [ReaderAttaches, ReaderStops(0)] + [WriterSends(f)] == events;
  }

  // ---- Prompt close events ----

  ghost predicate ReadersOpen(c: Chan) {
    forall i :: i in c.readers ==> i < |c.sockets| && (!c.writerClosed ==> c.sockets[i].isOpen)
  }

  /** If sockets leave the readers as soon as they stop being open, no frame is missed, however many readers there
      are. */
  lemma {:induction false} PromptClosesMissNothing(events: seq<Event>)
    requires Legal(events) && forall i :: 0 <= i < |events| ==> !events[i].ReaderStops?
    ensures After(events).missed == 0 && After(events).accepted == After(events).offered
    ensures ReadersOpen(After(events).chan)
  {
    if events != [] {
      var front, e := events[..|events| - 1], events[|events| - 1];
      PromptClosesMissNothing(front);
      var c := After(front).chan;
      assert !e.ReaderStops?;
      if c.readers != {} && e.WriterSends? {
        var i :| i in c.readers;
        assert Receives(c.readers, c.sockets, i);
      }
    }
  }

  // ---- The channel object ----

  class EngineChannel {
    var registered: bool
    var writerClosed: bool
    var abandonTimer: bool
    var pending: seq<Frame>
    var pendingBytes: nat
    var readWss: set<nat>
    var sockets: seq<Socket>

    ghost function View(): Chan
      reads this
    {
      Chan(registered, writerClosed, abandonTimer, pending, pendingBytes, readWss, sockets)
    }

    constructor ()
      ensures View() == Created()
    {
      registered, writerClosed, abandonTimer := true, false, false;
      pending, pendingBytes, readWss, sockets := [], 0, {}, [];
    }

    method Message(frame: Frame)
      requires Enabled(View(), WriterSends(frame)) && ReadersKnown(View())
      modifies this
      ensures View() == Step(old(View()), WriterSends(frame))
    {
      if readWss == {} {
        if pendingBytes + |frame.data| > MAX_PENDING_CHANNEL_BYTES {
          return;
        }
        pending := pending + [frame];
        pendingBytes := pendingBytes + |frame.data|;
        return;
      }
      ghost var was := sockets;
      var left := readWss;
      while left != {}
        invariant left <= readWss == old(readWss) && |sockets| == |was|
        invariant View() == old(View()).(sockets := sockets)
        invariant forall i :: 0 <= i < |was| ==>
          sockets[i] == if i !in left && Receives(readWss, was, i) then Send(was[i], frame) else was[i]
        decreases |left|
      {
        var reader :| reader in left;
        if sockets[reader].isOpen {
          sockets := sockets[reader := Send(sockets[reader], frame)];
        }
        left := left - {reader};
      }
      assert sockets == Relay(readWss, was, frame);
    }

    method DisposeChannel()
      modifies this
      ensures View() == Dispose(old(View()))
    {
      abandonTimer := false;
      pending := [];
      if readWss == {} && writerClosed {
        registered := false;
      }
    }

    method CloseReaders()
      requires ReadersKnown(View())
      modifies this`sockets
      ensures sockets == StopAll(readWss, old(sockets))
    {
      ghost var was := sockets;
      var left := readWss;
      while left != {}
        invariant left <= readWss && |sockets| == |was|
        invariant forall i :: 0 <= i < |was| ==>
          sockets[i] == if i in readWss && i !in left then Stop(was[i]) else was[i]
        decreases |left|
      {
        var reader :| reader in left;
        sockets := sockets[reader := Stop(sockets[reader])];
        left := left - {reader};
      }
    }

    method WriterClosed()
      requires Enabled(View(), WriterCloses) && ReadersKnown(View())
      modifies this
      ensures View() == Step(old(View()), WriterCloses)
    {
      writerClosed := true;
      if |pending| == 0 {
        CloseReaders();
        DisposeChannel();
      } else {
        abandonTimer := true;
      }
    }

    method AttachReader() returns (reader: nat)
      requires Enabled(View(), ReaderAttaches)
      modifies this
      ensures View() == Step(old(View()), ReaderAttaches) && reader == |old(sockets)|
    {
      reader := |sockets|;
      sockets := sockets + [Socket(true, [])];
      readWss := readWss + {reader};
      if |pending| > 0 {
        var i := 0;
        while i < |pending|
          invariant 0 <= i <= |pending|
          invariant readWss == old(readWss) + {reader}
          invariant View() == old(View()).(readers := readWss, sockets := old(sockets) + [Socket(true, pending[..i])])
        {
          sockets := sockets[reader := Send(sockets[reader], pending[i])];
          assert pending[..i + 1] == pending[..i] + [pending[i]];
          i := i + 1;
        }
        assert pending[..i] == pending;
        pending := [];
        pendingBytes := 0;
        if writerClosed {
          sockets := sockets[reader := Stop(sockets[reader])];
        }
      } else if writerClosed {
        sockets := sockets[reader := Stop(sockets[reader])];
      }
      assert sockets == old(sockets) + [Socket(!writerClosed, old(pending))];
    }

    method ReaderClosed(reader: nat)
      requires Enabled(View(), ReaderCloses(reader))
      modifies this
      ensures View() == Step(old(View()), ReaderCloses(reader))
    {
      sockets := sockets[reader := Stop(sockets[reader])];
      readWss := readWss - {reader};
      if writerClosed && readWss == {} {
        DisposeChannel();
      }
    }
  }
}
