/** Who gets a frame and what is kept for later, in every run of a channel and in plain numbers. */
module ChannelMeaning {
  import opened Channel

  // ---- The buffer ----

  /** The lengths of all frames together. */
  function Size(frames: seq<Frame>): nat {
    if frames == [] then 0 else |frames[0].data| + Size(frames[1..])
  }

  lemma {:induction false} SizePush(frames: seq<Frame>, f: Frame)
    ensures Size(frames + [f]) == Size(frames) + |f.data|
  {
    if frames != [] {
      assert (frames + [f])[1..] == frames[1..] + [f];
      SizePush(frames[1..], f);
    }
  }

  lemma {:induction false} BytesIsSize(frames: seq<Frame>)
    ensures Bytes(frames) == Size(frames)
  {
    if frames != [] {
      BytesIsSize(frames[..|frames| - 1]);
      SizePush(frames[..|frames| - 1], frames[|frames| - 1]);
      assert frames == frames[..|frames| - 1] + [frames[|frames| - 1]];
    }
  }

  /** In every run: a frame sent to a channel without readers is refused exactly if the buffered frames and this one
      together are longer than 8 MiB. Otherwise the buffer grows by it. A refused frame changes nothing. */
  lemma BufferExactly(events: seq<Event>, f: Frame)
    requires Legal(events + [WriterSends(f)])
    ensures Legal(events)
    ensures var h, h' := After(events), After(events + [WriterSends(f)]);
      h.chan.readers == {} ==>
        && (h' == h <==> Size(h.chan.pending) + |f.data| > 8388608)
        && (h' != h ==> h'.chan.pending == h.chan.pending + [f])
        && (h' != h ==> h'.accepted == h.accepted + [f] && h'.offered == h.offered + [f])
        && (h' != h ==> h'.chan == h.chan.(pending := h'.chan.pending, pendingBytes := Size(h'.chan.pending)))
  {
    assert (events + [WriterSends(f)])[..|events|] == events;
    var h, h' := After(events), After(events + [WriterSends(f)]);
    CleanUp(events);
    BytesIsSize(h.chan.pending);
    SizePush(h.chan.pending, f);
    assert |h.chan.pending + [f]| != |h.chan.pending|;
  }

  // ---- Readers ----

  ghost predicate Happened(events: seq<Event>, e: Event) {
    exists i :: 0 <= i < |events| && events[i] == e
  }

  lemma HappenedGrows(front: seq<Event>, last: Event, e: Event)
    ensures Happened(front + [last], e) <==> Happened(front, e) || last == e
  {
    if Happened(front, e) {
      var i :| 0 <= i < |front| && front[i] == e;
      assert (front + [last])[i] == e;
    }
    if last == e {
      assert (front + [last])[|front|] == e;
    }
  }

  /** Socket i is a reader until its close event. It is open until it stops, its close event comes, or the writer has
      closed. */
  ghost predicate SocketExactly(events: seq<Event>, c: Chan, i: nat)
    requires i < |c.sockets|
  {
    && (i in c.readers <==> !Happened(events, ReaderCloses(i)))
    && (c.sockets[i].isOpen <==>
        (i in c.readers && !Happened(events, ReaderStops(i)) && !Happened(events, WriterCloses)))
  }

  lemma WriterStays(c: Chan, e: Event)
    requires Enabled(c, e)
    ensures Step(c, e).writerClosed == (c.writerClosed || e.WriterCloses?)
  {
  }

  lemma {:induction false} WriterIsGone(events: seq<Event>)
    requires Legal(events)
    ensures After(events).chan.writerClosed <==> Happened(events, WriterCloses)
  {
    if events != [] {
      var front, e := events[..|events| - 1], events[|events| - 1];
      assert events == front + [e];
      WriterIsGone(front);
      HappenedGrows(front, e, WriterCloses);
      WriterStays(After(front).chan, e);
    }
  }

  lemma SocketsStay(c: Chan, e: Event)
    requires Enabled(c, e)
    ensures |Step(c, e).sockets| == |c.sockets| + if e.ReaderAttaches? then 1 else 0
    ensures e.ReaderStops? || e.ReaderCloses? ==> e.reader < |c.sockets|
  {
  }

  lemma {:induction false} OnlyKnownSockets(events: seq<Event>, i: nat)
    requires Legal(events) && i >= |After(events).chan.sockets|
    ensures !Happened(events, ReaderCloses(i)) && !Happened(events, ReaderStops(i))
  {
    if events != [] {
      var front, e := events[..|events| - 1], events[|events| - 1];
      assert events == front + [e];
      SocketsStay(After(front).chan, e);
      OnlyKnownSockets(front, i);
      HappenedGrows(front, e, ReaderCloses(i));
      HappenedGrows(front, e, ReaderStops(i));
    }
  }

  /** What one event does to a socket that is there already, and to a newcomer. */
  lemma SocketStep(c: Chan, e: Event, i: nat)
    requires Enabled(c, e) && Kept(c) && ReadersKnown(c) && OpenAreReaders(c) && i < |Step(c, e).sockets|
    ensures var c' := Step(c, e);
      if i < |c.sockets| then
        && (i in c'.readers <==> i in c.readers && e != ReaderCloses(i))
        && (c'.sockets[i].isOpen <==>
            (c.sockets[i].isOpen && e != ReaderStops(i) && e != ReaderCloses(i) && e != WriterCloses))
      else
        e == ReaderAttaches && i in c'.readers && c'.sockets[i].isOpen == !c.writerClosed
  {
  }

  lemma {:induction false} ReadersExactly(events: seq<Event>, i: nat)
    requires Legal(events) && i < |After(events).chan.sockets|
    ensures SocketExactly(events, After(events).chan, i)
  {
    var front, e := events[..|events| - 1], events[|events| - 1];
    assert events == front + [e];
    SocketEvents(front, e, i);
    CleanUp(front);
    StreamsAreFifo(front);
    var c := After(front).chan;
    assert After(events).chan == Step(c, e);
    SocketStep(c, e, i);
    if i < |c.sockets| {
      ReadersExactly(front, i);
    } else {
      OnlyKnownSockets(front, i);
      WriterIsGone(front);
    }
  }

  lemma SocketEvents(front: seq<Event>, e: Event, i: nat)
    ensures Happened(front + [e], ReaderCloses(i)) <==> Happened(front, ReaderCloses(i)) || e == ReaderCloses(i)
    ensures Happened(front + [e], ReaderStops(i)) <==> Happened(front, ReaderStops(i)) || e == ReaderStops(i)
    ensures Happened(front + [e], WriterCloses) <==> Happened(front, WriterCloses) || e == WriterCloses
  {
    HappenedGrows(front, e, ReaderCloses(i));
    HappenedGrows(front, e, ReaderStops(i));
    HappenedGrows(front, e, WriterCloses);
  }

  /** In every run: a frame sent while readers are attached is sent on at once to exactly the open ones, and nothing is
      buffered. */
  lemma RelayExactly(events: seq<Event>, f: Frame, i: nat)
    requires Legal(events) && Legal(events + [WriterSends(f)]) && i < |After(events).chan.sockets|
    ensures var c, c' := After(events).chan, After(events + [WriterSends(f)]).chan;
      c.readers != {} ==>
        && c' == c.(sockets := c'.sockets) && |c'.sockets| == |c.sockets| && c'.pending == []
        && c'.sockets[i].isOpen == c.sockets[i].isOpen
        && c'.sockets[i].log == c.sockets[i].log + (if c.sockets[i].isOpen then [f] else [])
  {
    assert (events + [WriterSends(f)])[..|events|] == events;
    CleanUp(events);
    StreamsAreFifo(events);
  }

  /** A newcomer is sent the whole buffer, which is then empty. It stays open exactly while the writer is there. Nobody
      else's log changes. */
  lemma AttachExactly(events: seq<Event>)
    requires Legal(events + [ReaderAttaches])
    ensures Legal(events)
    ensures var c, c' := After(events).chan, After(events + [ReaderAttaches]).chan;
      && c'.sockets == c.sockets + [Socket(!Happened(events, WriterCloses), c.pending)]
      && c'.readers == c.readers + {|c.sockets|}
      && c'.pending == [] && c'.pendingBytes == 0
      && c'.timer == c.timer && c'.registered && c'.writerClosed == c.writerClosed
  {
    assert (events + [ReaderAttaches])[..|events|] == events;
    WriterIsGone(events);
    CleanUp(events);
  }

  // ---- After the writer ----

  /** When the writer closes, the timer is started exactly if frames are waiting, and they go on waiting. The channel
      goes away at once exactly if none are waiting and no reader is attached. No log changes. */
  lemma WriterClosesExactly(events: seq<Event>)
    requires Legal(events + [WriterCloses])
    ensures Legal(events)
    ensures var c, c' := After(events).chan, After(events + [WriterCloses]).chan;
      && (c'.timer <==> c.pending != []) && c'.pending == c.pending && c'.readers == c.readers
      && (c'.registered <==> c.pending != [] || c.readers != {})
      && |c'.sockets| == |c.sockets|
      && forall i :: 0 <= i < |c.sockets| ==> c'.sockets[i] == Socket(false, c.sockets[i].log)
  {
    assert (events + [WriterCloses])[..|events|] == events;
    CleanUp(events);
    StreamsAreFifo(events);
  }

  /** The timer drops the buffer and nothing else; the channel goes away exactly if no reader is attached. */
  lemma TimerExactly(events: seq<Event>)
    requires Legal(events + [TimerFires])
    ensures Legal(events)
    ensures var h, h' := After(events), After(events + [TimerFires]);
      && h'.chan.pending == [] && !h'.chan.timer && h'.abandoned == h.abandoned + h.chan.pending
      && (h'.chan.registered <==> h.chan.readers != {})
      && h'.chan.sockets == h.chan.sockets && h'.chan.readers == h.chan.readers
  {
    assert (events + [TimerFires])[..|events|] == events;
    CleanUp(events);
  }

  /** A reader's close event takes it off the channel, which goes away exactly if the writer is gone and it was the last
      one; its timer is then cleared, and not before. No log changes. */
  lemma CloseExactly(events: seq<Event>, reader: nat)
    requires Legal(events + [ReaderCloses(reader)])
    ensures Legal(events)
    ensures var c, c' := After(events).chan, After(events + [ReaderCloses(reader)]).chan;
      && c'.readers == c.readers - {reader} && c'.pending == c.pending
      && (c'.registered <==> !Happened(events, WriterCloses) || c'.readers != {})
      && (c'.timer <==> c.timer && c'.readers != {})
      && |c'.sockets| == |c.sockets|
      && forall i :: 0 <= i < |c.sockets| ==> c'.sockets[i].log == c.sockets[i].log
  {
    assert (events + [ReaderCloses(reader)])[..|events|] == events;
    CleanUp(events);
    WriterIsGone(events);
  }
}
