/** Server-sent events through the gateway: the provider-side parser, the printer that writes chunks to a channel,
    the handler that forwards them to the client, and the client's parser. */
module Sse {
  import opened Options
  import opened TextLines

  const PREFIX := "data: "
  const DONE := "[DONE]"
  const DONE_LINE := "data: [DONE]"

  /** The white space that trim removes. */
  predicate IsSpace(c: char) {
    var u := c as int;
    (9 <= u <= 13) || u == 32 || u == 0xA0 || u == 0x1680 || (0x2000 <= u <= 0x200A) ||
    u == 0x2028 || u == 0x2029 || u == 0x202F || u == 0x205F || u == 0x3000 || u == 0xFEFF
  }

  function TrimStart(s: string): string {
    if s != "" && IsSpace(s[0]) then TrimStart(s[1..]) else s
  }

  function TrimEnd(s: string): string {
    if s != "" && IsSpace(s[|s| - 1]) then TrimEnd(s[..|s| - 1]) else s
  }

  function Trim(s: string): string {
    TrimEnd(TrimStart(s))
  }

  // ---- The provider-side parser ----

  /** processSSELine; extract stands for JSON parsing and picking the chunk out of the result, if it has one. */
  function ProcessLine<C>(line: string, extract: string -> Option<C>): Option<C> {
    var t := Trim(line);
    if t == "" || t[0] == ':' || t == DONE_LINE then None
    else if PREFIX <= t then extract(t[|PREFIX|..])
    else None
  }

  function ProcessLines<C>(lines: seq<string>, extract: string -> Option<C>): seq<C> {
    if lines == [] then []
    else ProcessLines(lines[..|lines| - 1], extract) +
         match ProcessLine(lines[|lines| - 1], extract) case None => [] case Some(c) => [c]
  }

  lemma {:induction false} ProcessConcat<C>(a: seq<string>, b: seq<string>, extract: string -> Option<C>)
    ensures ProcessLines(a + b, extract) == ProcessLines(a, extract) + ProcessLines(b, extract)
  {
    if b == [] {
      assert a + b == a;
    } else {
      ProcessConcat(a, b[..|b| - 1], extract);
      assert (a + b)[..|a + b| - 1] == a + b[..|b| - 1];
    }
  }

  method EmitLines<C>(ready: seq<string>, extract: string -> Option<C>) returns (chunks: seq<C>)
    ensures chunks == ProcessLines(ready, extract)
  {
    chunks := [];
    for j := 0 to |ready|
      invariant chunks == ProcessLines(ready[..j], extract)
    {
      assert ready[..j + 1][..j] == ready[..j];
      var chunk := ProcessLine(ready[j], extract);
      if chunk.Some? { chunks := chunks + [chunk.value]; }
    }
    assert ready[..|ready|] == ready;
  }

  /** streamResponse: however the text arrives, the chunks are those of all its lines, the last one included. */
  method StreamResponse<C>(pieces: seq<string>, extract: string -> Option<C>) returns (chunks: seq<C>)
    ensures chunks == ProcessLines(Split(Flatten(pieces)), extract)
  {
    chunks := [];
    var buffer := "";
    ghost var complete: seq<string> := [];
    var i, done := 0, false;
    assert pieces[..0] == [];
    while !done
      invariant 0 <= i <= |pieces|
      invariant !done ==> Buffered(Flatten(pieces[..i]), complete, buffer) && chunks == ProcessLines(complete, extract)
      invariant done ==> buffer == "" && chunks == ProcessLines(Split(Flatten(pieces)), extract)
      decreases !done, |pieces| - i
    {
      done := i == |pieces|;
      if !done {
        FeedBuffer(Flatten(pieces[..i]), complete, buffer, pieces[i]);
        FlattenPush(pieces, i);
        buffer := buffer + pieces[i];
        i := i + 1;
      } else {
        NothingMore(pieces, i, complete, buffer);
      }
      var lines := Split(buffer);
      var ready := if done then lines else lines[..|lines| - 1];
      buffer := if done then "" else Last(lines);
      var more := EmitLines(ready, extract);
      ProcessConcat(complete, ready, extract);
      chunks, complete := chunks + more, complete + ready;
    }
    // The flush after the loop has nothing left to do: the last round already took the unfinished line.
    if Trim(buffer) != "" { assert false; }
  }

  lemma NothingMore(pieces: seq<string>, i: nat, complete: seq<string>, buffer: string)
    requires i == |pieces| && Buffered(Flatten(pieces[..i]), complete, buffer)
    ensures Split(Flatten(pieces)) == complete + Split(buffer)
  {
    assert pieces[..i] == pieces;
    SplitConcat(Flatten(pieces), complete, buffer, "");
    assert Flatten(pieces) + "" == Flatten(pieces) && buffer + "" == buffer;
  }

  // ---- The client's parser ----

  datatype Status = Running | Finished | Threw

  datatype Parsed<P> = Parsed(values: seq<P>, status: Status)

  function ParseLine<P>(r: Parsed<P>, line: string, decode: string -> Option<P>): Parsed<P> {
    if r.status != Running || !(PREFIX <= line) then r
    else if line[|PREFIX|..] == DONE then r.(status := Finished)
    else match decode(line[|PREFIX|..])
      case None => r.(status := Threw)
      case Some(p) => r.(values := r.values + [p])
  }

  function ParseLines<P>(r: Parsed<P>, lines: seq<string>, decode: string -> Option<P>): Parsed<P> {
    if lines == [] then r else ParseLine(ParseLines(r, lines[..|lines| - 1], decode), lines[|lines| - 1], decode)
  }

  /** What a reader of the whole text gets: the values yielded, and whether the parser threw. */
  function ParseText<P>(text: string, decode: string -> Option<P>): (seq<P>, bool) {
    var r := ParseLines(Parsed([], Running), Split(text), decode);
    (r.values, r.status == Threw)
  }

  lemma {:induction false} ParseConcat<P>(r: Parsed<P>, a: seq<string>, b: seq<string>, decode: string -> Option<P>)
    ensures ParseLines(r, a + b, decode) == ParseLines(ParseLines(r, a, decode), b, decode)
    ensures ParseLines(r, a, decode).status != Running ==> ParseLines(r, a + b, decode) == ParseLines(r, a, decode)
  {
    if b == [] {
      assert a + b == a;
    } else {
      ParseConcat(r, a, b[..|b| - 1], decode);
      assert (a + b)[..|a + b| - 1] == a + b[..|b| - 1];
    }
  }

  lemma Regroup<T>(a: seq<T>, b: seq<T>, c: seq<T>)
    ensures a + (b + c) == (a + b) + c
  {
  }

  /** The complete lines of a prefix of the reads are the first lines of the whole text. */
  lemma {:induction false} EarlyLines(pieces: seq<string>, i: nat, complete: seq<string>, buffer: string)
    returns (rest: seq<string>)
    requires i <= |pieces| && Buffered(Flatten(pieces[..i]), complete, buffer)
    ensures Split(Flatten(pieces)) == complete + rest
    decreases |pieces| - i
  {
    if i == |pieces| {
      assert pieces[..i] == pieces;
      rest := [buffer];
    } else {
      FeedBuffer(Flatten(pieces[..i]), complete, buffer, pieces[i]);
      FlattenPush(pieces, i);
      var lines := Split(buffer + pieces[i]);
      var more := EarlyLines(pieces, i + 1, complete + lines[..|lines| - 1], Last(lines));
      rest := lines[..|lines| - 1] + more;
      Regroup(complete, lines[..|lines| - 1], more);
    }
  }

  /** parseSSE: however the text arrives, and although it stops reading at the end marker, it yields what a
      reader of the whole text gets. */
  method ParseSSE<P>(pieces: seq<string>, decode: string -> Option<P>) returns (values: seq<P>, threw: bool)
    ensures (values, threw) == ParseText(Flatten(pieces), decode)
  {
    var r: Parsed<P> := Parsed([], Running);
    var buffer := "";
    ghost var complete: seq<string> := [];
    assert pieces[..0] == [];
    for i := 0 to |pieces|
      invariant Buffered(Flatten(pieces[..i]), complete, buffer)
      invariant r == ParseLines(Parsed([], Running), complete, decode) && r.status == Running
    {
      FeedBuffer(Flatten(pieces[..i]), complete, buffer, pieces[i]);
      FlattenPush(pieces, i);
      var lines := Split(buffer + pieces[i]);
      ghost var rest := EarlyLines(pieces, i + 1, complete + lines[..|lines| - 1], Last(lines));
      r := ParseReady(r, lines[..|lines| - 1], decode);
      ParseConcat(Parsed([], Running), complete, lines[..|lines| - 1], decode);
      complete, buffer := complete + lines[..|lines| - 1], Last(lines);
      if r.status != Running {
        ParseConcat(Parsed([], Running), complete, rest, decode);
        return r.values, r.status == Threw;
      }
    }
    assert pieces[..|pieces|] == pieces;
    LastLine(complete, buffer, decode);
    r := ParseLine(r, buffer, decode);
    return r.values, r.status == Threw;
  }

  lemma LastLine<P>(complete: seq<string>, buffer: string, decode: string -> Option<P>)
    ensures ParseLines(Parsed([], Running), complete + [buffer], decode) ==
            ParseLine(ParseLines(Parsed([], Running), complete, decode), buffer, decode)
  {
    assert (complete + [buffer])[..|complete|] == complete;
  }

  /** The inner loop over the complete lines; it stops at the end marker and at text that does not decode. */
  method ParseReady<P>(r0: Parsed<P>, lines: seq<string>, decode: string -> Option<P>) returns (r: Parsed<P>)
    requires r0.status == Running
    ensures r == ParseLines(r0, lines, decode)
  {
    r := r0;
    for i := 0 to |lines|
      invariant r == ParseLines(r0, lines[..i], decode) && r.status == Running
    {
      assert lines[..i + 1][..i] == lines[..i];
      r := ParseLine(r, lines[i], decode);
      if r.status != Running {
        ParseConcat(r0, lines[..i + 1], lines[i + 1..], decode);
        assert lines[..i + 1] + lines[i + 1..] == lines;
        return;
      }
    }
    assert lines[..|lines|] == lines;
  }

  // ---- The printer ----

  /** JSON, as far as it matters here: encoding an object gives a line of text in braces that decodes to it. */
  datatype Codec<!P(!new)> = Codec(encode: P -> string, decode: string -> Option<P>)

  ghost predicate Faithful<P(!new)>(codec: Codec<P>) {
    forall p :: FaithfulAt(codec, p)
  }

  ghost predicate FaithfulAt<P(!new)>(codec: Codec<P>, p: P) {
    var s := codec.encode(p);
    |s| >= 2 && s[0] == '{' && s[|s| - 1] == '}' && '\n' !in s && codec.decode(s) == Some(p)
  }

  function DataLine<P(!new)>(codec: Codec<P>, p: P): string {
    PREFIX + codec.encode(p)
  }

  function DataLines<P(!new)>(codec: Codec<P>, ps: seq<P>): seq<string> {
    if ps == [] then [] else DataLines(codec, ps[..|ps| - 1]) + [DataLine(codec, ps[|ps| - 1])]
  }

  /** What a provider stream delivers in the end: its chunks, and a note when it was interrupted. */
  function Delivered<P(!new)>(chunks: seq<P>, interrupted: bool, note: P): seq<P> {
    if interrupted then chunks + [note] else chunks
  }

  /** pipeStreamToChannel: the messages sent before the writer is closed. */
  method PipeStreamToChannel<P(!new)
                              >(codec: Codec<P>, chunks: seq<P>, interrupted: bool, note: P) returns (sent: seq<string>)
    ensures sent == DataLines(codec, Delivered(chunks, interrupted, note)) + [DONE_LINE]
  {
    sent := [];
    for i := 0 to |chunks|
      invariant sent == DataLines(codec, chunks[..i])
    {
      assert chunks[..i + 1][..i] == chunks[..i];
      sent := sent + [DataLine(codec, chunks[i])];
    }
    assert chunks[..|chunks|] == chunks;
    if interrupted {
      assert (chunks + [note])[..|chunks|] == chunks;
      sent := sent + [DataLine(codec, note)];
    }
    sent := sent + [DONE_LINE];
  }

  // ---- The handler ----

  datatype Response = Response(text: string, doneSent: bool, disconnected: bool, closed: bool)

  function OnMessage(r: Response, msg: string): Response {
    if r.disconnected then r
    else r.(doneSent := r.doneSent || Trim(msg) == DONE_LINE, text := r.text + msg + "\n\n")
  }

  function OnEnd(r: Response): Response {
    if r.disconnected then r
    else r.(text := if r.doneSent then r.text else r.text + "data: [DONE]\n\n", closed := true)
  }

  /** The streaming branch of the chat handler: flags and output that its callbacks share. */
  class StreamHandler {
    var text: string
    var doneSent: bool
    var clientDisconnected: bool
    var closed: bool

    function View(): Response
      reads this
    {
      Response(text, doneSent, clientDisconnected, closed)
    }

    constructor ()
      ensures View() == Response("", false, false, false)
    {
      text, doneSent, clientDisconnected, closed := "", false, false, false;
    }

    method ClientClosed()
      modifies this
      ensures View() == old(View()).(disconnected := true)
    {
      clientDisconnected := true;
    }

    method Message(msg: string)
      modifies this
      ensures View() == OnMessage(old(View()), msg)
    {
      if clientDisconnected { return; }
      if Trim(msg) == DONE_LINE { doneSent := true; }
      text := text + msg + "\n\n";
    }

    method End()
      modifies this
      ensures View() == OnEnd(old(View()))
    {
      if clientDisconnected { return; }
      if !doneSent { text := text + "data: [DONE]\n\n"; }
      closed := true;
    }
  }

  function Handle(messages: seq<string>): Response {
    if messages == [] then Response("", false, false, false)
    else OnMessage(Handle(messages[..|messages| - 1]), messages[|messages| - 1])
  }

  // ---- The round trip ----

  lemma DataLineFacts<P(!new)>(codec: Codec<P>, p: P)
    requires FaithfulAt(codec, p)
    ensures '\n' !in DataLine(codec, p) && Trim(DataLine(codec, p)) == DataLine(codec, p)
    ensures DataLine(codec, p) != DONE_LINE && PREFIX <= DataLine(codec, p)
    ensures DataLine(codec, p)[|PREFIX|..] == codec.encode(p) && codec.encode(p) != DONE
  {
    var s := codec.encode(p);
    var line := DataLine(codec, p);
    assert '\n' !in PREFIX;
    assert line[0] == 'd' && line[|line| - 1] == s[|s| - 1];
    assert line[|PREFIX|] == s[0] != DONE_LINE[|PREFIX|];
    assert s[0] != DONE[0];
  }

  lemma DoneLineFacts()
    ensures '\n' !in DONE_LINE && Trim(DONE_LINE) == DONE_LINE
    ensures PREFIX <= DONE_LINE && DONE_LINE[|PREFIX|..] == DONE
  {
    assert DONE_LINE == PREFIX + DONE;
  }

  /** The lines that messages, each followed by an empty line, amount to. */
  function EventsOf(messages: seq<string>): seq<string> {
    if messages == [] then [] else EventsOf(messages[..|messages| - 1]) + [messages[|messages| - 1], ""]
  }

  lemma {:induction false} HandleData<P(!new)>(codec: Codec<P>, ps: seq<P>)
    requires Faithful(codec)
    ensures var r := Handle(DataLines(codec, ps));
      !r.doneSent && !r.disconnected && Buffered(r.text, EventsOf(DataLines(codec, ps)), "")
  {
    if ps != [] {
      var front, p := ps[..|ps| - 1], ps[|ps| - 1];
      HandleData(codec, front);
      assert FaithfulAt(codec, p);
      DataLineFacts(codec, p);
      var ms := DataLines(codec, front);
      assert (ms + [DataLine(codec, p)])[..|ms|] == ms;
      EventLines(Handle(ms).text, EventsOf(ms), DataLine(codec, p));
    } else {
      assert Split("") == [] + [""];
    }
  }

  lemma {:induction false} ParseData<P(!new)>(codec: Codec<P>, ps: seq<P>)
    requires Faithful(codec)
    ensures ParseLines(Parsed([], Running), EventsOf(DataLines(codec, ps)), codec.decode) == Parsed(ps, Running)
  {
    if ps != [] {
      var front, p := ps[..|ps| - 1], ps[|ps| - 1];
      ParseData(codec, front);
      assert FaithfulAt(codec, p);
      DataLineFacts(codec, p);
      var ms, line := DataLines(codec, front), DataLine(codec, p);
      assert (ms + [line])[..|ms|] == ms;
      ParseTwo(Parsed([], Running), EventsOf(ms), line, codec.decode);
      assert front + [p] == ps;
    }
  }

  /** A message line followed by an empty line: only the message counts. */
  lemma ParseTwo<P>(r: Parsed<P>, lines: seq<string>, line: string, decode: string -> Option<P>)
    ensures ParseLines(r, lines + [line, ""], decode) == ParseLine(ParseLines(r, lines, decode), line, decode)
  {
    var all := lines + [line, ""];
    assert all[..|all| - 1] == lines + [line];
    assert (lines + [line])[..|lines|] == lines;
  }

  lemma {:induction false} NoDoneAmongData<P(!new)>(codec: Codec<P>, ps: seq<P>, i: nat)
    requires Faithful(codec) && i < |EventsOf(DataLines(codec, ps))|
    ensures EventsOf(DataLines(codec, ps))[i] != DONE_LINE
  {
    var front, p := ps[..|ps| - 1], ps[|ps| - 1];
    var ms, line := DataLines(codec, front), DataLine(codec, p);
    assert (ms + [line])[..|ms|] == ms;
    if i < |EventsOf(ms)| {
      NoDoneAmongData(codec, front, i);
    } else {
      assert FaithfulAt(codec, p);
      DataLineFacts(codec, p);
    }
  }

  /** The text ends with the end marker's event, and has no other end marker line. */
  ghost predicate OneDoneLast(text: string) {
    var lines := Split(text);
    |lines| >= 3 && forall i :: 0 <= i < |lines| ==> (lines[i] == DONE_LINE <==> i == |lines| - 3)
  }

  lemma WithDone<P(!new)>(codec: Codec<P>, ps: seq<P>)
    requires Faithful(codec)
    ensures var text := Handle(DataLines(codec, ps)).text + DONE_LINE + "\n\n";
      ParseText(text, codec.decode) == (ps, false) && OneDoneLast(text)
  {
    HandleData(codec, ps);
    ParseData(codec, ps);
    DoneLineFacts();
    var before, ls := Handle(DataLines(codec, ps)).text, EventsOf(DataLines(codec, ps));
    EventLines(before, ls, DONE_LINE);
    ParseTwo(Parsed([], Running), ls, DONE_LINE, codec.decode);
    var text := before + DONE_LINE + "\n\n";
    var all := ls + [DONE_LINE, ""];
    assert Split(text) == all + [""];
    assert (all + [""])[..|all|] == all;
    forall i | 0 <= i < |ls| ensures ls[i] != DONE_LINE { NoDoneAmongData(codec, ps, i); }
  }

  /** The messages that are kept, in their order. */
  function Arriving<T>(messages: seq<T>, keep: seq<bool>): seq<T>
    requires |messages| == |keep|
  {
    if messages == [] then []
    else
      var n := |messages| - 1;
      Arriving(messages[..n], keep[..n]) + if keep[n] then [messages[n]] else []
  }

  lemma {:induction false} ArrivingData<P(!new)>(codec: Codec<P>, ps: seq<P>, keep: seq<bool>)
    requires |ps| == |keep|
    ensures |DataLines(codec, ps)| == |ps|
    ensures Arriving(DataLines(codec, ps), keep) == DataLines(codec, Arriving(ps, keep))
  {
    DataLinesSize(codec, ps);
    if ps != [] {
      var n := |ps| - 1;
      DataLinesSize(codec, ps[..n]);
      ArrivingData(codec, ps[..n], keep[..n]);
      assert DataLines(codec, ps)[..n] == DataLines(codec, ps[..n]);
      var front := Arriving(ps[..n], keep[..n]);
      assert (front + [ps[n]])[..|front|] == front;
      assert front + [] == front && DataLines(codec, front) + [] == DataLines(codec, front);
    }
  }

  lemma {:induction false} DataLinesSize<P(!new)>(codec: Codec<P>, ps: seq<P>)
    ensures |DataLines(codec, ps)| == |ps|
  {
    if ps != [] {
      DataLinesSize(codec, ps[..|ps| - 1]);
    }
  }

  /** What the client gets from data messages, with the end marker behind them or without. */
  lemma ArrivedToClient<P(!new)>(codec: Codec<P>, ps: seq<P>, marker: bool)
    requires Faithful(codec)
    ensures var r := OnEnd(Handle(DataLines(codec, ps) + if marker then [DONE_LINE] else []));
      r.closed && ParseText(r.text, codec.decode) == (ps, false) && OneDoneLast(r.text)
  {
    var data := DataLines(codec, ps);
    DoneLineFacts();
    HandleData(codec, ps);
    WithDone(codec, ps);
    MarkerText(Handle(data).text);
    assert data + [] == data;
    assert (data + [DONE_LINE])[..|data|] == data;
  }

  /** The channel keeps order but may drop any of the pipe's messages on the way, a large one in the middle or all
      after some moment. Whichever of them arrive, the client gets exactly their payloads, in order, and one end
      marker, last; if all arrive, that is every chunk and, after an interruption, the note. */
  lemma PipeToClient<P(!new)>(codec: Codec<P>, chunks: seq<P>, interrupted: bool, note: P, keep: seq<bool>)
    requires Faithful(codec) && |keep| == |Delivered(chunks, interrupted, note)| + 1
    ensures var ps := Delivered(chunks, interrupted, note);
      var sent := DataLines(codec, ps) + [DONE_LINE];
      && |sent| == |keep|
      && var r := OnEnd(Handle(Arriving(sent, keep)));
         r.closed && ParseText(r.text, codec.decode) == (Arriving(ps, keep[..|ps|]), false) && OneDoneLast(r.text)
  {
    var ps := Delivered(chunks, interrupted, note);
    var data := DataLines(codec, ps);
    ArrivingData(codec, ps, keep[..|ps|]);
    assert (data + [DONE_LINE])[..|data|] == data;
    ArrivedToClient(codec, Arriving(ps, keep[..|ps|]), keep[|ps|]);
  }

  lemma MarkerText(t: string)
    ensures t + "data: [DONE]\n\n" == t + DONE_LINE + "\n\n"
  {
    assert "data: [DONE]\n\n" == DONE_LINE + "\n\n";
  }

  /** Pipe, channel, handler and client composed: for every list of chunks, however the provider's stream ended and
      however the response text is cut into reads, the client yields what the provider delivered. */
  method RoundTrip<P(!new)>(codec: Codec<P>, chunks: seq<P>, interrupted: bool, note: P, cut: string -> seq<string>)
    returns (values: seq<P>, threw: bool)
    requires Faithful(codec) && forall t :: Flatten(cut(t)) == t
    ensures !threw && values == chunks + if interrupted then [note] else []
  {
    var sent := PipeStreamToChannel(codec, chunks, interrupted, note);
    var handler := new StreamHandler();
    assert sent[..0] == [];
    for i := 0 to |sent|
      invariant handler.View() == Handle(sent[..i])
    {
      assert sent[..i + 1][..i] == sent[..i];
      handler.Message(sent[i]);
    }
    handler.End();
    assert sent[..|sent|] == sent;
    ArrivedToClient(codec, Delivered(chunks, interrupted, note), true);
    values, threw := ParseSSE(cut(handler.text), codec.decode);
  }
}
