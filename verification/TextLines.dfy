/** Splitting text into lines, all at once or read by read with the last, possibly unfinished, line kept back. */
module TextLines {

  /** What one more character does to the lines of a text. */
  function AddChar(lines: seq<string>, c: char): (r: seq<string>)
    requires lines != []
    ensures r != []
  {
    if c == '\n' then lines + [""] else lines[|lines| - 1 := lines[|lines| - 1] + [c]]
  }

  /** split('\n'): always at least one line. */
  function Split(t: string): (lines: seq<string>)
    ensures lines != []
  {
    if t == "" then [""] else AddChar(Split(t[..|t| - 1]), t[|t| - 1])
  }

  function Last(lines: seq<string>): string
    requires lines != []
  {
    lines[|lines| - 1]
  }

  function Flatten(pieces: seq<string>): string {
    if pieces == [] then "" else Flatten(pieces[..|pieces| - 1]) + pieces[|pieces| - 1]
  }

  lemma SplitPush(t: string, c: char)
    ensures Split(t + [c]) == AddChar(Split(t), c)
  {
    assert (t + [c])[..|t|] == t;
  }

  lemma AddCharBehind(head: seq<string>, lines: seq<string>, c: char)
    requires lines != []
    ensures AddChar(head + lines, c) == head + AddChar(lines, c)
  {
  }

  lemma {:induction false} NoNewlineIsOneLine(t: string)
    requires '\n' !in t
    ensures Split(t) == [t]
  {
    if t != "" {
      var front, c := t[..|t| - 1], t[|t| - 1];
      NoNewlineIsOneLine(front);
      assert t == front + [c];
    }
  }

  lemma {:induction false} LinesHaveNoNewline(t: string, i: nat)
    requires i < |Split(t)|
    ensures '\n' !in Split(t)[i]
  {
    if t != "" {
      var front := t[..|t| - 1];
      if i < |Split(front)| { LinesHaveNoNewline(front, i); }
    }
  }

  /** Splitting a longer text only redoes the last line. */
  lemma {:induction false} SplitConcat(a: string, head: seq<string>, last: string, b: string)
    requires Split(a) == head + [last]
    ensures Split(a + b) == head + Split(last + b)
  {
    if b == "" {
      assert Split(a)[|head|] == last;
      LinesHaveNoNewline(a, |head|);
      NoNewlineIsOneLine(last);
      assert a + b == a && last + b == last;
    } else {
      var front, c := b[..|b| - 1], b[|b| - 1];
      SplitConcat(a, head, last, front);
      assert a + b == (a + front) + [c] && last + b == (last + front) + [c];
      SplitPush(a + front, c);
      SplitPush(last + front, c);
      AddCharBehind(head, Split(last + front), c);
    }
  }

  /** The line buffer after some pieces: complete lines so far, and the rest. */
  ghost predicate Buffered(text: string, complete: seq<string>, buffer: string) {
    Split(text) == complete + [buffer]
  }

  /** One read: splitting the buffer with the new text appended completes exactly the right lines. */
  lemma FeedBuffer(text: string, complete: seq<string>, buffer: string, piece: string)
    requires Buffered(text, complete, buffer)
    ensures var lines := Split(buffer + piece);
      Buffered(text + piece, complete + lines[..|lines| - 1], Last(lines))
  {
    SplitConcat(text, complete, buffer, piece);
    var lines := Split(buffer + piece);
    assert complete + lines == (complete + lines[..|lines| - 1]) + [Last(lines)];
  }

  lemma FlattenPush(pieces: seq<string>, i: nat)
    requires i < |pieces|
    ensures Flatten(pieces[..i + 1]) == Flatten(pieces[..i]) + pieces[i]
  {
    assert pieces[..i + 1][..i] == pieces[..i];
  }

  lemma LineEnds(text: string, complete: seq<string>, line: string)
    requires Buffered(text, complete, line)
    ensures Buffered(text + ['\n'], complete + [line], "")
  {
    SplitPush(text, '\n');
  }

  /** A message followed by an empty line adds the message as a line, and the empty line, before what follows. */
  lemma EventLines(text: string, complete: seq<string>, message: string)
    requires Buffered(text, complete, "") && '\n' !in message
    ensures Buffered(text + message + "\n\n", complete + [message, ""], "")
  {
    FeedMessage(text, complete, message);
    LineEnds(text + message, complete, message);
    LineEnds(text + message + ['\n'], complete + [message], "");
    assert (text + message + ['\n']) + ['\n'] == text + message + "\n\n";
    assert (complete + [message]) + [""] == complete + [message, ""];
  }

  lemma FeedMessage(text: string, complete: seq<string>, message: string)
    requires Buffered(text, complete, "") && '\n' !in message
    ensures Buffered(text + message, complete, message)
  {
    SplitConcat(text, complete, "", message);
    NoNewlineIsOneLine(message);
    assert "" + message == message;
  }
}
