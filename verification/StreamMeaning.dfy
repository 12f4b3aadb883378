/** What a provider's stream yields, line form by line form, and the lines that a text consists of. */
module StreamMeaning {
  import opened Options
  import opened Sse
  import opened TextLines

  // ---- Lines ----

  /** The text that lines make when each but the last is ended by a newline. */
  function Joined(lines: seq<string>): string
    requires lines != []
  {
    if |lines| == 1 then lines[0] else Joined(lines[..|lines| - 1]) + "\n" + lines[|lines| - 1]
  }

  ghost predicate AreLines(lines: seq<string>) {
    lines != [] && forall i :: 0 <= i < |lines| ==> '\n' !in lines[i]
  }

  /** Splitting finds the lines again: it is the one way to write a text as lines. */
  lemma {:induction false} SplitJoined(lines: seq<string>)
    requires AreLines(lines)
    ensures Split(Joined(lines)) == lines
  {
    var n := |lines| - 1;
    if n == 0 {
      NoNewlineIsOneLine(lines[0]);
    } else {
      SplitJoined(lines[..n]);
      var text := Joined(lines[..n]);
      assert lines[..n] == lines[..n - 1] + [lines[n - 1]];
      LineEnds(text, lines[..n - 1], lines[n - 1]);
      assert '\n' !in lines[n];
      FeedMessage(text + ['\n'], lines[..n - 1] + [lines[n - 1]], lines[n]);
      assert lines == lines[..n] + [lines[n]];
    }
  }

  lemma {:induction false} JoinedSplit(text: string)
    ensures AreLines(Split(text)) && Joined(Split(text)) == text
  {
    forall i | 0 <= i < |Split(text)| ensures '\n' !in Split(text)[i] {
      LinesHaveNoNewline(text, i);
    }
    if text != "" {
      var front, c := text[..|text| - 1], text[|text| - 1];
      JoinedSplit(front);
      var lines := Split(front);
      assert text == front + [c];
      if c == '\n' {
        assert (lines + [""])[..|lines|] == lines;
      } else {
        LongerLast(lines, c);
      }
    }
  }

  lemma LongerLast(lines: seq<string>, c: char)
    requires lines != []
    ensures Joined(lines[|lines| - 1 := lines[|lines| - 1] + [c]]) == Joined(lines) + [c]
  {
    var n := |lines| - 1;
    var longer := lines[n := lines[n] + [c]];
    if n > 0 {
      assert longer[..n] == lines[..n];
      assert Joined(lines[..n]) + "\n" + (lines[n] + [c]) == (Joined(lines[..n]) + "\n" + lines[n]) + [c];
    }
  }

  // ---- White space ----

  ghost predicate Blank(s: string) {
    forall i :: 0 <= i < |s| ==> IsSpace(s[i])
  }

  /** White space is what ECMAScript calls white space or a line terminator, and nothing else. */
  lemma SpacesListed(c: char)
    ensures IsSpace(c) <==>
      || c in "\t\n\U{B}\U{C}\r \U{A0}\U{1680}\U{2028}\U{2029}\U{202F}\U{205F}\U{3000}\U{FEFF}"
      || '\U{2000}' <= c <= '\U{200A}'
  {
  }

  /** Text that neither begins nor ends with white space. */
  ghost predicate IsTight(s: string) {
    s != "" ==> !IsSpace(s[0]) && !IsSpace(s[|s| - 1])
  }

  lemma {:induction false} TrimStartOf(lead: string, s: string)
    requires Blank(lead) && (s != "" ==> !IsSpace(s[0]))
    ensures TrimStart(lead + s) == s
  {
    if lead == "" {
      assert lead + s == s;
    } else {
      assert (lead + s)[1..] == lead[1..] + s;
      TrimStartOf(lead[1..], s);
    }
  }

  lemma {:induction false} TrimEndOf(s: string, trail: string)
    requires Blank(trail) && (s != "" ==> !IsSpace(s[|s| - 1]))
    ensures TrimEnd(s + trail) == s
  {
    if trail == "" {
      assert s + trail == s;
    } else {
      assert (s + trail)[..|s + trail| - 1] == s + trail[..|trail| - 1];
      TrimEndOf(s, trail[..|trail| - 1]);
    }
  }

  lemma {:induction false} AllBlank(s: string)
    requires Blank(s)
    ensures TrimStart(s) == ""
  {
    assert s + "" == s;
    TrimStartOf(s, "");
  }

  /** Trimming takes the white space off both ends, and nothing else. */
  lemma TrimExactly(lead: string, s: string, trail: string)
    requires Blank(lead) && Blank(trail) && IsTight(s)
    ensures Trim(lead + s + trail) == s
  {
    if s == "" {
      assert Blank(lead + s + trail);
      AllBlank(lead + s + trail);
    } else {
      assert lead + s + trail == lead + (s + trail);
      TrimStartOf(lead, s + trail);
      TrimEndOf(s, trail);
    }
  }

  // ---- The forms a line can take ----

  /** A line of a provider's text: data with white space around it, or a line that is to be passed over. */
  datatype Line =
    | Data(lead: string, json: string, trail: string)
    | Marker(lead: string, trail: string)
    | Comment(lead: string, text: string)
    | Empty(blank: string)
    | Other(lead: string, text: string)

  function Written(line: Line): string {
    match line
    case Data(lead, json, trail) => lead + "data: " + json + trail
    case Marker(lead, trail) => lead + "data: [DONE]" + trail
    case Comment(lead, text) => lead + ":" + text
    case Empty(blank) => blank
    case Other(lead, text) => lead + text
  }

  /** Text that begins with something else than a data prefix followed by anything but white space. */
  ghost predicate IsOther(text: string) {
    text != "" && !IsSpace(text[0]) && ("data: " <= text ==> Blank(text[6..]))
  }

  ghost predicate WellFormed(line: Line) {
    match line
    case Data(lead, json, trail) =>
      Blank(lead) && Blank(trail) && json != "" && !IsSpace(json[|json| - 1]) && json != "[DONE]"
    case Marker(lead, trail) => Blank(lead) && Blank(trail)
    case Comment(lead, _) => Blank(lead)
    case Empty(blank) => Blank(blank)
    case Other(lead, text) => Blank(lead) && IsOther(text)
  }

  /** A text as it stands without the white space at its end. */
  lemma {:induction false} CutEnd(s: string) returns (core: string, trail: string)
    ensures s == core + trail && Blank(trail) && (core != "" ==> !IsSpace(core[|core| - 1]))
  {
    if s != "" && IsSpace(s[|s| - 1]) {
      var t: string;
      core, t := CutEnd(s[..|s| - 1]);
      trail := t + [s[|s| - 1]];
    } else {
      core, trail := s, "";
    }
  }

  lemma {:induction false} CutStart(s: string) returns (lead: string, rest: string)
    ensures s == lead + rest && Blank(lead) && (rest != "" ==> !IsSpace(rest[0]))
  {
    if s != "" && IsSpace(s[0]) {
      var l: string;
      l, rest := CutStart(s[1..]);
      lead := [s[0]] + l;
    } else {
      lead, rest := "", s;
    }
  }

  lemma DataForm(lead: string, body: string) returns (line: Line)
    requires Blank(lead) && !Blank(body)
    ensures WellFormed(line) && Written(line) == lead + "data: " + body
  {
    var json, trail := CutEnd(body);
    assert json != "";
    assert body == json + trail;
    if json == "[DONE]" {
      line := Marker(lead, trail);
      assert lead + "data: [DONE]" + trail == lead + "data: " + ("[DONE]" + trail);
    } else {
      line := Data(lead, json, trail);
      assert lead + "data: " + json + trail == lead + "data: " + (json + trail);
    }
  }

  /** Every line has one of the forms. */
  lemma EveryLineHasAForm(s: string) returns (line: Line)
    ensures WellFormed(line) && Written(line) == s
  {
    var lead, rest := CutStart(s);
    if rest == "" {
      assert lead + rest == lead;
      line := Empty(lead);
    } else if "data: " <= rest && !Blank(rest[6..]) {
      line := DataForm(lead, rest[6..]);
      assert lead + "data: " + rest[6..] == lead + ("data: " + rest[6..]);
    } else {
      line := Other(lead, rest);
    }
  }

  /** What extraction makes of a line: the chunk of its data, if there is one. */
  function Yielded<C>(line: Line, extract: string -> Option<C>): seq<C> {
    if line.Data? && extract(line.json).Some? then [extract(line.json).value] else []
  }

  lemma LettersAreTight()
    ensures !IsSpace('d') && !IsSpace(':') && !IsSpace(']') && IsSpace(' ')
  {
  }

  lemma DataHasBody(core: string, trail: string)
    requires core != "" && !IsSpace(core[|core| - 1])
    ensures "data: " <= core ==> "data: " <= core + trail && !Blank((core + trail)[6..])
  {
    LettersAreTight();
    if "data: " <= core {
      assert "data: "[5] == ' ' && |core| > 6;
      assert (core + trail)[6..][|core| - 7] == core[|core| - 1];
    }
  }

  lemma OtherIsIgnored<C>(lead: string, text: string, extract: string -> Option<C>)
    requires Blank(lead) && IsOther(text)
    ensures ProcessLine(lead + text, extract).None?
  {
    var core, trail := CutEnd(text);
    assert core != "" && core[0] == text[0];
    assert lead + text == lead + core + trail;
    TrimExactly(lead, core, trail);
    DataHasBody(core, trail);
  }

  lemma MarkedIsIgnored<C>(line: Line, extract: string -> Option<C>)
    requires WellFormed(line) && (line.Marker? || line.Comment? || line.Empty?)
    ensures ProcessLine(Written(line), extract).None?
  {
    LettersAreTight();
    match line
    case Marker(lead, trail) =>
      TrimExactly(lead, "data: [DONE]", trail);
    case Comment(lead, text) =>
      assert Written(line) == lead + (":" + text);
      assert !("data: " <= ":" + text) by { assert (":" + text)[0] == ':' && "data: "[0] == 'd'; }
      OtherIsIgnored(lead, ":" + text, extract);
    case Empty(blank) =>
      TrimExactly(blank, "", "");
      assert blank + "" + "" == blank;
  }

  lemma DataIsExtracted<C>(lead: string, json: string, trail: string, extract: string -> Option<C>)
    requires WellFormed(Data(lead, json, trail))
    ensures ProcessLine(Written(Data(lead, json, trail)), extract) == extract(json)
  {
    LettersAreTight();
    var core := "data: " + json;
    assert core[0] == 'd' && core[|core| - 1] == json[|json| - 1] && core[6..] == json;
    assert "data: [DONE]"[6..] == "[DONE]";
    assert lead + "data: " + json + trail == lead + core + trail;
    TrimExactly(lead, core, trail);
  }

  /** A data line yields what extraction finds in what follows its prefix. A blank line, a comment, the end marker and a
      line without the prefix, or with nothing behind it, yield nothing. Every line has one of these forms. */
  lemma LineYields<C>(line: Line, extract: string -> Option<C>)
    requires WellFormed(line)
    ensures ProcessLines([Written(line)], extract) == Yielded(line, extract)
  {
    assert [Written(line)][..0] == [];
    assert ProcessLines([], extract) == [];
    if line.Data? {
      DataIsExtracted(line.lead, line.json, line.trail, extract);
    } else if line.Other? {
      OtherIsIgnored(line.lead, line.text, extract);
    } else {
      MarkedIsIgnored(line, extract);
    }
  }

  // ---- Whole streams ----

  function AllWritten(lines: seq<Line>): (r: seq<string>)
    ensures |r| == |lines|
    ensures forall i :: 0 <= i < |lines| ==> r[i] == Written(lines[i])
  {
    seq(|lines|, i requires 0 <= i < |lines| => Written(lines[i]))
  }

  function AllYielded<C>(lines: seq<Line>, extract: string -> Option<C>): seq<C> {
    if lines == [] then [] else Yielded(lines[0], extract) + AllYielded(lines[1..], extract)
  }

  lemma {:induction false} LinesYield<C>(lines: seq<Line>, extract: string -> Option<C>)
    requires forall i :: 0 <= i < |lines| ==> WellFormed(lines[i])
    ensures ProcessLines(AllWritten(lines), extract) == AllYielded(lines, extract)
  {
    if lines != [] {
      assert AllWritten(lines) == [Written(lines[0])] + AllWritten(lines[1..]);
      ProcessConcat([Written(lines[0])], AllWritten(lines[1..]), extract);
      LineYields(lines[0], extract);
      LinesYield(lines[1..], extract);
    }
  }

  /** The lines of a provider's text, one per newline. */
  ghost predicate IsProviderText(lines: seq<Line>) {
    lines != [] && forall i :: 0 <= i < |lines| ==> WellFormed(lines[i]) && '\n' !in Written(lines[i])
  }

  /** Every text is a provider's text. */
  lemma {:induction false} EveryTextHasLines(text: string) returns (lines: seq<Line>)
    ensures IsProviderText(lines) && Joined(AllWritten(lines)) == text
  {
    JoinedSplit(text);
    lines := FormsOf(Split(text));
    assert AllWritten(lines) == Split(text);
  }

  lemma {:induction false} FormsOf(texts: seq<string>) returns (lines: seq<Line>)
    ensures |lines| == |texts| && forall i :: 0 <= i < |texts| ==> WellFormed(lines[i]) && Written(lines[i]) == texts[i]
  {
    lines := [];
    if texts != [] {
      var front := FormsOf(texts[..|texts| - 1]);
      var last := EveryLineHasAForm(texts[|texts| - 1]);
      lines := front + [last];
    }
  }

  /** The provider's stream, whatever its lines and however it is cut into reads: it yields the chunks of its data
      lines, all of them and in order, and nothing for any other line. */
  method StreamYields<C>(lines: seq<Line>, pieces: seq<string>, extract: string -> Option<C>) returns (chunks: seq<C>)
    requires IsProviderText(lines) && Flatten(pieces) == Joined(AllWritten(lines))
    ensures chunks == AllYielded(lines, extract)
  {
    chunks := StreamResponse(pieces, extract);
    SplitJoined(AllWritten(lines));
    LinesYield(lines, extract);
  }

  // ---- Chunks among other lines ----

  /** The texts stand as data in these lines, in order, with other lines between them. */
  ghost predicate Carry(lines: seq<Line>, texts: seq<string>) {
    if lines == [] then texts == []
    else if lines[0].Data? then texts != [] && texts[0] == lines[0].json && Carry(lines[1..], texts[1..])
    else Carry(lines[1..], texts)
  }

  function Printed<C>(chunks: seq<C>, encode: C -> string): seq<string> {
    seq(|chunks|, i requires 0 <= i < |chunks| => encode(chunks[i]))
  }

  lemma {:induction false} CarriedChunks<C>(lines: seq<Line>, chunks: seq<C>, encode: C -> string,
                                            extract: string -> Option<C>)
    requires Carry(lines, Printed(chunks, encode))
    requires forall i :: 0 <= i < |chunks| ==> extract(encode(chunks[i])) == Some(chunks[i])
    ensures AllYielded(lines, extract) == chunks
  {
    if lines != [] {
      if lines[0].Data? {
        assert Printed(chunks, encode)[1..] == Printed(chunks[1..], encode);
        CarriedChunks(lines[1..], chunks[1..], encode, extract);
      } else {
        CarriedChunks(lines[1..], chunks, encode, extract);
      }
    }
  }

  /** Every list of chunks, printed as data lines with any white space around them and any other lines between them,
      comes out as it went in, for every cut. */
  method ChunksComeBack<C>(lines: seq<Line>, pieces: seq<string>, given: seq<C>, encode: C -> string,
                           extract: string -> Option<C>) returns (chunks: seq<C>)
    requires IsProviderText(lines) && Flatten(pieces) == Joined(AllWritten(lines))
    requires Carry(lines, Printed(given, encode))
    requires forall i :: 0 <= i < |given| ==> extract(encode(given[i])) == Some(given[i])
    ensures chunks == given
  {
    chunks := StreamYields(lines, pieces, extract);
    CarriedChunks(lines, given, encode, extract);
  }

  // ---- The client's parser ----

  /** What the client reads off the lines of a text: the values of the data lines up to the first end marker, and
      whether a line before it does not decode, which ends the values as well. Lines without the prefix do not matter.
      */
  function ReadOff<P>(lines: seq<string>, decode: string -> Option<P>): (seq<P>, bool) {
    if lines == [] then ([], false)
    else if !("data: " <= lines[0]) then ReadOff(lines[1..], decode)
    else if lines[0] == "data: [DONE]" then ([], false)
    else match decode(lines[0][6..])
      case None => ([], true)
      case Some(p) =>
        var (values, threw) := ReadOff(lines[1..], decode);
        ([p] + values, threw)
  }

  lemma {:induction false} ParsesOn<P>(values: seq<P>, lines: seq<string>, decode: string -> Option<P>)
    ensures var r, (more, threw) := ParseLines(Parsed(values, Running), lines, decode), ReadOff(lines, decode);
      r.values == values + more && (r.status == Threw <==> threw)
    decreases |lines|
  {
    var start := Parsed(values, Running);
    if lines != [] {
      var first := lines[0];
      assert lines == [first] + lines[1..];
      ParseConcat(start, [first], lines[1..], decode);
      OneLine(start, first, decode);
      IsMarker(first);
      var next := ParseLine(start, first, decode);
      if next.status == Running {
        ParsesOn(next.values, lines[1..], decode);
      }
    }
  }

  lemma OneLine<P>(r: Parsed<P>, line: string, decode: string -> Option<P>)
    ensures ParseLines(r, [line], decode) == ParseLine(r, line, decode)
  {
    assert [line][..0] == [];
  }

  lemma IsMarker(line: string)
    ensures "data: " <= line ==> (line[6..] == "[DONE]" <==> line == "data: [DONE]")
  {
    assert "data: [DONE]" == "data: " + "[DONE]";
    if "data: " <= line {
      assert line == "data: " + line[6..];
    }
  }

  /** The client, for every text and every cut: it yields what its data lines decode to, up to the first end marker, and
      throws exactly if one of these lines does not decode. */
  method ClientYields<P>(lines: seq<string>, pieces: seq<string>, decode: string -> Option<P>)
    returns (values: seq<P>, threw: bool)
    requires AreLines(lines) && Flatten(pieces) == Joined(lines)
    ensures (values, threw) == ReadOff(lines, decode)
  {
    values, threw := ParseSSE(pieces, decode);
    SplitJoined(lines);
    ParsesOn([], lines, decode);
    assert [] + ReadOff(lines, decode).0 == ReadOff(lines, decode).0;
  }
}
