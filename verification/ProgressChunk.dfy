/** The event text inside one chunk of the progress stream, and the fact that a stream written with CRLF
    line ends is read exactly like the same stream written with LF ones. */
module ProgressChunk {
  import opened Wrappers
  import opened ProgressStream
  import opened ProgressCuts

  /** What JavaScript trims: white space, line ends and the byte order mark. */
  predicate IsSpace(c: char) {
    || '\t' <= c <= '\r' || c == ' ' || c == '\U{A0}' || c == '\U{1680}' || '\U{2000}' <= c <= '\U{200A}'
    || c == '\U{2028}' || c == '\U{2029}' || c == '\U{202F}' || c == '\U{205F}' || c == '\U{3000}' || c == '\U{FEFF}'
  }

  function TrimStart(s: string): string {
    if s != [] && IsSpace(s[0]) then TrimStart(s[1..]) else s
  }

  function TrimEnd(s: string): string {
    if s != [] && IsSpace(s[|s| - 1]) then TrimEnd(s[..|s| - 1]) else s
  }

  function Trim(s: string): string {
    TrimEnd(TrimStart(s))
  }

  /** Splits at every `\r?\n`; `line` is the line read so far. */
  function Lines(line: string, s: string): seq<string>
    decreases |s|
  {
    if s == [] then [line]
    else if s[0] == '\n' then [line] + Lines("", s[1..])
    else if |s| > 1 && s[0] == '\r' && s[1] == '\n' then [line] + Lines("", s[2..])
    else Lines(line + [s[0]], s[1..])
  }

  /** The trimmed contents of the `data:` lines, joined by line feeds. */
  function JoinData(lines: seq<string>): Option<string> {
    if lines == [] then None
    else
      var rest := JoinData(lines[1..]);
      if "data:" <= lines[0] then
        var content := Trim(lines[0][5..]);
        Some(if rest.Some? then content + "\n" + rest.value else content)
      else rest
  }

  /** What one chunk means, given what the JSON parser makes of its data. */
  function ParseChunk(json: string -> Parse, chunk: string): Parse {
    var trimmed := Trim(chunk);
    if trimmed == "" then NoEvent
    else
      var data := JoinData(Lines("", trimmed)).GetOr("");
      if data == "" then NoEvent else json(data)
  }

  // ---- CRLF against LF --------------------------------------------------------------------------

  predicate BareLf(s: string) {
    '\r' !in s
  }

  function Crlf(s: string): string {
    if s == [] then [] else (if s[0] == '\n' then "\r\n" else [s[0]]) + Crlf(s[1..])
  }

  lemma {:induction false} CrlfConcat(s: string, t: string)
    ensures Crlf(s + t) == Crlf(s) + Crlf(t)
  {
    if s == [] {
      assert s + t == t;
    } else {
      assert (s + t)[1..] == s[1..] + t;
      CrlfConcat(s[1..], t);
    }
  }

  lemma {:induction false} TrimStartCrlf(s: string)
    ensures TrimStart(Crlf(s)) == Crlf(TrimStart(s))
  {
    if s != [] && IsSpace(s[0]) {
      TrimStartCrlf(s[1..]);
      if s[0] == '\n' {
        assert Crlf(s)[1..] == "\n" + Crlf(s[1..]);
        assert ("\n" + Crlf(s[1..]))[1..] == Crlf(s[1..]);
      } else {
        assert Crlf(s)[1..] == Crlf(s[1..]);
      }
    }
  }

  lemma {:induction false} TrimEndCrlf(s: string)
    ensures TrimEnd(Crlf(s)) == Crlf(TrimEnd(s))
  {
    if s != [] {
      var n := |s| - 1;
      assert s == s[..n] + [s[n]];
      CrlfConcat(s[..n], [s[n]]);
      var c := Crlf(s[..n]);
      if s[n] == '\n' {
        assert Crlf([s[n]]) == "\r\n" + Crlf([s[n]][1..]);
        assert Crlf(s) == c + "\r\n";
        assert (c + "\r\n")[..|c| + 1] == c + "\r";
        assert (c + "\r")[..|c|] == c;
        TrimEndCrlf(s[..n]);
      } else {
        assert Crlf([s[n]]) == [s[n]] + Crlf([s[n]][1..]);
        assert Crlf(s) == c + [s[n]];
        assert (c + [s[n]])[..|c|] == c;
        if IsSpace(s[n]) { TrimEndCrlf(s[..n]); }
      }
    }
  }

  lemma {:induction false} TrimStaysBare(s: string)
    requires BareLf(s)
    ensures BareLf(TrimStart(s)) && BareLf(TrimEnd(s))
    decreases |s|
  {
    if s != [] {
      TrimStaysBare(s[1..]);
      TrimStaysBare(s[..|s| - 1]);
    }
  }

  lemma {:induction false} LinesCrlf(line: string, s: string)
    requires BareLf(s)
    ensures Lines(line, Crlf(s)) == Lines(line, s)
    decreases |s|
  {
    if s != [] {
      if s[0] == '\n' {
        assert Crlf(s)[2..] == Crlf(s[1..]);
        LinesCrlf("", s[1..]);
      } else {
        assert Crlf(s)[1..] == Crlf(s[1..]);
        LinesCrlf(line + [s[0]], s[1..]);
      }
    }
  }

  /** A chunk means the same with either line end. */
  lemma ParseChunkCrlf(json: string -> Parse, chunk: string)
    requires BareLf(chunk)
    ensures ParseChunk(json, Crlf(chunk)) == ParseChunk(json, chunk)
  {
    TrimStartCrlf(chunk);
    TrimEndCrlf(TrimStart(chunk));
    TrimStaysBare(chunk);
    TrimStaysBare(TrimStart(chunk));
    LinesCrlf("", Trim(chunk));
    CrlfIsEmpty(Trim(chunk));
  }

  lemma CrlfIsEmpty(s: string)
    ensures Crlf(s) == "" <==> s == ""
  {
  }

  ghost function Shift(at: Option<nat>, d: nat): Option<nat> {
    match at
    case None => None
    case Some(i) => Some(i + d)
  }

  lemma SearchAfterText(c: char, s: string)
    requires c != '\r' && c != '\n'
    ensures SearchFrom([c] + s, 0) == Shift(SearchFrom(s, 0), 1)
  {
    SearchCons(c, s);
  }

  lemma SearchAfterLf(s: string)
    ensures SearchFrom("\n" + s, 0) == if LineEnd(s, 0).Some? then Some(0) else Shift(SearchFrom(s, 0), 1)
  {
    SearchCons('\n', s);
    var t := "\n" + s;
    assert forall n :: 0 <= n < |s| ==> t[n + 1] == s[n];
  }

  lemma SearchAfterCrlf(s: string)
    ensures SearchFrom("\r\n" + s, 0) == if LineEnd(s, 0).Some? then Some(0) else Shift(SearchFrom(s, 0), 2)
  {
    SearchCons('\r', "\n" + s);
    SearchAfterLf(s);
    var t := "\r\n" + s;
    assert t == ['\r'] + ("\n" + s);
    assert forall n :: 0 <= n < |s| ==> t[n + 2] == s[n];
  }

  /** The place in the CRLF form of a boundary of the LF form. */
  ghost function Moved(s: string, at: Option<nat>): Option<nat>
    requires at.Some? ==> at.value <= |s|
  {
    match at
    case None => None
    case Some(i) => Some(|Crlf(s[..i])|)
  }

  lemma MovedCons(c: char, s: string, at: Option<nat>)
    requires at.Some? ==> at.value <= |s|
    ensures Moved([c] + s, Shift(at, 1)) == Shift(Moved(s, at), if c == '\n' then 2 else 1)
  {
    if at.Some? {
      assert ([c] + s)[..at.value + 1] == [c] + s[..at.value];
      assert ([c] + s[..at.value])[1..] == s[..at.value];
    }
  }

  /** The boundaries of the two forms correspond. */
  lemma {:induction false} SearchCrlf(s: string)
    requires BareLf(s)
    ensures SearchFrom(Crlf(s), 0) == Moved(s, SearchFrom(s, 0))
  {
    hide SearchFrom, LineEnd, Moved;
    if s == [] {
      EmptySearch();
    } else {
      var rest := s[1..];
      assert s == [s[0]] + rest;
      SearchCrlf(rest);
      MovedCons(s[0], rest, SearchFrom(rest, 0));
      if s[0] == '\n' {
        SearchAfterLf(rest);
        SearchAfterCrlf(Crlf(rest));
        CrlfLineEnd(rest);
        MovedFirst(s);
      } else {
        SearchAfterText(s[0], rest);
        SearchAfterText(s[0], Crlf(rest));
      }
    }
  }

  lemma EmptySearch()
    ensures SearchFrom(Crlf([]), 0) == None == Moved([], SearchFrom([], 0)) && SearchFrom([], 0) == None
  {
  }

  lemma MovedFirst(s: string)
    ensures Moved(s, Some(0)) == Some(0)
  {
  }

  lemma CrlfLineEnd(s: string)
    requires BareLf(s)
    ensures LineEnd(Crlf(s), 0).Some? <==> LineEnd(s, 0).Some?
  {
  }

  /** At a boundary the two forms split alike. */
  lemma SplitCrlf(s: string, i: nat)
    requires BareLf(s) && SearchFrom(s, 0) == Some(i)
    ensures SearchFrom(Crlf(s), 0) == Some(|Crlf(s[..i])|)
    ensures Crlf(s)[..|Crlf(s[..i])|] == Crlf(s[..i])
    ensures AfterBoundary(Crlf(s), |Crlf(s[..i])|) == Crlf(AfterBoundary(s, i))
  {
    SearchCrlf(s);
    var tail := s[i + 2..];
    assert s == s[..i] + ("\n\n" + tail);
    CrlfConcat(s[..i], "\n\n" + tail);
    CrlfConcat("\n\n", tail);
    assert Crlf("\n\n") == "\r\n" + Crlf("\n\n"[1..]);
    assert Crlf("\n") == "\r\n" + Crlf("\n"[1..]);
    assert Crlf(s) == Crlf(s[..i]) + ("\r\n\r\n" + Crlf(tail));
  }

  lemma {:induction false} DrainCrlf(parse: string -> Parse, st: State)
    requires BareLf(st.buffer)
    requires StyleBlind(parse)
    ensures var (a, b) := (Drain(parse, st.(buffer := Crlf(st.buffer))), Drain(parse, st));
            a == b.(buffer := Crlf(b.buffer)) && BareLf(b.buffer)
    decreases |st.buffer|
  {
    hide AfterBoundary, SearchFrom, Crlf;
    match SearchFrom(st.buffer, 0)
    case None => SearchCrlf(st.buffer);
    case Some(i) =>
      if st.fault.None? {
        SplitCrlf(st.buffer, i);
        RestIsBare(st.buffer, i);
        CrlfIsEmpty("");
        var next := Deliver(st, parse(st.buffer[..i]), AfterBoundary(st.buffer, i));
        assert Deliver(st, parse(st.buffer[..i]), Crlf(AfterBoundary(st.buffer, i))) ==
          next.(buffer := Crlf(next.buffer));
        DrainCrlf(parse, next);
      }
  }

  lemma RestIsBare(s: string, i: nat)
    requires BareLf(s) && i < |s|
    ensures BareLf(AfterBoundary(s, i)) && BareLf(s[..i])
  {
  }

  ghost predicate StyleBlind(parse: string -> Parse) {
    forall chunk :: BareLf(chunk) ==> parse(Crlf(chunk)) == parse(chunk)
  }

  lemma RunCrlf(parse: string -> Parse, text: string)
    requires BareLf(text) && StyleBlind(parse)
    ensures Run(parse, [Crlf(text)]) == Run(parse, [text])
  {
    hide Drain, Run;
    OneRead(parse, text);
    OneRead(parse, Crlf(text));
    DrainCrlf(parse, START.(buffer := text));
    assert START.(buffer := text).(buffer := Crlf(text)) == START.(buffer := Crlf(text));
  }

  /** What one chunk means, as the reader's parser. */
  function ChunkParser(json: string -> Parse): string -> Parse {
    chunk => ParseChunk(json, chunk)
  }

  /** A stream sent with CRLF line ends delivers the same events and ends the same way as the stream sent
      with LF ones, however either is cut into pieces. */
  lemma LineEndStyleDoesNotMatter(json: string -> Parse, lf: seq<string>, crlf: seq<string>)
    requires BareLf(Concat(lf)) && Concat(crlf) == Crlf(Concat(lf))
    ensures Run(ChunkParser(json), crlf) == Run(ChunkParser(json), lf)
  {
    hide Run, Crlf, Concat, NoMixedBoundary;
    var text := Concat(lf);
    var parse := ChunkParser(json);
    forall chunk | BareLf(chunk) ensures parse(Crlf(chunk)) == parse(chunk) { ParseChunkCrlf(json, chunk); }
    UniformLineEndsAreNotMixed(text);
    CrlfIsUniform(text);
    NoMixedIsMet(text);
    NoMixedIsMet(Crlf(text));
    UnmixedText(parse, lf);
    UnmixedText(parse, crlf);
    RunCrlf(parse, text);
  }

  lemma {:induction false} CrlfIsUniform(s: string)
    requires BareLf(s)
    ensures NoMixedBoundary(Crlf(s))
    ensures Crlf(s) != [] ==> Crlf(s)[0] != '\n'
  {
    if s != [] {
      CrlfIsUniform(s[1..]);
      var t := Crlf(s[1..]);
      var head := if s[0] == '\n' then "\r\n" else [s[0]];
      forall i: nat ensures !IsMixed(head + t, i) {
        if i >= |head| {
          assert IsMixed(head + t, i) ==> IsMixed(t, i - |head|);
        }
      }
    }
  }

  // ---- What the server writes -------------------------------------------------------------------

  /** A line of an event: data, or anything else, such as a comment or the name of the event. */
  datatype EventLine = Data(content: string) | Other(text: string)

  function Written(l: EventLine): string {
    match l
    case Data(content) => "data: " + content
    case Other(text) => text
  }

  /** The lines of an event, separated by line feeds. */
  function WrittenAll(ls: seq<EventLine>): string {
    if ls == [] then ""
    else if |ls| == 1 then Written(ls[0])
    else Written(ls[0]) + "\n" + WrittenAll(ls[1..])
  }

  predicate IsTrimmed(s: string) {
    s == "" || (!IsSpace(s[0]) && !IsSpace(s[|s| - 1]))
  }

  predicate IsWritable(l: EventLine) {
    && '\r' !in Written(l) && '\n' !in Written(l)
    && match l
       case Data(content) => IsTrimmed(content)
       case Other(text) => !("data:" <= text)
  }

  /** The contents of the data lines, joined by line feeds; none without such a line. */
  function DataOf(ls: seq<EventLine>): Option<string> {
    if ls == [] then None
    else
      match (ls[0], DataOf(ls[1..]))
      case (Data(content), Some(rest)) => Some(content + "\n" + rest)
      case (Data(content), None) => Some(content)
      case (Other(_), rest) => rest
  }

  lemma {:induction false} FirstLine(line: string, s: string, t: string)
    requires '\r' !in s && '\n' !in s
    ensures Lines(line, s + "\n" + t) == [line + s] + Lines("", t)
    decreases |s|
  {
    var all := s + "\n" + t;
    if s == [] {
      assert all[0] == '\n' && all[1..] == t && line + s == line;
    } else {
      assert all[0] == s[0] && all[1..] == s[1..] + "\n" + t;
      FirstLine(line + [s[0]], s[1..], t);
      assert line + [s[0]] + s[1..] == line + s;
    }
  }

  lemma JoinOneMore(line: string, lines: seq<string>)
    ensures JoinData([line] + lines) ==
            if "data:" <= line then
              Some(if JoinData(lines).Some? then Trim(line[5..]) + "\n" + JoinData(lines).value else Trim(line[5..]))
            else JoinData(lines)
  {
    assert ([line] + lines)[1..] == lines;
  }

  lemma WrittenData(l: EventLine)
    requires IsWritable(l)
    ensures l.Data? <==> "data:" <= Written(l)
    ensures l.Data? ==> Trim(Written(l)[5..]) == l.content
  {
    if l.Data? {
      var padded := " " + l.content;
      assert Written(l)[..5] == "data:" && Written(l)[5..] == padded;
      PaddingIsTrimmed(l.content);
    }
  }

  lemma PaddingIsTrimmed(s: string)
    requires IsTrimmed(s)
    ensures Trim(" " + s) == s
  {
    var padded := " " + s;
    assert padded[0] == ' ' && IsSpace(' ') && padded[1..] == s;
    assert TrimStart(padded) == TrimStart(s) == s;
    assert TrimEnd(s) == s;
  }

  /** Reading the lines back gives the contents of the data lines. */
  lemma {:induction false} LinesAreRead(ls: seq<EventLine>)
    requires ls != [] && forall l :: l in ls ==> IsWritable(l)
    ensures JoinData(Lines("", WrittenAll(ls))) == DataOf(ls)
    decreases |ls|
  {
    hide Trim, IsSpace, Lines, JoinData;
    var line := Written(ls[0]);
    assert IsWritable(ls[0]) && "" + line == line;
    WrittenData(ls[0]);
    if |ls| == 1 {
      OneLine("", line);
      assert [line] + [] == [line] && ls[1..] == [];
      JoinOneMore(line, []);
      NoDataLines();
    } else {
      FirstLine("", line, WrittenAll(ls[1..]));
      JoinOneMore(line, Lines("", WrittenAll(ls[1..])));
      LinesAreRead(ls[1..]);
    }
  }

  lemma NoDataLines()
    ensures JoinData([]) == None
  {
  }

  /** A chunk means what its data lines hold, trimmed and joined by line feeds, whatever its other lines say. */
  lemma ChunkIsRead(json: string -> Parse, ls: seq<EventLine>)
    requires ls != [] && (forall l :: l in ls ==> IsWritable(l)) && IsTrimmed(WrittenAll(ls))
    ensures ParseChunk(json, WrittenAll(ls)) ==
            if DataOf(ls).GetOr("") == "" then NoEvent else json(DataOf(ls).value)
  {
    LinesAreRead(ls);
    var chunk := WrittenAll(ls);
    hide Lines, JoinData, DataOf, WrittenAll;
    if chunk != "" {
      BareIsTrimmed(chunk);
    } else {
      NothingIsRead();
    }
  }

  lemma NothingIsRead()
    ensures Trim("") == "" && Lines("", "") == [""] && JoinData([""]) == None
  {
    assert [""][1..] == [];
  }

  /** Every chunk followed by an empty line. */
  function Framed(chunks: seq<string>): string {
    if chunks == [] then "" else chunks[0] + "\n\n" + Framed(chunks[1..])
  }

  /** A text on one line. */
  predicate IsOneLine(s: string) {
    '\r' !in s && '\n' !in s
  }

  lemma {:induction false} FramesAreChunks(chunks: seq<string>)
    requires forall c :: c in chunks ==> IsOneLine(c)
    ensures Chunks(Framed(chunks)) == chunks + [""] && BareLf(Framed(chunks))
  {
    hide Chunks, BareLf, IsOneLine;
    if chunks == [] {
      NothingIsFramed();
    } else {
      FramesAreChunks(chunks[1..]);
      assert IsOneLine(chunks[0]);
      FrameStep(chunks[0], Framed(chunks[1..]));
      assert chunks + [""] == [chunks[0]] + (chunks[1..] + [""]);
    }
  }

  lemma NothingIsFramed()
    ensures Chunks("") == [] + [""] && BareLf("")
  {
    NothingToDrain();
    NothingFound("");
    assert [] + [""] == [""];
  }

  lemma FrameStep(c: string, rest: string)
    requires IsOneLine(c) && BareLf(rest)
    ensures var s := c + "\n\n" + rest; Chunks(s) == [c] + Chunks(rest) && BareLf(s)
  {
    hide Chunks, BoundaryAt, AfterBoundary, SearchFrom, BareLf, IsOneLine;
    FrameIsFound(c, rest);
    FrameIsBare(c, rest);
    ScanStep(c + "\n\n" + rest, |c|);
  }

  lemma FrameIsBare(c: string, rest: string)
    requires IsOneLine(c) && BareLf(rest)
    ensures BareLf(c + "\n\n" + rest)
  {
  }

  lemma FrameIsFound(c: string, rest: string)
    requires IsOneLine(c)
    ensures var s := c + "\n\n" + rest;
            SearchFrom(s, 0) == Some(|c|) && s[..|c|] == c && AfterBoundary(s, |c|) == rest
  {
    var s := c + "\n\n" + rest;
    assert s[|c|] == '\n' && s[|c| + 1] == '\n' && s[|c| + 2..] == rest;
    forall k: nat | k < |c| ensures !BoundaryAt(s, k) {
      assert s[k] == c[k];
    }
    LeftmostIsFound(s, |c|);
  }

  /** What the server writes, one event a line, is what the reader delivers, however the stream is cut: the events of
      the payloads in turn, up to the first that is an error or cannot be parsed. */
  lemma StreamIsDelivered(json: string -> Parse, payloads: seq<string>, arrivals: seq<string>)
    requires forall p :: p in payloads ==> IsBareLine(p)
    requires Concat(arrivals) == Framed(DataLines(payloads))
    ensures Run(ChunkParser(json), arrivals) == Verdict(Report(json, START, payloads))
  {
    hide Run, Report, Verdict, Framed, Concat, IsBareLine, Chunks;
    var lines := DataLines(payloads);
    var parse := ChunkParser(json);
    forall c | c in lines ensures IsOneLine(c) {
      var i :| 0 <= i < |payloads| && c == "data: " + payloads[i];
      PayloadIsRead(json, payloads[i]);
    }
    FramesAreChunks(lines);
    BareTextIsUncut(parse, arrivals);
    RunReports(parse, [Concat(arrivals)]);
    OneArrival(Concat(arrivals));
    LinesReport(json, START, payloads);
  }

  function DataLines(payloads: seq<string>): seq<string> {
    seq(|payloads|, i requires 0 <= i < |payloads| => "data: " + payloads[i])
  }

  lemma PayloadIsRead(json: string -> Parse, p: string)
    requires IsBareLine(p)
    ensures ParseChunk(json, "data: " + p) == json(p) && IsOneLine("data: " + p)
  {
    var ls := [Data(p)];
    assert ls[1..] == [];
    assert Written(Data(p)) == "data: " + p && ("data: " + p)[0] == 'd' && ("data: " + p)[5 + |p|] == p[|p| - 1];
    ChunkIsRead(json, ls);
  }

  lemma BareTextIsUncut(parse: string -> Parse, arrivals: seq<string>)
    requires BareLf(Concat(arrivals))
    ensures Run(parse, arrivals) == Run(parse, [Concat(arrivals)])
  {
    hide Run, Concat;
    UniformLineEndsAreNotMixed(Concat(arrivals));
    NoMixedIsMet(Concat(arrivals));
    UnmixedText(parse, arrivals);
  }

  lemma {:induction false} LinesReport(json: string -> Parse, st: State, payloads: seq<string>)
    requires forall p :: p in payloads ==> IsBareLine(p)
    ensures Verdict(Report(ChunkParser(json), st, DataLines(payloads) + [""])) == Verdict(Report(json, st, payloads))
    decreases |payloads|
  {
    hide IsBareLine, Verdict;
    var parse := ChunkParser(json);
    if payloads == [] {
      assert DataLines(payloads) + [""] == [""] && [""][1..] == [];
      NothingIsRead();
      LastIsNothing(parse, st);
    } else {
      var c, rest := "data: " + payloads[0], DataLines(payloads[1..]) + [""];
      assert DataLines(payloads) + [""] == [c] + rest;
      PayloadIsRead(json, payloads[0]);
      assert parse(c) == json(payloads[0]);
      ReportOneMore(parse, st, c, rest);
      assert payloads == [payloads[0]] + payloads[1..];
      ReportOneMore(json, st, payloads[0], payloads[1..]);
      hide Report, ParseChunk;
      if st.fault.None? { LinesReport(json, Deliver(st, json(payloads[0]), ""), payloads[1..]); }
    }
  }

  lemma LastIsNothing(parse: string -> Parse, st: State)
    requires parse("") == NoEvent
    ensures Verdict(Report(parse, st, [""])) == Verdict(Report(parse, st, []))
  {
    assert [""][1..] == [];
  }

  // ---- An event that a cut saves ----------------------------------------------------------------

  /** A text on one line, not empty and without blanks around it. */
  predicate IsBareLine(s: string) {
    s != "" && !IsSpace(s[0]) && !IsSpace(s[|s| - 1]) && '\r' !in s && '\n' !in s
  }

  lemma {:induction false} OneLine(line: string, s: string)
    requires '\r' !in s && '\n' !in s
    ensures Lines(line, s) == [line + s]
    decreases |s|
  {
    if s == [] {
      assert line + s == line;
    } else {
      OneLine(line + [s[0]], s[1..]);
      assert line + [s[0]] + s[1..] == line + s;
    }
  }

  lemma BareIsTrimmed(s: string)
    requires s != "" && !IsSpace(s[0]) && !IsSpace(s[|s| - 1])
    ensures Trim(s) == s
  {
  }

  /** A chunk of one line carries its data, or nothing. */
  lemma ParseLine(json: string -> Parse, line: string)
    requires IsBareLine(line)
    ensures "data:" <= line && IsBareLine(line[5..]) ==> ParseChunk(json, line) == json(line[5..])
    ensures !("data:" <= line) ==> ParseChunk(json, line) == NoEvent
  {
    hide IsSpace, Trim, Lines;
    BareIsTrimmed(line);
    OneLine("", line);
    assert "" + line == line && [line][1..] == [];
    assert JoinData([]) == None;
    if "data:" <= line && IsBareLine(line[5..]) {
      BareIsTrimmed(line[5..]);
    }
  }

  lemma DataLine(json: string -> Parse, u: string)
    requires IsBareLine(u)
    ensures ParseChunk(json, "data:" + u) == json(u) && ParseChunk(json, "ata:" + u) == NoEvent
    ensures '\r' !in "data:" + u && '\n' !in "data:" + u
  {
    var line, rest := "data:" + u, "ata:" + u;
    assert line[0] == 'd' && line[|line| - 1] == u[|u| - 1] && line[5..] == u;
    assert rest[0] == 'a' && rest[|rest| - 1] == u[|u| - 1] && "data:"[0] == 'd';
    ParseLine(json, line);
    ParseLine(json, rest);
  }

  lemma NoBoundaryInLine(s: string, k: nat)
    requires '\r' !in s && '\n' !in s
    ensures k < |s| ==> !BoundaryAt(s + "\r\n\n", k)
    ensures SearchFrom(s, 0).None?
  {
    if k < |s| { assert (s + "\r\n\n")[k] == s[k]; }
  }

  /** Two events with a CRLF and a bare LF between them: cut after the boundary both are delivered, and uncut the
      second is lost, and with it the completion of the stream. */
  lemma MixedBoundaryLosesEvent(json: string -> Parse, u: string, v: string, a: string, e: Event)
    requires IsBareLine(u) && IsBareLine(v) && json(u) == Parsed(Progress(a)) && json(v) == Parsed(e)
    ensures var head, tail := "data:" + u + "\r\n\n", "data:" + v;
            && Run(ChunkParser(json), [head + tail]) == ([Progress(a)], Rejected(EndedEarly))
            && Run(ChunkParser(json), [head, tail]).0 == [Progress(a), e]
            && (e.Complete? && e.payload.Some? ==> Run(ChunkParser(json), [head, tail]).1 == Resolved(e.payload.value))
  {
    var parse, p, tail := ChunkParser(json), "data:" + u, "data:" + v;
    DataLine(json, u);
    DataLine(json, v);
    forall k: nat | k < |p| ensures !BoundaryAt(p + "\r\n\n", k) { NoBoundaryInLine(p, k); }
    hide BoundaryAt, SearchFrom, Run, ParseChunk, IsBareLine;
    assert tail[1..] == "ata:" + v;
    NoBoundaryInLine(tail, 0);
    NoBoundaryInLine(tail[1..], 0);
    MixedBoundaryLosesText(parse, p, tail, a, e);
  }
}
