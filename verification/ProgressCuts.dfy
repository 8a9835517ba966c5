/** Exactly which whole texts of the progress stream are read alike however they are cut. */
module ProgressCuts {
  import opened Wrappers
  import opened ProgressStream

  /** The chunks of a text that is read at once; the last is what trails. */
  function Chunks(s: string): seq<string>
    decreases |s|
  {
    match SearchFrom(s, 0)
    case None => [s]
    case Some(i) => [s[..i]] + Chunks(AfterBoundary(s, i))
  }

  /** Whether the reader skips a character too many or not makes no difference: after a CRLF followed by a bare LF the
      rest has the same chunks with and without its first character, and so on in both. */
  predicate IsSettled(s: string)
    decreases |s|
  {
    match SearchFrom(s, 0)
    case None => true
    case Some(i) =>
      if !IsMixed(s, i) then IsSettled(AfterBoundary(s, i))
      else
        var rest := s[i + 3..];
        rest == "" || (Chunks(rest) == Chunks(rest[1..]) && IsSettled(rest) && IsSettled(rest[1..]))
  }

  // ---- The chunks of a text that is read in pieces ----------------------------------------------

  /** The chunks found in what has arrived, and what remains in the buffer. */
  function Split(b: string): (r: (seq<string>, string))
    ensures SearchFrom(r.1, 0).None?
    decreases |b|
  {
    match SearchFrom(b, 0)
    case None => ([], b)
    case Some(i) =>
      var r := Split(AfterBoundary(b, i));
      ([b[..i]] + r.0, r.1)
  }

  function CutChunks(b: string, arrivals: seq<string>): seq<string>
    decreases |arrivals|
  {
    if arrivals == [] then [b]
    else
      var r := Split(b + arrivals[0]);
      r.0 + CutChunks(r.1, arrivals[1..])
  }

  /** Takes chunks into account in turn, up to the first fault. */
  function Report(parse: string -> Parse, st: State, chunks: seq<string>): State
    decreases |chunks|
  {
    if chunks == [] || st.fault.Some? then st
    else Report(parse, Deliver(st, parse(chunks[0]), ""), chunks[1..])
  }

  function Verdict(st: State): (seq<Event>, Outcome) {
    (st.events,
     if st.fault.Some? then Rejected(st.fault.value)
     else if st.payload.None? then Rejected(EndedEarly)
     else Resolved(st.payload.value))
  }

  lemma ReportOneMore(parse: string -> Parse, st: State, c: string, chunks: seq<string>)
    ensures Report(parse, st, [c] + chunks) == if st.fault.Some? then st
            else Report(parse, Deliver(st, parse(c), ""), chunks)
  {
    assert ([c] + chunks)[1..] == chunks;
  }

  lemma {:induction false} ReportSplit(parse: string -> Parse, st: State, a: seq<string>, b: seq<string>)
    ensures Report(parse, st, a + b) == Report(parse, Report(parse, st, a), b)
    decreases |a|
  {
    hide Deliver;
    if a == [] {
      assert a + b == b;
    } else {
      assert a + b == [a[0]] + (a[1..] + b) && a == [a[0]] + a[1..];
      ReportOneMore(parse, st, a[0], a[1..] + b);
      if st.fault.None? { ReportSplit(parse, Deliver(st, parse(a[0]), ""), a[1..], b); }
    }
  }

  /** Draining reports the chunks that have arrived. */
  lemma {:induction false} DrainReports(parse: string -> Parse, st: State)
    ensures var d, r := Drain(parse, st), Split(st.buffer);
            && d.(buffer := "") == Report(parse, st.(buffer := ""), r.0)
            && (d.fault.None? ==> d.buffer == r.1)
    decreases |st.buffer|
  {
    hide Drain, SearchFrom, AfterBoundary;
    DrainStep(parse, st);
    match SearchFrom(st.buffer, 0)
    case None =>
    case Some(i) =>
      var c, rest := st.buffer[..i], AfterBoundary(st.buffer, i);
      ReportOneMore(parse, st.(buffer := ""), c, Split(rest).0);
      if st.fault.None? {
        var next := Deliver(st, parse(c), rest);
        DeliverIgnoresBuffer(st, parse(c), rest);
        if next.fault.None? {
          DrainReports(parse, next);
        } else {
          DrainStep(parse, next);
        }
      }
  }

  lemma DeliverIgnoresBuffer(st: State, p: Parse, rest: string)
    ensures Deliver(st.(buffer := ""), p, "") == Deliver(st, p, rest).(buffer := "")
    ensures Deliver(st, p, rest).fault.None? && st.fault.None? ==> Deliver(st, p, rest).buffer == rest
  {
  }

  /** Reading delivers what the chunks of the cut text stand for. */
  lemma {:induction false} FeedReports(parse: string -> Parse, st: State, arrivals: seq<string>)
    ensures Finish(parse, FeedAll(parse, st, arrivals)) ==
            Verdict(Report(parse, st.(buffer := ""), CutChunks(st.buffer, arrivals)))
    decreases |arrivals|
  {
    hide Drain, Split;
    if arrivals == [] {
      FinishReportsLast(parse, st);
    } else {
      var head, tail := arrivals[..1], arrivals[1..];
      assert arrivals == head + tail && head[..0] == [] && head[0] == arrivals[0];
      FeedAllSplit(parse, st, head, tail);
      assert FeedAll(parse, st, head) == Feed(parse, st, arrivals[0]);
      FeedReportsOne(parse, st, arrivals[0]);
      var mid := Feed(parse, st, arrivals[0]);
      FeedReports(parse, mid, tail);
      var r := Split(st.buffer + arrivals[0]);
      ReportSplit(parse, st.(buffer := ""), r.0, CutChunks(r.1, tail));
      hide Report, Finish, FeedAll, Verdict, Feed;
      if mid.fault.Some? {
        ReportAfterFault(parse, mid.(buffer := ""), CutChunks(mid.buffer, tail));
        ReportAfterFault(parse, mid.(buffer := ""), CutChunks(r.1, tail));
      }
    }
  }

  lemma ReportAfterFault(parse: string -> Parse, st: State, chunks: seq<string>)
    requires st.fault.Some?
    ensures Report(parse, st, chunks) == st
  {
  }

  lemma FinishReportsLast(parse: string -> Parse, st: State)
    ensures Finish(parse, st) == Verdict(Report(parse, st.(buffer := ""), [st.buffer]))
  {
    assert [st.buffer] == [st.buffer] + [];
    ReportOneMore(parse, st.(buffer := ""), st.buffer, []);
    DeliverIgnoresBuffer(st, parse(st.buffer), []);
  }

  lemma FeedReportsOne(parse: string -> Parse, st: State, x: string)
    ensures var m, r := Feed(parse, st, x), Split(st.buffer + x);
            && m.(buffer := "") == Report(parse, st.(buffer := ""), r.0)
            && (m.fault.None? ==> m.buffer == r.1)
  {
    hide Drain, Split;
    if st.fault.Some? {
      ReportAfterFault(parse, st.(buffer := ""), Split(st.buffer + x).0);
    } else {
      DrainReports(parse, st.(buffer := st.buffer + x));
    }
  }

  lemma RunReports(parse: string -> Parse, arrivals: seq<string>)
    ensures Run(parse, arrivals) == Verdict(Report(parse, START, CutChunks("", arrivals)))
  {
    FeedReports(parse, START, arrivals);
  }

  // ---- The outcome, from the chunks alone -------------------------------------------------------

  /** The reader throws at a chunk that is a syntax error or an error event. */
  predicate Throws(p: Parse) {
    p.Malformed? || (p.Parsed? && p.event.Failed?)
  }

  /** The chunk at which the reader throws. */
  ghost predicate ThrowsAt(parse: string -> Parse, chunks: seq<string>, k: nat) {
    k < |chunks| && Throws(parse(chunks[k])) && forall j :: 0 <= j < k ==> !Throws(parse(chunks[j]))
  }

  /** The events of the chunks, in order. */
  function EventsOf(parse: string -> Parse, chunks: seq<string>): seq<Event>
    decreases |chunks|
  {
    if chunks == [] then []
    else (match parse(chunks[0]) case Parsed(e) => [e] case _ => []) + EventsOf(parse, chunks[1..])
  }

  predicate IsComplete(p: Parse) {
    p.Parsed? && p.event.Complete?
  }

  /** Chunk `k` is the last that completes the run. */
  ghost predicate IsLastComplete(parse: string -> Parse, chunks: seq<string>, k: nat) {
    && k < |chunks| && IsComplete(parse(chunks[k]))
    && forall j :: k < j < |chunks| ==> !IsComplete(parse(chunks[j]))
  }

  lemma {:induction false} ReportUntilThrow(parse: string -> Parse, st: State, chunks: seq<string>, k: nat)
    requires st.fault.None? && ThrowsAt(parse, chunks, k)
    ensures var d := Report(parse, st, chunks);
            && d.events == st.events + EventsOf(parse, chunks[..k + 1])
            && d.fault == Some(match parse(chunks[k]) case Parsed(Failed(m)) => StreamFailed(m) case _ => BadJson)
    decreases k
  {
    var next := Deliver(st, parse(chunks[0]), "");
    EventsOfFirst(parse, st, chunks, k + 1);
    hide EventsOf;
    if k == 0 {
      ReportAfterFault(parse, next, chunks[1..]);
      assert next.events + EventsOf(parse, []) == next.events by { NoEvents(parse, next.events); }
      assert chunks[1..][..0] == [];
    } else {
      assert chunks[1..][k - 1] == chunks[k];
      ReportUntilThrow(parse, next, chunks[1..], k - 1);
    }
  }

  lemma NoEvents(parse: string -> Parse, events: seq<Event>)
    ensures events + EventsOf(parse, []) == events
  {
  }

  /** Delivering the first chunk adds its event, if any. */
  lemma EventsOfFirst(parse: string -> Parse, st: State, chunks: seq<string>, n: nat)
    requires 0 < n <= |chunks|
    ensures Deliver(st, parse(chunks[0]), "").events + EventsOf(parse, chunks[1..][..n - 1]) ==
            st.events + EventsOf(parse, chunks[..n])
  {
    assert chunks[..n][1..] == chunks[1..][..n - 1];
  }

  lemma DeliverOne(st: State, p: Parse)
    requires st.fault.None? && !Throws(p)
    ensures Deliver(st, p, "").fault.None?
    ensures Deliver(st, p, "").payload == if IsComplete(p) then p.event.payload else st.payload
  {
  }

  lemma {:induction false} ReportWithoutThrow(parse: string -> Parse, st: State, chunks: seq<string>)
    requires st.fault.None? && forall j :: 0 <= j < |chunks| ==> !Throws(parse(chunks[j]))
    ensures var d := Report(parse, st, chunks);
            && d.events == st.events + EventsOf(parse, chunks) && d.fault.None?
            && (forall k: nat :: IsLastComplete(parse, chunks, k) ==> d.payload == parse(chunks[k]).event.payload)
            && ((forall j :: 0 <= j < |chunks| ==> !IsComplete(parse(chunks[j]))) ==> d.payload == st.payload)
    decreases |chunks|
  {
    hide Deliver;
    if chunks != [] {
      var next := Deliver(st, parse(chunks[0]), "");
      DeliverOne(st, parse(chunks[0]));
      EventsOfFirst(parse, st, chunks, |chunks|);
      assert chunks[1..][..|chunks| - 1] == chunks[1..] && chunks[..|chunks|] == chunks;
      hide EventsOf;
      forall j | 0 <= j < |chunks[1..]| ensures !Throws(parse(chunks[1..][j])) {
        assert chunks[1..][j] == chunks[j + 1];
      }
      ReportWithoutThrow(parse, next, chunks[1..]);
      assert forall j :: 0 < j < |chunks| ==> chunks[j] == chunks[1..][j - 1];
      forall k: nat | 0 < k < |chunks| && IsLastComplete(parse, chunks, k)
        ensures IsLastComplete(parse, chunks[1..], k - 1)
      {
      }
    }
  }

  /** What chunks deliver. The reader throws the message of an error event, or a syntax error, at the first chunk that
      is one, having reported the events up to it. Otherwise it reports all events and resolves to what the last
      complete event holds; if that is nothing, or there is no such event, the stream has ended early. */
  ghost predicate IsOutcomeOf(parse: string -> Parse, chunks: seq<string>, events: seq<Event>, outcome: Outcome) {
    && (forall k: nat, m :: ThrowsAt(parse, chunks, k) && parse(chunks[k]) == Parsed(Failed(m)) ==>
          events == EventsOf(parse, chunks[..k + 1]) && outcome == Rejected(StreamFailed(m)))
    && (forall k: nat :: ThrowsAt(parse, chunks, k) && parse(chunks[k]).Malformed? ==>
          events == EventsOf(parse, chunks[..k + 1]) && outcome == Rejected(BadJson))
    && ((forall j :: 0 <= j < |chunks| ==> !Throws(parse(chunks[j]))) ==>
        && events == EventsOf(parse, chunks)
        && (forall k: nat :: IsLastComplete(parse, chunks, k) ==>
              outcome == match parse(chunks[k]).event.payload
                         case Some(v) => Resolved(v)
                         case None => Rejected(EndedEarly))
        && ((forall j :: 0 <= j < |chunks| ==> !IsComplete(parse(chunks[j]))) ==> outcome == Rejected(EndedEarly)))
  }

  /** Whatever the cuts, reading delivers the outcome of the chunks of the cut text. */
  lemma OutcomeOfChunks(parse: string -> Parse, arrivals: seq<string>)
    ensures IsOutcomeOf(parse, CutChunks("", arrivals), Run(parse, arrivals).0, Run(parse, arrivals).1)
  {
    hide Run, CutChunks, Report;
    RunReports(parse, arrivals);
    ReportedOutcome(parse, CutChunks("", arrivals));
  }

  lemma ReportedOutcome(parse: string -> Parse, chunks: seq<string>)
    ensures var (events, outcome) := Verdict(Report(parse, START, chunks)); IsOutcomeOf(parse, chunks, events, outcome)
  {
    hide Report, EventsOf;
    forall k: nat | ThrowsAt(parse, chunks, k)
      ensures Verdict(Report(parse, START, chunks)) ==
              (EventsOf(parse, chunks[..k + 1]),
               Rejected(match parse(chunks[k]) case Parsed(Failed(m)) => StreamFailed(m) case _ => BadJson))
    {
      ReportUntilThrow(parse, START, chunks, k);
      assert [] + EventsOf(parse, chunks[..k + 1]) == EventsOf(parse, chunks[..k + 1]);
    }
    if forall j :: 0 <= j < |chunks| ==> !Throws(parse(chunks[j])) {
      ReportWithoutThrow(parse, START, chunks);
      assert [] + EventsOf(parse, chunks) == EventsOf(parse, chunks);
    }
  }

  // ---- Settled texts ----------------------------------------------------------------------------

  lemma {:induction false} SplitOnce(s: string)
    ensures Chunks(s) == Split(s).0 + [Split(s).1]
    decreases |s|
  {
    hide SearchFrom, AfterBoundary;
    match SearchFrom(s, 0)
    case None =>
    case Some(i) => SplitOnce(AfterBoundary(s, i));
  }

  lemma OneArrival(x: string)
    ensures CutChunks("", [x]) == Chunks(x)
  {
    SplitOnce(x);
    assert "" + x == x && [x][1..] == [];
  }

  /** One step of the scan, in a text and in what has arrived of it. */
  lemma ScanStep(s: string, i: nat)
    requires SearchFrom(s, 0) == Some(i)
    ensures Chunks(s) == [s[..i]] + Chunks(AfterBoundary(s, i))
    ensures var r := Split(AfterBoundary(s, i)); Split(s) == ([s[..i]] + r.0, r.1)
  {
    hide SearchFrom, AfterBoundary;
  }

  lemma NothingFound(s: string)
    requires SearchFrom(s, 0).None?
    ensures Chunks(s) == [s] && Split(s) == ([], s)
  {
  }

  /** Splitting what has arrived leaves a settled text with the remaining chunks. */
  lemma {:induction false} SplitSettled(b: string, f: string)
    requires IsSettled(b + f)
    ensures var r := Split(b); Chunks(b + f) == r.0 + Chunks(r.1 + f) && IsSettled(r.1 + f)
    decreases |b|
  {
    hide SearchFrom, BoundaryAt, AfterBoundary, Chunks, Split, IsSettled;
    var s := b + f;
    match SearchFrom(b, 0)
    case None => NothingFound(b);
    case Some(i) =>
      var after := AfterBoundary(b, i);
      SearchIsStable(b, f);
      BoundaryFound(b);
      SkipIsMeasured(b, i);
      ScanStep(b, i);
      ScanStep(s, i);
      assert s[..i] == b[..i];
      if ResumeAt(b, i) <= |b| {
        StepSettled(s, i);
        SplitSettled(after, f);
      } else {
        OvershotRest(b, f, i);
        assert "" + f == f;
      }
  }

  lemma OvershotRest(b: string, f: string, i: nat)
    requires SearchFrom(b, 0) == Some(i) == SearchFrom(b + f, 0) && IsMixed(b, i) && i + 3 == |b| && IsSettled(b + f)
    ensures Split(b) == ([b[..i]], "") && Chunks(b + f) == [b[..i]] + Chunks(f) && IsSettled(f)
  {
    hide SearchFrom, Chunks, IsSettled;
    var s := b + f;
    assert s[i] == b[i] && s[i + 1] == b[i + 1] && s[i + 2] == b[i + 2];
    assert s[i + 3..] == f && s[..i] == b[..i];
    MixedRest(s, i);
    ScanStep(b, i);
    NothingToDrain();
    NothingFound("");
    assert AfterBoundary(b, i) == "" && [b[..i]] + [] == [b[..i]];
  }

  lemma BoundaryFound(s: string)
    requires SearchFrom(s, 0).Some?
    ensures SearchFrom(s, 0).value < |s| && BoundaryAt(s, SearchFrom(s, 0).value)
  {
  }

  /** After a step of the scan a settled text is settled. */
  lemma StepSettled(s: string, i: nat)
    requires SearchFrom(s, 0) == Some(i) && IsSettled(s) && ResumeAt(s, i) <= |s|
    ensures IsSettled(AfterBoundary(s, i))
  {
    if IsMixed(s, i) { assert AfterBoundary(s, i) == s[i + 3..][1..]; }
  }

  /** What follows a mixed boundary. */
  lemma MixedRest(s: string, i: nat)
    requires SearchFrom(s, 0) == Some(i) && IsMixed(s, i)
    ensures var rest := s[i + 3..];
            && AfterBoundary(s, i) == (if rest == "" then "" else rest[1..])
            && Chunks(s) == [s[..i]] + Chunks(if rest == "" then "" else rest[1..])
            && (IsSettled(s) <==> rest == "" || (Chunks(rest) == Chunks(rest[1..]) && IsSettled(rest) &&
                                                 IsSettled(rest[1..])))
            && (IsSettled(s) ==> Chunks(s) == [s[..i]] + Chunks(rest) && IsSettled(rest))
  {
    var rest := s[i + 3..];
    if rest != "" { assert rest[1..] == s[i + 4..]; }
    SettledNothing();
    hide SearchFrom;
  }

  lemma SettledNothing()
    ensures IsSettled("") && Chunks("") == [""]
  {
    NothingToDrain();
  }

  lemma {:induction false} SettledChunks(b: string, arrivals: seq<string>)
    requires SearchFrom(b, 0).None? && IsSettled(b + FromFront(arrivals))
    ensures CutChunks(b, arrivals) == Chunks(b + FromFront(arrivals))
    decreases |arrivals|
  {
    hide IsSettled, Split, SearchFrom;
    if arrivals == [] {
      assert b + "" == b;
      ChunksOfRest(b);
    } else {
      var r := Split(b + arrivals[0]);
      var f := FromFront(arrivals[1..]);
      assert b + FromFront(arrivals) == (b + arrivals[0]) + f;
      SplitSettled(b + arrivals[0], f);
      SettledChunks(r.1, arrivals[1..]);
    }
  }

  lemma ChunksOfRest(b: string)
    requires SearchFrom(b, 0).None?
    ensures Chunks(b) == [b]
  {
  }

  /** All arrivals together, added up from the front. */
  function FromFront(arrivals: seq<string>): string {
    if arrivals == [] then "" else arrivals[0] + FromFront(arrivals[1..])
  }

  lemma {:induction false} FromFrontIsConcat(arrivals: seq<string>)
    ensures FromFront(arrivals) == Concat(arrivals)
  {
    if arrivals != [] {
      var head, tail := arrivals[..1], arrivals[1..];
      assert arrivals == head + tail && head[..0] == [];
      FromFrontIsConcat(tail);
      ConcatSplit(head, tail);
      assert Concat(head) == Concat([]) + arrivals[0];
    }
  }

  // ---- Unsettled texts --------------------------------------------------------------------------

  /** Pieces after which the scan goes on as after an uncut boundary. */
  lemma PrependSkipped(s: string, i: nat, pieces: seq<string>) returns (arrivals: seq<string>)
    requires SearchFrom(s, 0) == Some(i) && ResumeAt(s, i) <= |s|
    requires pieces != [] && pieces[0] != "" && FromFront(pieces) == AfterBoundary(s, i)
    ensures arrivals != [] && arrivals[0] != "" && FromFront(arrivals) == s
    ensures CutChunks("", arrivals) == [s[..i]] + CutChunks("", pieces)
  {
    hide SearchFrom, BoundaryAt, AfterBoundary, Split;
    var n := ResumeAt(s, i);
    var b := s[..n] + pieces[0];
    arrivals := [b] + pieces[1..];
    PiecesFit(s, i, pieces, b);
    ScanStep(b, i);
    assert arrivals[1..] == pieces[1..] && "" + b == b && "" + pieces[0] == pieces[0];
    var r := Split(pieces[0]);
    assert CutChunks("", pieces) == r.0 + CutChunks(r.1, pieces[1..]);
    assert CutChunks("", arrivals) == ([s[..i]] + r.0) + CutChunks(r.1, pieces[1..]);
    assert ([s[..i]] + r.0) + CutChunks(r.1, pieces[1..]) == [s[..i]] + (r.0 + CutChunks(r.1, pieces[1..]));
  }

  lemma PiecesFit(s: string, i: nat, pieces: seq<string>, b: string)
    requires SearchFrom(s, 0) == Some(i) && ResumeAt(s, i) <= |s|
    requires pieces != [] && pieces[0] != "" && FromFront(pieces) == AfterBoundary(s, i)
    requires b == s[..ResumeAt(s, i)] + pieces[0]
    ensures b + FromFront(pieces[1..]) == s
    ensures SearchFrom(b, 0) == Some(i) && AfterBoundary(b, i) == pieces[0] && b[..i] == s[..i]
  {
    hide SearchFrom, BoundaryAt;
    var n := ResumeAt(s, i);
    assert AfterBoundary(s, i) == s[n..];
    assert s == s[..n] + s[n..];
    assert b + FromFront(pieces[1..]) == s[..n] + FromFront(pieces);
    assert b == s[..|b|];
    BoundaryFound(s);
    BoundaryInLonger(s, i, |b|);
    SearchUpTo(s, |b|);
    assert b[i] == s[i] && b[n..] == pieces[0];
  }

  /** A boundary lies within the text that is skipped and one character more. */
  lemma BoundaryInLonger(s: string, i: nat, k: nat)
    requires i < |s| && BoundaryAt(s, i) && ResumeAt(s, i) < k <= |s|
    ensures BoundaryAt(s[..k], i)
  {
    assert forall j :: 0 <= j < k ==> s[..k][j] == s[j];
  }

  lemma SearchUpTo(s: string, k: nat)
    requires SearchFrom(s, 0).Some? && k <= |s| && BoundaryAt(s[..k], SearchFrom(s, 0).value)
    requires SearchFrom(s, 0).value < k
    ensures SearchFrom(s[..k], 0) == SearchFrom(s, 0)
  {
    var i := SearchFrom(s, 0).value;
    assert s == s[..k] + s[k..];
    forall j: nat | j < i ensures !BoundaryAt(s[..k], j) {
      if BoundaryAt(s[..k], j) { BoundaryIsStable(s[..k], s[k..], j, j); }
    }
    LeftmostIsFound(s[..k], i);
  }

  /** A cut right after a mixed boundary keeps the next character. */
  lemma PrependKept(s: string, i: nat, pieces: seq<string>) returns (arrivals: seq<string>)
    requires SearchFrom(s, 0) == Some(i) && IsMixed(s, i) && FromFront(pieces) == s[i + 3..]
    ensures arrivals != [] && arrivals[0] != "" && FromFront(arrivals) == s
    ensures CutChunks("", arrivals) == [s[..i]] + CutChunks("", pieces)
  {
    var b := s[..i + 3];
    arrivals := [b] + pieces;
    assert s == b + s[i + 3..] && arrivals[1..] == pieces;
    assert IsMixed(b, i);
    MixedIsBoundary(b, i);
    SearchUpTo(s, i + 3);
    NothingToDrain();
    assert b[..i] == s[..i] && AfterBoundary(b, i) == "" && "" + b == b;
    hide SearchFrom, BoundaryAt, AfterBoundary;
    assert Split("") == ([], "");
    assert [s[..i]] + [] == [s[..i]];
  }

  /** An unsettled text has pieces with other chunks than the whole. */
  lemma {:induction false} UnsettledCut(s: string) returns (arrivals: seq<string>)
    requires !IsSettled(s)
    ensures arrivals != [] && arrivals[0] != "" && FromFront(arrivals) == s
    ensures CutChunks("", arrivals) != Chunks(s)
    decreases |s|
  {
    hide BoundaryAt, AfterBoundary, CutChunks;
    var i := SearchFrom(s, 0).value;
    BoundaryFound(s);
    SkipIsMeasured(s, i);
    if !IsMixed(s, i) {
      var pieces := UnsettledCut(AfterBoundary(s, i));
      arrivals := PrependSkipped(s, i, pieces);
      HeadsAgree(s[..i], CutChunks("", pieces), Chunks(AfterBoundary(s, i)));
    } else {
      MixedRest(s, i);
      var rest := s[i + 3..];
      if Chunks(rest) != Chunks(rest[1..]) {
        arrivals := PrependKept(s, i, [rest]);
        OneArrival(rest);
        HeadsAgree(s[..i], Chunks(rest), Chunks(rest[1..]));
      } else if !IsSettled(rest) {
        var pieces := UnsettledCut(rest);
        arrivals := PrependKept(s, i, pieces);
        HeadsAgree(s[..i], CutChunks("", pieces), Chunks(rest));
      } else {
        var pieces := UnsettledCut(rest[1..]);
        arrivals := PrependSkipped(s, i, pieces);
        HeadsAgree(s[..i], CutChunks("", pieces), Chunks(rest[1..]));
      }
    }
  }

  lemma HeadsAgree(c: string, a: seq<string>, b: seq<string>)
    ensures [c] + a == [c] + b <==> a == b
  {
    assert ([c] + a)[1..] == a && ([c] + b)[1..] == b;
  }

  // ---- The exact condition ----------------------------------------------------------------------

  function AsEvents(chunks: seq<string>): seq<Event> {
    seq(|chunks|, i requires 0 <= i < |chunks| => Progress(chunks[i]))
  }

  lemma {:induction false} EchoReports(st: State, chunks: seq<string>)
    requires st.fault.None?
    ensures Report(Echo, st, chunks).events == st.events + AsEvents(chunks)
    decreases |chunks|
  {
    if chunks == [] {
      assert st.events + [] == st.events;
    } else {
      EchoReports(Deliver(st, Echo(chunks[0]), ""), chunks[1..]);
      assert AsEvents(chunks) == [Progress(chunks[0])] + AsEvents(chunks[1..]);
    }
  }

  lemma EventsTellChunks(a: seq<string>, b: seq<string>)
    requires AsEvents(a) == AsEvents(b)
    ensures a == b
  {
    assert |AsEvents(a)| == |a| && |AsEvents(b)| == |b|;
    forall i | 0 <= i < |a| ensures a[i] == b[i] {
      assert AsEvents(a)[i] == AsEvents(b)[i];
    }
  }

  /** A whole text is read alike however it is cut, for every meaning of the events, exactly if it is settled. */
  lemma CutsAgreeExactly(text: string)
    ensures AllCutsAgree(text) <==> IsSettled(text)
  {
    hide Run, IsSettled, Chunks, CutChunks, Report, Verdict;
    if IsSettled(text) {
      forall parse: string -> Parse, arrivals | Concat(arrivals) == text
        ensures Run(parse, arrivals) == Run(parse, [text])
      {
        SettledRun(parse, arrivals, text);
      }
    } else {
      var arrivals := UnsettledCut(text);
      FromFrontIsConcat(arrivals);
      UnlikeRuns(arrivals, text);
    }
  }

  lemma SettledRun(parse: string -> Parse, arrivals: seq<string>, text: string)
    requires Concat(arrivals) == text && IsSettled(text)
    ensures Run(parse, arrivals) == Run(parse, [text])
  {
    hide Run, IsSettled, Chunks, CutChunks, Report, Verdict;
    FromFrontIsConcat(arrivals);
    NothingToDrain();
    assert "" + text == text;
    SettledChunks("", arrivals);
    OneArrival(text);
    RunReports(parse, arrivals);
    RunReports(parse, [text]);
  }

  lemma UnlikeRuns(arrivals: seq<string>, text: string)
    requires CutChunks("", arrivals) != Chunks(text)
    ensures Run(Echo, arrivals) != Run(Echo, [text])
  {
    hide Run, Chunks, CutChunks, Report, AsEvents;
    OneArrival(text);
    RunReports(Echo, arrivals);
    RunReports(Echo, [text]);
    EchoReports(START, CutChunks("", arrivals));
    EchoReports(START, Chunks(text));
    var a, b := AsEvents(CutChunks("", arrivals)), AsEvents(Chunks(text));
    if a == b {
      EventsTellChunks(CutChunks("", arrivals), Chunks(text));
    }
    assert START.events + a == a && START.events + b == b;
  }

  /** Unless it ends with a CRLF and a bare LF, a text is settled exactly if its scan meets no such boundary. */
  lemma SettledMeans(text: string)
    requires !EndsMixed(text)
    ensures IsSettled(text) <==> !MeetsMixed(text)
  {
    CutsAgreeExactly(text);
    UnmixedCutsAgree(text);
  }

  // ---- Mixed boundaries that do not show --------------------------------------------------------

  lemma AtBoundary(s: string, u: string)
    requires s != "" && BoundaryAt(s, 0) && !IsMixed(s, 0) && ResumeAt(s, 0) <= |s| && u == s[ResumeAt(s, 0)..]
    ensures Chunks(s) == [""] + Chunks(u) && (IsSettled(s) <==> IsSettled(u))
  {
    LeftmostIsFound(s, 0);
    hide BoundaryAt, SearchFrom;
    assert AfterBoundary(s, 0) == u && s[..0] == "";
    ScanStep(s, 0);
    hide Chunks;
  }

  lemma AtLineFeeds(s: string, u: string)
    requires s == "\n\n" + u || s == "\n\r\n" + u
    ensures var rest := if s == "\n\n" + u then u else "\n" + u;
            Chunks(s) == [""] + Chunks(rest) && (IsSettled(s) <==> IsSettled(rest))
  {
    hide Chunks, IsSettled;
    if s == "\n\n" + u {
      assert s[0] == '\n' && s[1] == '\n' && s[2..] == u;
      AtBoundary(s, u);
    } else {
      assert s[0] == '\n' && s[1] == '\r' && s[2] == '\n' && s[2..] == "\n" + u;
      AtBoundary(s, "\n" + u);
    }
  }

  lemma AtCrlfs(s: string, u: string)
    requires s == "\r\n\r\n" + u
    ensures Chunks(s) == [""] + Chunks(u) && (IsSettled(s) <==> IsSettled(u))
  {
    hide Chunks, IsSettled;
    assert s[0] == '\r' && s[1] == '\n' && s[2] == '\r' && s[3] == '\n' && s[4..] == u;
    AtBoundary(s, u);
  }

  lemma AtMixed(s: string, u: string)
    requires s == "\r\n\n" + u
    ensures Chunks(s) == [""] + Chunks(if u == "" then "" else u[1..])
    ensures IsSettled(s) <==> u == "" || (Chunks(u) == Chunks(u[1..]) && IsSettled(u) && IsSettled(u[1..]))
  {
    assert s[0] == '\r' && s[1] == '\n' && s[2] == '\n' && s[3..] == u;
    MixedIsBoundary(s, 0);
    LeftmostIsFound(s, 0);
    MixedRest(s, 0);
  }

  /** Texts that end with a mixed boundary may meet earlier ones without consequence: however these two are cut,
      empty chunks are read, and equally many. */
  lemma EarlyMixedMayNotShow()
    ensures AllCutsAgree("\r\n\n\r\n\n") && AllCutsAgree("\r\n\n\r\n\r\n\n\r\n\n")
  {
    hide Chunks, IsSettled, AllCutsAgree;
    SettledNothing();
    var a := "\r\n\n";
    AtMixed(a, "");
    AtLineFeeds("\n\n", "");
    assert a + "" == a && "\n\n" + "" == "\n\n" && a[1..] == "\n\n";
    // a + a
    AtMixed(a + a, a);
    assert a + a == "\r\n\n\r\n\n";
    CutsAgreeExactly(a + a);
    // a + "\r\n\r\n\n" + a
    LongerRest(a);
    var x := "\r\n\r\n\n" + a;
    AtMixed(a + x, x);
    assert a + x == "\r\n\n\r\n\r\n\n\r\n\n";
    CutsAgreeExactly(a + x);
  }

  lemma LongerRest(a: string)
    requires a == "\r\n\n" && Chunks(a) == [""] + Chunks("") && Chunks("\n\n") == [""] + Chunks("")
    requires IsSettled(a) && IsSettled("\n\n")
    ensures var x := "\r\n\r\n\n" + a; IsSettled(x) && IsSettled(x[1..]) && Chunks(x) == Chunks(x[1..])
  {
    hide Chunks, IsSettled;
    var x := "\r\n\r\n\n" + a;
    assert x == "\r\n\r\n" + ("\n" + a) && "\n" + a == "\n\r\n" + "\n" && "\n" + "\n" == "\n\n";
    assert ("\n" + a)[1] == '\r' && x[1..][1] == '\r';
    AtCrlfs(x, "\n" + a);
    AtLineFeeds("\n" + a, "\n");
    assert x[1..] == "\n\r\n" + ("\n" + a) && "\n" + ("\n" + a) == "\n\n" + a;
    AtLineFeeds(x[1..], "\n" + a);
    AtLineFeeds("\n\n" + a, a);
  }
}
