/** The reader of the forward-proxy progress stream: text arrives in chunks, events are cut at blank
    lines, and the result must not depend on where the network happens to cut the text. */
module ProgressStream {
  import opened Wrappers

  datatype Event = Complete(payload: Option<string>) | Failed(message: string) | Progress(text: string)

  /** What becomes of the text between two boundaries: nothing, an event, or a JSON syntax error. */
  datatype Parse = NoEvent | Parsed(event: Event) | Malformed

  datatype Reason = StreamFailed(message: string) | BadJson | EndedEarly

  datatype Outcome = Resolved(payload: string) | Rejected(reason: Reason)

  // ---- Boundaries: the regular expression \r?\n\r?\n ---------------------------------------------

  /** Where a line end that starts at `i` stops, if one starts there. */
  function LineEnd(s: string, i: nat): Option<nat> {
    if i < |s| && s[i] == '\n' then Some(i + 1)
    else if i + 1 < |s| && s[i] == '\r' && s[i + 1] == '\n' then Some(i + 2)
    else None
  }

  predicate BoundaryAt(s: string, i: nat) {
    LineEnd(s, i).Some? && LineEnd(s, LineEnd(s, i).value).Some?
  }

  /** The leftmost boundary from `i` on. */
  function SearchFrom(s: string, i: nat): (r: Option<nat>)
    requires i <= |s|
    ensures r.Some? ==> i <= r.value < |s| && BoundaryAt(s, r.value) && forall k :: i <= k < r.value ==>
            !BoundaryAt(s, k)
    ensures r.None? ==> forall k :: i <= k < |s| ==> !BoundaryAt(s, k)
    decreases |s| - i
  {
    if i == |s| then None else if BoundaryAt(s, i) then Some(i) else SearchFrom(s, i + 1)
  }

  /** What remains after the boundary at `i`; the code skips four characters if it starts with a carriage
      return and two otherwise, whatever the boundary really measures. */
  function AfterBoundary(s: string, i: nat): (rest: string)
    requires i < |s|
    ensures |rest| < |s|
  {
    var n := i + if s[i] == '\r' then 4 else 2;
    if n <= |s| then s[n..] else []
  }

  // ---- The reader as a function of its state ----------------------------------------------------

  datatype State = State(events: seq<Event>, payload: Option<string>, fault: Option<Reason>, buffer: string)

  const START := State([], None, None, [])

  /** Takes one parsed chunk into account; `rest` is the text still to be read. */
  function Deliver(st: State, p: Parse, rest: string): State {
    match p
    case NoEvent => st.(buffer := rest)
    case Malformed => st.(fault := Some(BadJson), buffer := [])
    case Parsed(Failed(m)) => st.(events := st.events + [Failed(m)], fault := Some(StreamFailed(m)), buffer := [])
    case Parsed(Complete(v)) => st.(events := st.events + [Complete(v)], payload := v, buffer := rest)
    case Parsed(e) => st.(events := st.events + [e], buffer := rest)
  }

  function Drain(parse: string -> Parse, st: State): State
    decreases |st.buffer|
  {
    if st.fault.Some? then st
    else
      match SearchFrom(st.buffer, 0)
      case None => st
      case Some(i) => Drain(parse, Deliver(st, parse(st.buffer[..i]), AfterBoundary(st.buffer, i)))
  }

  function Feed(parse: string -> Parse, st: State, text: string): State {
    if st.fault.Some? then st else Drain(parse, st.(buffer := st.buffer + text))
  }

  function FeedAll(parse: string -> Parse, st: State, arrivals: seq<string>): State {
    if arrivals == [] then st
    else
      var n := |arrivals| - 1;
      Feed(parse, FeedAll(parse, st, arrivals[..n]), arrivals[n])
  }

  /** The trailing chunk, and the final verdict. */
  function Finish(parse: string -> Parse, st: State): (seq<Event>, Outcome) {
    var last := if st.fault.Some? then st else Deliver(st, parse(st.buffer), []);
    (last.events,
     if last.fault.Some? then Rejected(last.fault.value)
     else if last.payload.None? then Rejected(EndedEarly)
     else Resolved(last.payload.value))
  }

  function Run(parse: string -> Parse, arrivals: seq<string>): (seq<Event>, Outcome) {
    Finish(parse, FeedAll(parse, START, arrivals))
  }

  // ---- The reader as the code runs it -----------------------------------------------------------

  /** Every read but the last delivers text; the last reports the end and flushes the decoder. */
  method Read(parse: string -> Parse, arrivals: seq<string>) returns (events: seq<Event>, outcome: Outcome)
    requires arrivals != []
    ensures (events, outcome) == Run(parse, arrivals)
  {
    var buffer := "";
    var completePayload: Option<string> := None;
    events := [];
    var k := 0;
    while true
      invariant 0 <= k <= |arrivals|
      invariant FeedAll(parse, START, arrivals[..k]) == State(events, completePayload, None, buffer)
      invariant k < |arrivals|
      decreases |arrivals| - k
    {
      var done := k == |arrivals| - 1;
      ghost var st := State(events, completePayload, None, buffer + arrivals[k]);
      buffer := buffer + arrivals[k];
      assert arrivals[..k + 1][..k] == arrivals[..k];
      assert FeedAll(parse, START, arrivals[..k + 1]) == Drain(parse, st);

      var boundary := SearchFrom(buffer, 0);
      while boundary.Some?
        invariant boundary == SearchFrom(buffer, 0)
        invariant Drain(parse, st) == Drain(parse, State(events, completePayload, None, buffer))
        decreases |buffer|
      {
        var chunk := buffer[..boundary.value];
        buffer := AfterBoundary(buffer, boundary.value);
        match parse(chunk) {
          case NoEvent =>
          case Malformed =>
            FaultIsFinal(parse, arrivals, k + 1);
            return events, Rejected(BadJson);
          case Parsed(event) =>
            events := events + [event];
            match event {
              case Complete(payload) => completePayload := payload;
              case Failed(message) =>
                FaultIsFinal(parse, arrivals, k + 1);
                return events, Rejected(StreamFailed(message));
              case Progress(_) =>
            }
        }
        boundary := SearchFrom(buffer, 0);
      }

      k := k + 1;
      if done {
        assert arrivals[..k] == arrivals;
        match parse(buffer) {
          case NoEvent =>
          case Malformed => return events, Rejected(BadJson);
          case Parsed(event) =>
            events := events + [event];
            match event {
              case Complete(payload) => completePayload := payload;
              case Failed(message) => return events, Rejected(StreamFailed(message));
              case Progress(_) =>
            }
        }
        break;
      }
    }
    outcome := if completePayload.None? then Rejected(EndedEarly) else Resolved(completePayload.value);
  }

  /** Once the reader has thrown, nothing that follows in the stream is looked at. */
  lemma {:induction false} FaultIsFinal(parse: string -> Parse, arrivals: seq<string>, k: nat)
    requires k <= |arrivals| && FeedAll(parse, START, arrivals[..k]).fault.Some?
    ensures FeedAll(parse, START, arrivals) == FeedAll(parse, START, arrivals[..k])
    decreases |arrivals| - k
  {
    if k == |arrivals| {
      assert arrivals[..k] == arrivals;
    } else {
      assert arrivals[..k + 1][..k] == arrivals[..k];
      FaultIsFinal(parse, arrivals, k + 1);
    }
  }

  // ---- Cuts ---------------------------------------------------------------------------------------

  function Concat(arrivals: seq<string>): string {
    if arrivals == [] then ""
    else
      var n := |arrivals| - 1;
      Concat(arrivals[..n]) + arrivals[n]
  }

  /** Where the code goes on after the boundary at `i`. */
  function ResumeAt(s: string, i: nat): nat
    requires i < |s|
  {
    i + if s[i] == '\r' then 4 else 2
  }

  /** Draining this text ends by skipping past its end: its last boundary is a CRLF followed by a bare LF, and the
      fourth character that the code skips has not arrived yet. */
  predicate Overshoots(s: string)
    decreases |s|
  {
    match SearchFrom(s, 0)
    case None => false
    case Some(i) => ResumeAt(s, i) > |s| || Overshoots(AfterBoundary(s, i))
  }

  /** A boundary needs no text beyond its own end, and one that starts further left would end no later. */
  lemma BoundaryIsStable(b: string, x: string, i: nat, k: nat)
    requires BoundaryAt(b, i) && k <= i
    ensures BoundaryAt(b + x, i)
    ensures BoundaryAt(b + x, k) ==> BoundaryAt(b, k)
  {
    var t := b + x;
    assert forall n :: 0 <= n < |b| ==> t[n] == b[n];
  }

  lemma LeftmostIsFound(s: string, i: nat)
    requires i < |s| && BoundaryAt(s, i) && forall k: nat :: k < i ==> !BoundaryAt(s, k)
    ensures SearchFrom(s, 0) == Some(i)
  {
  }

  /** More text does not move the leftmost boundary, nor what follows it, unless the skip passed the end. */
  lemma SearchIsStable(b: string, x: string)
    requires SearchFrom(b, 0).Some?
    ensures SearchFrom(b + x, 0) == SearchFrom(b, 0)
    ensures var i := SearchFrom(b, 0).value;
            && ResumeAt(b + x, i) == ResumeAt(b, i)
            && (ResumeAt(b, i) <= |b| ==> AfterBoundary(b + x, i) == AfterBoundary(b, i) + x)
  {
    hide BoundaryAt;
    var i := SearchFrom(b, 0).value;
    assert (b + x)[i] == b[i];
    forall k: nat | k <= i ensures BoundaryAt(b + x, k) <==> k == i {
      BoundaryIsStable(b, x, i, k);
    }
    LeftmostIsFound(b + x, i);
    hide SearchFrom;
    var n := ResumeAt(b, i);
    if n <= |b| { assert (b + x)[n..] == b[n..] + x; }
  }

  /** Draining what has arrived and then the rest is draining it all at once. */
  lemma {:induction false} DrainInTwo(parse: string -> Parse, st: State, x: string)
    requires st.fault.None? && (!Overshoots(st.buffer) || x == "")
    ensures Feed(parse, Drain(parse, st), x) == Drain(parse, st.(buffer := st.buffer + x))
    decreases |st.buffer|
  {
    hide BoundaryAt, AfterBoundary, SearchFrom;
    match SearchFrom(st.buffer, 0)
    case None =>
    case Some(i) =>
      SearchIsStable(st.buffer, x);
      var next := Deliver(st, parse(st.buffer[..i]), AfterBoundary(st.buffer, i));
      assert (st.buffer + x)[..i] == st.buffer[..i];
      assert x == "" ==> st.buffer + x == st.buffer && next.buffer + x == next.buffer;
      if next.fault.None? {
        DrainInTwo(parse, next, x);
      }
  }

  /** No read but one at the end of the whole text ends where the skip passes the end. */
  ghost predicate EndsWell(arrivals: seq<string>, text: string) {
    forall n :: 0 <= n <= |arrivals| && Overshoots(Concat(arrivals[..n])) ==> Concat(arrivals[..n]) == text
  }

  lemma {:induction false} FeedAllIsOneDrain(parse: string -> Parse, st: State, arrivals: seq<string>, x: string)
    requires st.fault.None? && st.buffer == ""
    requires EndsWell(arrivals, Concat(arrivals) + x)
    ensures Feed(parse, FeedAll(parse, st, arrivals), x) == Drain(parse, st.(buffer := Concat(arrivals) + x))
    decreases |arrivals|
  {
    hide Overshoots;
    if arrivals == [] {
      assert "" + x == x;
    } else {
      var n := |arrivals| - 1;
      EndsWellBefore(arrivals, x);
      FeedAllIsOneDrain(parse, st, arrivals[..n], arrivals[n]);
      assert arrivals[..|arrivals|] == arrivals;
      RestIsEmpty(Concat(arrivals), x);
      DrainInTwo(parse, st.(buffer := Concat(arrivals)), x);
    }
  }

  lemma RestIsEmpty(a: string, x: string)
    ensures a == a + x <==> x == ""
  {
    assert |a + x| == |a| + |x|;
  }

  lemma EndsWellBefore(arrivals: seq<string>, x: string)
    requires arrivals != [] && EndsWell(arrivals, Concat(arrivals) + x)
    ensures EndsWell(arrivals[..|arrivals| - 1], Concat(arrivals))
  {
    hide Overshoots;
    var init := arrivals[..|arrivals| - 1];
    forall n | 0 <= n <= |init| && Overshoots(Concat(init[..n])) ensures Concat(init[..n]) == Concat(arrivals) {
      assert init[..n] == arrivals[..n];
      ConcatGrows(arrivals, n);
      assert |Concat(arrivals) + x| == |Concat(arrivals)| + |x|;
    }
  }

  lemma {:induction false} ConcatGrows(arrivals: seq<string>, n: nat)
    requires n <= |arrivals|
    ensures Concat(arrivals[..n]) <= Concat(arrivals)
  {
    if n == |arrivals| {
      assert arrivals[..n] == arrivals;
    } else {
      var m := |arrivals| - 1;
      assert arrivals[..m][..n] == arrivals[..n];
      ConcatGrows(arrivals[..m], n);
    }
  }

  /** The events delivered, the final payload and the error outcome depend on the text alone, if no read ends where
      the skip passes the end: every such way of cutting the text gives what one read gives. */
  lemma ChunkingDoesNotMatter(parse: string -> Parse, arrivals: seq<string>)
    requires EndsWell(arrivals, Concat(arrivals))
    ensures Run(parse, arrivals) == Run(parse, [Concat(arrivals)])
  {
    hide Overshoots, EndsWell;
    assert Concat(arrivals) + "" == Concat(arrivals);
    if arrivals == [] {
      assert FeedAll(parse, START, [""]) == Feed(parse, FeedAll(parse, START, [""][..0]), "");
    } else {
      var n := |arrivals| - 1;
      EndsWellBefore(arrivals, "");
      FeedAllIsOneDrain(parse, START, arrivals[..n], arrivals[n]);
    }
    OneRead(parse, Concat(arrivals));
  }

  // ---- Harmful cuts -----------------------------------------------------------------------------

  /** Reports every chunk as it stands. */
  function Echo(chunk: string): Parse {
    Parsed(Progress(chunk))
  }

  /** The characters reported in progress events. */
  function Chars(events: seq<Event>): nat {
    if events == [] then 0
    else
      var n := |events| - 1;
      Chars(events[..n]) + if events[n].Progress? then |events[n].text| else 0
  }

  lemma CharsOneMore(events: seq<Event>, text: string)
    ensures Chars(events + [Progress(text)]) == Chars(events) + |text|
  {
    var more := events + [Progress(text)];
    assert more[..|events|] == events;
  }

  predicate IsOdd(n: nat) {
    n % 2 == 1
  }

  lemma OddSum(a: nat, b: nat)
    ensures IsOdd(a + b) <==> IsOdd(a) != IsOdd(b)
  {
  }

  lemma SmallNumbers()
    ensures !IsOdd(0) && IsOdd(1) && !IsOdd(2) && IsOdd(3) && !IsOdd(4)
  {
  }

  /** The length of a text is as odd as that of its chunk and of its rest, unless the skip passes the end. */
  lemma SkipIsEven(s: string, i: nat)
    requires i < |s| && BoundaryAt(s, i)
    ensures IsOdd(|s|) <==> (IsOdd(i) != IsOdd(|AfterBoundary(s, i)|)) != (ResumeAt(s, i) > |s|)
    ensures ResumeAt(s, i) > |s| ==> AfterBoundary(s, i) == ""
  {
    hide BoundaryAt, IsOdd;
    SkipIsMeasured(s, i);
    SmallNumbers();
    var rest := |AfterBoundary(s, i)|;
    if ResumeAt(s, i) > |s| {
      assert |s| == i + 3;
      OddSum(i, 3);
    } else {
      assert |s| == (i + if s[i] == '\r' then 4 else 2) + rest;
      OddSum(i + if s[i] == '\r' then 4 else 2, rest);
      OddSum(i, if s[i] == '\r' then 4 else 2);
    }
  }

  /** Every skip is of two or four characters, so that what is reported is as odd as the text is long, unless the
      last skip passed the end. */
  lemma {:induction false} SkipsAreEven(st: State)
    requires st.fault.None? && st.payload.None?
    ensures var d := Drain(Echo, st);
            && d.fault.None? && d.payload.None?
            && (Overshoots(st.buffer) ==> d.buffer == "")
            && (IsOdd(Chars(d.events)) != IsOdd(|d.buffer|) <==>
                (IsOdd(Chars(st.events)) != IsOdd(|st.buffer|)) != Overshoots(st.buffer))
    decreases |st.buffer|
  {
    hide BoundaryAt, IsOdd, AfterBoundary, ResumeAt;
    match SearchFrom(st.buffer, 0)
    case None =>
    case Some(i) =>
      var next := Deliver(st, Echo(st.buffer[..i]), AfterBoundary(st.buffer, i));
      CharsOneMore(st.events, st.buffer[..i]);
      OddSum(Chars(st.events), i);
      SkipIsEven(st.buffer, i);
      NothingOvershoots();
      SkipsAreEven(next);
      hide SearchFrom, Chars;
  }

  lemma SkipIsMeasured(s: string, i: nat)
    requires i < |s| && BoundaryAt(s, i)
    ensures ResumeAt(s, i) > |s| ==> ResumeAt(s, i) == |s| + 1 && IsMixed(s, i) && i + 3 == |s|
    ensures |AfterBoundary(s, i)| == if ResumeAt(s, i) > |s| then 0 else |s| - ResumeAt(s, i)
  {
  }

  /** What `Echo` reports of one read, and of a read that overshoots followed by another. */
  lemma EchoParity(text: string)
    ensures IsOdd(Chars(Run(Echo, [text]).0)) <==> IsOdd(|text|) != Overshoots(text)
  {
    hide Drain, Overshoots, IsOdd, Finish, Run;
    var st := START.(buffer := text);
    OneRead(Echo, text);
    SkipsAreEven(st);
    FinishReports(Drain(Echo, st));
    SmallNumbers();
    OddSum(Chars(Drain(Echo, st).events), |Drain(Echo, st).buffer|);
  }

  lemma FinishReports(st: State)
    requires st.fault.None? && st.payload.None?
    ensures Chars(Finish(Echo, st).0) == Chars(st.events) + |st.buffer|
  {
    CharsOneMore(st.events, st.buffer);
  }

  lemma EchoParityCut(a: string, x: string)
    requires Overshoots(a)
    ensures IsOdd(Chars(Run(Echo, [a, x]).0)) <==> IsOdd(|a + x|) == Overshoots(x)
  {
    hide Drain, Overshoots, IsOdd, Finish, Run;
    TwoReads(Echo, a, x);
    SkipsAreEven(START.(buffer := a));
    var d := Drain(Echo, START.(buffer := a));
    assert d.buffer + x == x;
    SkipsAreEven(d.(buffer := x));
    var e := Drain(Echo, d.(buffer := x));
    FinishReports(e);
    SmallNumbers();
    OddSum(Chars(e.events), |e.buffer|);
    OddSum(|a|, |x|);
  }

  /** A cut is harmless, whatever follows and whatever the events mean, exactly if the text before it does not
      overshoot. */
  lemma CutIsHarmless(a: string)
    ensures (forall parse, x :: Run(parse, [a, x]) == Run(parse, [a + x])) <==> !Overshoots(a)
  {
    hide Overshoots, Run, EndsWell;
    if Overshoots(a) {
      var x := ".";
      EchoParity(a + x);
      EchoParityCut(a, x);
      DotEndsWell(a);
      hide Chars;
      assert Run(Echo, [a, x]) != Run(Echo, [a + x]);
    } else {
      forall parse: string -> Parse, x ensures Run(parse, [a, x]) == Run(parse, [a + x]) {
        TwoEndWell(a, x);
        ConcatOfTwo(a, x);
        ChunkingDoesNotMatter(parse, [a, x]);
      }
    }
  }

  lemma ConcatOfTwo(a: string, x: string)
    ensures Concat([a, x]) == a + x && Concat([a]) == a
  {
    assert [a, x][..1] == [a] && [a][..0] == [];
    assert Concat([a]) == Concat([]) + a;
    assert Concat([a, x]) == Concat([a]) + x;
  }

  lemma TwoEndWell(a: string, x: string)
    requires !Overshoots(a) || x == ""
    ensures EndsWell([a, x], a + x)
  {
    hide Overshoots;
    var arrivals := [a, x];
    ConcatOfTwo(a, x);
    NothingOvershoots();
    forall n | 0 <= n <= 2 && Overshoots(Concat(arrivals[..n])) ensures Concat(arrivals[..n]) == a + x {
      assert arrivals[..0] == [] && arrivals[..1] == [a] && arrivals[..2] == arrivals;
    }
  }

  lemma NothingOvershoots()
    ensures !Overshoots("")
  {
  }

  /** A text that overshoots ends with a CRLF and a bare LF. */
  predicate EndsMixed(s: string) {
    |s| >= 3 && IsMixed(s, |s| - 3)
  }

  lemma {:induction false} OvershootingEndsMixed(s: string)
    ensures Overshoots(s) ==> EndsMixed(s)
    decreases |s|
  {
    hide BoundaryAt;
    match SearchFrom(s, 0)
    case None =>
    case Some(i) =>
      SkipIsMeasured(s, i);
      var rest := AfterBoundary(s, i);
      OvershootingEndsMixed(rest);
      if EndsMixed(rest) {
        assert rest == s[ResumeAt(s, i)..];
      }
  }

  lemma DotEndsWell(a: string)
    ensures !Overshoots(a + ".") && !Overshoots(".")
  {
    OvershootingEndsMixed(a + ".");
    OvershootingEndsMixed(".");
  }

  // ---- Texts that may be cut anywhere -----------------------------------------------------------

  /** A CRLF followed by a bare LF. */
  predicate IsMixed(s: string, i: nat) {
    i + 2 < |s| && s[i] == '\r' && s[i + 1] == '\n' && s[i + 2] == '\n'
  }

  /** The scan of the text meets a boundary that is a CRLF followed by a bare LF. */
  predicate MeetsMixed(s: string)
    decreases |s|
  {
    match SearchFrom(s, 0)
    case None => false
    case Some(i) => IsMixed(s, i) || MeetsMixed(AfterBoundary(s, i))
  }

  /** The scan meets such a boundary exactly if some beginning of the text overshoots. */
  lemma {:induction false} MixedOvershoots(s: string)
    ensures MeetsMixed(s) <==> exists k :: 0 <= k <= |s| && Overshoots(s[..k])
    decreases |s|
  {
    hide BoundaryAt, AfterBoundary;
    if k: nat :| k <= |s| && Overshoots(s[..k]) {
      OvershootIsMet(s, k);
    }
    if MeetsMixed(s) {
      var i := SearchFrom(s, 0).value;
      if IsMixed(s, i) {
        MixedPrefix(s, i);
      } else {
        SkipIsMeasured(s, i);
        MixedOvershoots(AfterBoundary(s, i));
        var k: nat :| k <= |AfterBoundary(s, i)| && Overshoots(AfterBoundary(s, i)[..k]);
        LaterOvershoot(s, i, k);
      }
    }
  }

  lemma OvershootIsMet(s: string, k: nat)
    requires k <= |s| && Overshoots(s[..k])
    ensures MeetsMixed(s)
    decreases |s|
  {
    hide BoundaryAt, AfterBoundary;
    var b, x := s[..k], s[k..];
    assert s == b + x;
    var i := SearchFrom(b, 0).value;
    SearchIsStable(b, x);
    SkipIsMeasured(b, i);
    if ResumeAt(b, i) <= k {
      assert AfterBoundary(s, i)[..|AfterBoundary(b, i)|] == AfterBoundary(b, i);
      OvershootIsMet(AfterBoundary(s, i), |AfterBoundary(b, i)|);
    }
  }

  lemma SearchInPrefix(s: string, k: nat)
    requires SearchFrom(s, 0).Some? && k <= |s| && SearchFrom(s, 0).value + 2 < k
    requires BoundaryAt(s[..k], SearchFrom(s, 0).value)
    ensures SearchFrom(s[..k], 0) == SearchFrom(s, 0)
  {
    var i := SearchFrom(s, 0).value;
    assert s == s[..k] + s[k..];
    forall j: nat | j < i ensures !BoundaryAt(s[..k], j) {
      if BoundaryAt(s[..k], j) { BoundaryIsStable(s[..k], s[k..], j, j); }
    }
    LeftmostIsFound(s[..k], i);
  }

  lemma MixedPrefix(s: string, i: nat)
    requires SearchFrom(s, 0) == Some(i) && IsMixed(s, i)
    ensures Overshoots(s[..i + 3])
  {
    var b := s[..i + 3];
    assert b[i] == '\r' && b[i + 1] == '\n' && b[i + 2] == '\n';
    SearchInPrefix(s, i + 3);
  }

  lemma LaterOvershoot(s: string, i: nat, k: nat)
    requires SearchFrom(s, 0) == Some(i) && ResumeAt(s, i) <= |s|
    requires k <= |AfterBoundary(s, i)| && Overshoots(AfterBoundary(s, i)[..k])
    ensures ResumeAt(s, i) + k <= |s| && Overshoots(s[..ResumeAt(s, i) + k])
  {
    hide Overshoots, SearchFrom, BoundaryAt;
    var n := ResumeAt(s, i);
    var b := s[..n + k];
    assert AfterBoundary(s, i) == s[n..];
    OvershootingEndsMixed(AfterBoundary(s, i)[..k]);
    BoundaryIsFound(s, i);
    BoundaryInPrefix(s, i, n + k);
    SearchInPrefix(s, n + k);
    assert b[i] == s[i] && AfterBoundary(b, i) == b[n..] == s[n..][..k];
    OvershootsLater(b, i);
  }

  lemma BoundaryIsFound(s: string, i: nat)
    requires SearchFrom(s, 0) == Some(i)
    ensures i < |s| && BoundaryAt(s, i)
  {
  }

  lemma OvershootsLater(b: string, i: nat)
    requires SearchFrom(b, 0) == Some(i) && Overshoots(AfterBoundary(b, i))
    ensures Overshoots(b)
  {
  }

  lemma BoundaryInPrefix(s: string, i: nat, k: nat)
    requires i + 5 <= k <= |s| && BoundaryAt(s, i)
    ensures BoundaryAt(s[..k], i)
  {
    assert forall j :: 0 <= j < k ==> s[..k][j] == s[j];
  }

  /** Cuts within `s` do not matter, whatever follows `s` and whatever the events mean. */
  ghost predicate MayBeCut(s: string) {
    forall parse, arrivals, last :: Concat(arrivals) <= s <= Concat(arrivals) + last ==>
      Run(parse, arrivals + [last]) == Run(parse, [Concat(arrivals) + last])
  }

  /** A text may be cut anywhere exactly if its scan meets no CRLF followed by a bare LF. */
  lemma MayBeCutExactly(s: string)
    ensures MayBeCut(s) <==> !MeetsMixed(s)
  {
    hide Run, MeetsMixed, Overshoots;
    MixedOvershoots(s);
    if MeetsMixed(s) {
      var k: nat :| k <= |s| && Overshoots(s[..k]);
      HarmfulCut(s, k);
    } else {
      forall parse: string -> Parse, arrivals, last | Concat(arrivals) <= s <= Concat(arrivals) + last
        ensures Run(parse, arrivals + [last]) == Run(parse, [Concat(arrivals) + last])
      {
        CutWithin(parse, s, arrivals, last);
      }
    }
  }

  lemma HarmfulCut(s: string, k: nat)
    requires k <= |s| && Overshoots(s[..k])
    ensures !MayBeCut(s)
  {
    hide Run, Overshoots;
    var a, x := s[..k], s[k..] + ".";
    assert [a] + [x] == [a, x];
    ConcatOfTwo(a, x);
    assert a + x == s + ".";
    DotEndsWell(s);
    DotEndsWell(s[k..]);
    EchoParity(a + x);
    EchoParityCut(a, x);
    hide Chars;
    assert Run(Echo, [a, x]) != Run(Echo, [a + x]);
  }

  lemma CutWithin(parse: string -> Parse, s: string, arrivals: seq<string>, last: string)
    requires Concat(arrivals) <= s && forall k :: 0 <= k <= |s| ==> !Overshoots(s[..k])
    ensures Run(parse, arrivals + [last]) == Run(parse, [Concat(arrivals) + last])
  {
    hide Run, Overshoots;
    var all := arrivals + [last];
    assert all[..|arrivals|] == arrivals && all[..|all|] == all;
    forall n: nat | n <= |arrivals| ensures !Overshoots(Concat(all[..n])) {
      assert all[..n] == arrivals[..n];
      ConcatGrows(arrivals, n);
      assert Concat(arrivals[..n]) == s[..|Concat(arrivals[..n])|];
    }
    ChunkingDoesNotMatter(parse, all);
  }

  /** However a text is cut, the result is the same. */
  ghost predicate AllCutsAgree(text: string) {
    forall parse, arrivals :: Concat(arrivals) == text ==> Run(parse, arrivals) == Run(parse, [text])
  }

  /** For a whole text that does not end with a mixed boundary, all cuts agree for every meaning of the events
      exactly if the scan of the text meets no mixed boundary. */
  lemma UnmixedCutsAgree(text: string)
    requires !EndsMixed(text)
    ensures AllCutsAgree(text) <==> !MeetsMixed(text)
  {
    hide Run, MeetsMixed, Overshoots;
    MixedOvershoots(text);
    if MeetsMixed(text) {
      var k: nat :| k <= |text| && Overshoots(text[..k]);
      var a, x := text[..k], text[k..];
      assert a + x == text;
      ConcatOfTwo(a, x);
      OvershootingEndsMixed(text);
      OvershootingEndsMixed(x);
      assert EndsMixed(x) ==> EndsMixed(text);
      EchoParity(text);
      EchoParityCut(a, x);
      hide Chars;
      assert Run(Echo, [a, x]) != Run(Echo, [text]);
    } else {
      forall parse: string -> Parse, arrivals | Concat(arrivals) == text
        ensures Run(parse, arrivals) == Run(parse, [text]) {
        UnmixedText(parse, arrivals);
      }
    }
  }

  /** A text of which no beginning overshoots, except perhaps the whole, is read alike however it is cut. */
  lemma OnlyTheEndOvershoots(parse: string -> Parse, arrivals: seq<string>)
    requires forall k :: 0 <= k < |Concat(arrivals)| ==> !Overshoots(Concat(arrivals)[..k])
    ensures Run(parse, arrivals) == Run(parse, [Concat(arrivals)])
  {
    hide Run, Overshoots;
    var text := Concat(arrivals);
    forall n: nat | n <= |arrivals| ensures Concat(arrivals[..n]) == text || !Overshoots(Concat(arrivals[..n])) {
      ConcatGrows(arrivals, n);
      assert Concat(arrivals[..n]) == text[..|Concat(arrivals[..n])|];
    }
    ChunkingDoesNotMatter(parse, arrivals);
  }

  lemma UnmixedText(parse: string -> Parse, arrivals: seq<string>)
    requires !MeetsMixed(Concat(arrivals))
    ensures Run(parse, arrivals) == Run(parse, [Concat(arrivals)])
  {
    MixedOvershoots(Concat(arrivals));
    OnlyTheEndOvershoots(parse, arrivals);
  }

  lemma {:induction false} FeedAllSplit(parse: string -> Parse, st: State, a: seq<string>, b: seq<string>)
    ensures FeedAll(parse, st, a + b) == FeedAll(parse, FeedAll(parse, st, a), b)
    decreases |b|
  {
    hide Feed;
    if b == [] {
      assert a + b == a;
    } else {
      var n := |b| - 1;
      assert (a + b)[..|a| + n] == a + b[..n] && (a + b)[|a| + n] == b[n];
      FeedAllSplit(parse, st, a, b[..n]);
    }
  }

  lemma {:induction false} ConcatSplit(a: seq<string>, b: seq<string>)
    ensures Concat(a + b) == Concat(a) + Concat(b)
    decreases |b|
  {
    if b == [] {
      assert a + b == a;
    } else {
      var n := |b| - 1;
      assert (a + b)[..|a| + n] == a + b[..n] && (a + b)[|a| + n] == b[n];
      ConcatSplit(a, b[..n]);
    }
  }

  lemma DrainStep(parse: string -> Parse, st: State)
    ensures st.fault.Some? || SearchFrom(st.buffer, 0).None? ==> Drain(parse, st) == st
    ensures st.fault.None? && SearchFrom(st.buffer, 0).Some? ==>
              var i := SearchFrom(st.buffer, 0).value;
              Drain(parse, st) == Drain(parse, Deliver(st, parse(st.buffer[..i]), AfterBoundary(st.buffer, i)))
  {
    hide Deliver, SearchFrom, AfterBoundary;
  }

  lemma NothingToDrain()
    ensures SearchFrom("", 0).None?
  {
  }

  /** No CRLF line end is followed by a bare LF one. Texts whose line ends are all LF, or all CRLF, qualify. */
  ghost predicate NoMixedBoundary(s: string) {
    forall i: nat :: !IsMixed(s, i)
  }

  lemma {:induction false} NoMixedIsMet(s: string)
    requires NoMixedBoundary(s)
    ensures !MeetsMixed(s)
    decreases |s|
  {
    hide BoundaryAt;
    match SearchFrom(s, 0)
    case None =>
    case Some(i) =>
      SkipIsMeasured(s, i);
      var n := ResumeAt(s, i);
      assert AfterBoundary(s, i) == if n <= |s| then s[n..] else [];
      forall j: nat ensures !IsMixed(AfterBoundary(s, i), j) {
        assert n <= |s| ==> (IsMixed(s[n..], j) ==> IsMixed(s, n + j));
      }
      NoMixedIsMet(AfterBoundary(s, i));
  }

  lemma UniformLineEndsAreNotMixed(s: string)
    requires || (forall i :: 0 <= i < |s| ==> s[i] != '\r')
             || (forall i :: 0 <= i < |s| && s[i] == '\n' ==> i > 0 && s[i - 1] == '\r')
    ensures NoMixedBoundary(s)
  {
  }

  // ---- Searching --------------------------------------------------------------------------------

  /** Searching past one more leading character. */
  lemma SearchCons(c: char, s: string)
    ensures SearchFrom([c] + s, 0) ==
            if BoundaryAt([c] + s, 0) then Some(0)
            else if SearchFrom(s, 0).Some? then Some(SearchFrom(s, 0).value + 1) else None
  {
    hide BoundaryAt, SearchFrom;
    var t := [c] + s;
    BoundariesShift(c, s);
    SearchIsLeftmost(s);
    SearchIsLeftmost(t);
    if !BoundaryAt(t, 0) {
      if SearchFrom(s, 0).Some? {
        var i := SearchFrom(s, 0).value;
        assert BoundaryAt(t, i + 1);
        assert forall k: nat :: 0 < k < i + 1 ==> !BoundaryAt(t, k);
      } else {
        assert forall k: nat :: 0 < k < |t| ==> !BoundaryAt(t, k);
      }
    }
  }

  lemma SearchIsLeftmost(s: string)
    ensures SearchFrom(s, 0).Some? ==> SearchFrom(s, 0).value < |s| && BoundaryAt(s, SearchFrom(s, 0).value)
    ensures SearchFrom(s, 0).Some? ==> forall k: nat :: k < SearchFrom(s, 0).value ==> !BoundaryAt(s, k)
    ensures SearchFrom(s, 0).None? ==> forall k: nat :: k < |s| ==> !BoundaryAt(s, k)
  {
    hide BoundaryAt;
  }

  lemma BoundariesShift(c: char, s: string)
    ensures forall k: nat :: BoundaryAt([c] + s, k + 1) <==> BoundaryAt(s, k)
    ensures forall k: nat :: k > 0 ==> (BoundaryAt([c] + s, k) <==> BoundaryAt(s, k - 1))
  {
    var t := [c] + s;
    forall k: nat ensures BoundaryAt(t, k + 1) <==> BoundaryAt(s, k) {
      assert forall n :: 0 <= n < |s| ==> t[n + 1] == s[n];
    }
    hide BoundaryAt;
    forall k: nat | k > 0 ensures BoundaryAt(t, k) <==> BoundaryAt(s, k - 1) {
      assert BoundaryAt(t, (k - 1) + 1) <==> BoundaryAt(s, k - 1);
    }
  }

  lemma MixedIsBoundary(s: string, i: nat)
    requires IsMixed(s, i)
    ensures BoundaryAt(s, i)
  {
  }

  lemma FirstBoundaryIsMixed(p: string, x: string)
    requires forall k: nat :: k < |p| ==> !BoundaryAt(p + "\r\n\n", k)
    ensures SearchFrom(p + "\r\n\n" + x, 0) == Some(|p|)
    ensures (p + "\r\n\n" + x)[..|p|] == p
    ensures AfterBoundary(p + "\r\n\n" + x, |p|) == if x == "" then "" else x[1..]
  {
    hide BoundaryAt, SearchFrom, AfterBoundary;
    var head := p + "\r\n\n";
    assert IsMixed(head, |p|);
    MixedIsBoundary(head, |p|);
    forall k: nat | k <= |p| ensures BoundaryAt(head + x, k) <==> k == |p| {
      BoundaryIsStable(head, x, |p|, k);
    }
    LeftmostIsFound(head + x, |p|);
    AfterMixed(head, x, |p|);
  }

  lemma AfterMixed(head: string, x: string, k: nat)
    requires IsMixed(head, k) && |head| == k + 3
    ensures AfterBoundary(head + x, k) == if x == "" then "" else x[1..]
  {
    var s := head + x;
    assert s[k] == head[k];
    if x != "" { assert s[k + 4..] == x[1..]; }
  }

  lemma OneRead(parse: string -> Parse, text: string)
    ensures Run(parse, [text]) == Finish(parse, Drain(parse, START.(buffer := text)))
  {
    assert [text][..0] == [] && START.buffer + text == text;
    assert FeedAll(parse, START, [text]) == Feed(parse, START, text);
  }

  lemma TwoReads(parse: string -> Parse, a: string, b: string)
    ensures Run(parse, [a, b]) == Finish(parse, Feed(parse, Drain(parse, START.(buffer := a)), b))
  {
    assert [a][..0] == [] && [a, b][..1] == [a] && START.buffer + a == a;
    assert FeedAll(parse, START, [a]) == Feed(parse, START, a);
  }

  /** Whenever the first boundary is a CRLF followed by a bare LF, and the text after it is an event only with its first
      character: cut after the boundary the event is delivered, and uncut it is lost. */
  lemma MixedBoundaryLosesText(parse: string -> Parse, p: string, tail: string, a: string, e: Event)
    requires forall k: nat :: k < |p| ==> !BoundaryAt(p + "\r\n\n", k)
    requires tail != "" && SearchFrom(tail, 0).None? && SearchFrom(tail[1..], 0).None?
    requires parse(p) == Parsed(Progress(a)) && parse(tail) == Parsed(e) && parse(tail[1..]) == NoEvent
    ensures var head := p + "\r\n\n";
            && Run(parse, [head + tail]) == ([Progress(a)], Rejected(EndedEarly))
            && Run(parse, [head, tail]).0 == [Progress(a), e]
            && (e.Complete? && e.payload.Some? ==> Run(parse, [head, tail]).1 == Resolved(e.payload.value))
  {
    hide BoundaryAt, SearchFrom, AfterBoundary, Run, Drain, Finish;
    var head, cut := p + "\r\n\n", START.(events := [Progress(a)]);
    FirstBoundaryIsMixed(p, "");
    FirstBoundaryIsMixed(p, tail);
    NothingToDrain();
    assert head + "" == head && START.events + [Progress(a)] == [Progress(a)];
    OneRead(parse, head + tail);
    TwoReads(parse, head, tail);
    DrainStep(parse, START.(buffer := head + tail));
    DrainStep(parse, cut.(buffer := tail[1..]));
    DrainStep(parse, START.(buffer := head));
    DrainStep(parse, cut);
    DrainStep(parse, cut.(buffer := tail));
    assert cut.buffer + tail == tail;
    FinishCut(parse, cut, tail, e);
  }

  lemma FinishCut(parse: string -> Parse, cut: State, tail: string, e: Event)
    requires cut.fault.None? && cut.payload.None? && |cut.events| == 1
    requires tail != "" && parse(tail) == Parsed(e) && parse(tail[1..]) == NoEvent
    ensures Finish(parse, cut.(buffer := tail[1..])) == (cut.events, Rejected(EndedEarly))
    ensures Finish(parse, cut.(buffer := tail)).0 == [cut.events[0], e]
    ensures e.Complete? && e.payload.Some? ==> Finish(parse, cut.(buffer := tail)).1 == Resolved(e.payload.value)
  {
    assert cut.events + [e] == [cut.events[0], e];
  }
}
