/** The generated SQL that files a stored request to `/mcp` under a kind, against the classifier in code. */
module RequestKindSql {
  import opened Wrappers
  import opened Json
  import opened Text
  import opened RequestKinds
  import opened Sql
  import opened OperationalClass
  import opened KindKeys
  import opened McpFiling
  import opened SqlTwin

  // ---- The generated SQL ------------------------------------------------------------------------

  /** CASE REPLACE(tool, '_', '-') WHEN ... */
  function TavilyCaseSql(tool: Expr): Expr {
    var t := DashesOf(tool);
    CaseWhen(Eq(t, TextLit("tavily-search")), TextLit("mcp:search"),
    CaseWhen(Eq(t, TextLit("tavily-extract")), TextLit("mcp:extract"),
    CaseWhen(Eq(t, TextLit("tavily-crawl")), TextLit("mcp:crawl"),
    CaseWhen(Eq(t, TextLit("tavily-map")), TextLit("mcp:map"),
    CaseWhen(Eq(t, TextLit("tavily-research")), TextLit("mcp:research"), TextLit("mcp:unknown-payload"))))))
  }

  function CallKindSql(value: Expr): Expr {
    CaseWhen(And(IsToolsCallSql(value), In(ToolSql(value), TAVILY_TOOLS)), TavilyCaseSql(ToolSql(value)),
    CaseWhen(And(IsToolsCallSql(value), Ne(ToolSql(value), TextLit(""))), TextLit("mcp:third-party-tool"),
    CaseWhen(IsToolsCallSql(value), TextLit("mcp:unknown-payload"),
    CaseWhen(Ne(MethodSql(value), TextLit("")), TextLit("mcp:unknown-method"), Lit(Nul)))))
  }

  function MessageKindSql(value: Expr): Expr {
    CaseWhen(In(MethodSql(value), CONTROL_METHODS), Concat(TextLit("mcp:"), MethodSql(value)),
    CaseWhen(Or(Or(Like(MethodSql(value), "resources/"), Like(MethodSql(value), "prompts/")),
                Like(MethodSql(value), "notifications/")),
             Concat(TextLit("mcp:"), MethodSql(value)),
    CallKindSql(value)))
  }

  function BatchKindSql(body: Expr): Expr {
    CaseWhen(Not(ExistsItem(body, Lit(Int(1)))), TextLit("mcp:unknown-payload"),
    CaseWhen(ExistsItem(body, IsNull(MessageKindSql(ItemValue))), TextLit("mcp:unknown-payload"),
    CaseWhen(Eq(CountDistinct(body, MessageKindSql(ItemValue)), Lit(Int(1))), MinOver(body, MessageKindSql(ItemValue)),
             TextLit("mcp:batch"))))
  }

  /** The kind of a stored log; `stored` is the expression used when the body does not tell. */
  function LogKindSql(body: Expr, stored: Expr): Expr {
    var isMcp := Eq(LowerOf(Coalesce(Col(RequestPath), TextLit(""))), TextLit("/mcp"));
    CaseWhen(And(And(isMcp, JsonValid(body)), JsonIsObject(body)),
             Coalesce(MessageKindSql(body), TextLit("mcp:unknown-payload")),
    CaseWhen(And(And(isMcp, JsonValid(body)), JsonIsArray(body)), BatchKindSql(body), stored))
  }

  // ---- One message ------------------------------------------------------------------------------

  /** The kind of a message once its method is lowered, as the SQL does first. */
  function LoweredKind(v: Value): Option<string> {
    var m := Lower(RawText(v.Get("method")));
    if m == "" then None
    else
      Some(if IsControlMethod(m) then "mcp:" + m
           else if m == "tools/call" then ToolKind(ToolOf(v))
           else "mcp:unknown-method")
  }

  /** A method with capitals that in lower case is a control method or `tools/call`. */
  predicate IsMiscased(v: Value) {
    var m := RawText(v.Get("method"));
    Lower(m) != m && (IsControlMethod(Lower(m)) || Lower(m) == "tools/call")
  }

  function CellOfKind(kind: Option<string>): SqlValue {
    if kind.Some? then Txt(kind.value) else Nul
  }

  lemma EvalTavilyCase(tool: Expr, row: Row, item: SqlValue, t: string)
    requires Eval(tool, row, item) == Txt(t)
    ensures Eval(TavilyCaseSql(tool), row, item) ==
            Txt(CaseOf(Dashed(t)))
  {
    var x, d := DashesOf(tool), Dashed(t);
    assert Eval(x, row, item) == Txt(d);
    hide Eval, Dashed;
    EvalColumns(row);
    var e5 := CaseWhen(Eq(x, TextLit("tavily-research")), TextLit("mcp:research"), TextLit("mcp:unknown-payload"));
    var e4 := CaseWhen(Eq(x, TextLit("tavily-map")), TextLit("mcp:map"), e5);
    var e3 := CaseWhen(Eq(x, TextLit("tavily-crawl")), TextLit("mcp:crawl"), e4);
    var e2 := CaseWhen(Eq(x, TextLit("tavily-extract")), TextLit("mcp:extract"), e3);
    EvalWhen(x, "tavily-research", "mcp:research", TextLit("mcp:unknown-payload"), row, item, d);
    EvalWhen(x, "tavily-map", "mcp:map", e5, row, item, d);
    EvalWhen(x, "tavily-crawl", "mcp:crawl", e4, row, item, d);
    EvalWhen(x, "tavily-extract", "mcp:extract", e3, row, item, d);
    EvalWhen(x, "tavily-search", "mcp:search", e2, row, item, d);
  }

  function CaseOf(d: string): string {
    if d == "tavily-search" then "mcp:search"
    else if d == "tavily-extract" then "mcp:extract"
    else if d == "tavily-crawl" then "mcp:crawl"
    else if d == "tavily-map" then "mcp:map"
    else if d == "tavily-research" then "mcp:research"
    else "mcp:unknown-payload"
  }

  lemma CasesAre(d: string)
    ensures CaseOf(d) == match TavilyKind(d) case Some(kind) => "mcp:" + kind case None => "mcp:unknown-payload"
  {
    McpNames();
  }

  lemma McpNames()
    ensures "mcp:" + "search" == "mcp:search" && "mcp:" + "extract" == "mcp:extract" && "mcp:" + "crawl" == "mcp:crawl"
    ensures "mcp:" + "map" == "mcp:map" && "mcp:" + "research" == "mcp:research"
  {
  }

  lemma EvalWhen(x: Expr, name: string, result: string, rest: Expr, row: Row, item: SqlValue, d: string)
    requires Eval(x, row, item) == Txt(d)
    ensures Eval(CaseWhen(Eq(x, TextLit(name)), TextLit(result), rest), row, item) == if d == name then Txt(result)
            else Eval(rest, row, item)
  {
    hide Eval;
    EvalColumns(row);
    EvalEqText(x, name, row, item, d);
    EvalCase(Eq(x, TextLit(name)), TextLit(result), rest, row, item);
  }

  lemma EvalCallKind(x: Expr, row: Row, item: SqlValue, m: string, t: string)
    requires Eval(MethodSql(x), row, item) == Txt(m) && Eval(ToolSql(x), row, item) == Txt(t)
    ensures Eval(CallKindSql(x), row, item) ==
            if m == "tools/call" then
              if t in TAVILY_TOOLS then Eval(TavilyCaseSql(ToolSql(x)), row, item)
              else Txt(if t != "" then "mcp:third-party-tool" else "mcp:unknown-payload")
            else if m != "" then Txt("mcp:unknown-method")
            else Nul
  {
    hide Eval, TAVILY_TOOLS, MethodSql, ToolSql, TavilyCaseSql;
    var isCall, isTavily, named := IsToolsCallSql(x), In(ToolSql(x), TAVILY_TOOLS), Ne(ToolSql(x), TextLit(""));
    EvalColumns(row);
    EvalEqText(MethodSql(x), "tools/call", row, item, m);
    EvalEqText(MethodSql(x), "", row, item, m);
    EvalEqText(ToolSql(x), "", row, item, t);
    EvalTextTests(ToolSql(x), TAVILY_TOOLS, "", row, item, t);
    var e4 := CaseWhen(Ne(MethodSql(x), TextLit("")), TextLit("mcp:unknown-method"), Lit(Nul));
    var e3 := CaseWhen(isCall, TextLit("mcp:unknown-payload"), e4);
    var e2 := CaseWhen(And(isCall, named), TextLit("mcp:third-party-tool"), e3);
    EvalCase(Ne(MethodSql(x), TextLit("")), TextLit("mcp:unknown-method"), Lit(Nul), row, item);
    EvalCase(isCall, TextLit("mcp:unknown-payload"), e4, row, item);
    EvalAnd(isCall, named, row, item);
    EvalCase(And(isCall, named), TextLit("mcp:third-party-tool"), e3, row, item);
    EvalAnd(isCall, isTavily, row, item);
    EvalCase(And(isCall, isTavily), TavilyCaseSql(ToolSql(x)), e2, row, item);
  }

  lemma EvalMessageCase(x: Expr, row: Row, item: SqlValue, m: string)
    requires Eval(MethodSql(x), row, item) == Txt(m) && Lower(m) == m
    ensures Eval(MessageKindSql(x), row, item) == if IsControlMethod(m) then Txt("mcp:" + m)
            else Eval(CallKindSql(x), row, item)
  {
    hide Eval, MethodSql, ToolSql, CallKindSql, CONTROL_METHODS, Lower;
    PrefixesAreLower();
    ControlMethodsAre(m);
    var x_ := MethodSql(x);
    var tagged := Concat(TextLit("mcp:"), x_);
    EvalTextTests(x_, CONTROL_METHODS, "resources/", row, item, m);
    EvalTextTests(x_, CONTROL_METHODS, "prompts/", row, item, m);
    EvalTextTests(x_, CONTROL_METHODS, "notifications/", row, item, m);
    var two := Or(Like(x_, "resources/"), Like(x_, "prompts/"));
    var three := Or(two, Like(x_, "notifications/"));
    EvalOr(Like(x_, "resources/"), Like(x_, "prompts/"), row, item);
    EvalOr(two, Like(x_, "notifications/"), row, item);
    EvalCase(three, tagged, CallKindSql(x), row, item);
    EvalCase(In(x_, CONTROL_METHODS), tagged, CaseWhen(three, tagged, CallKindSql(x)), row, item);
  }

  lemma ControlMethodsAre(m: string)
    ensures IsControlMethod(m) <==>
              m in CONTROL_METHODS || "resources/" <= m || "prompts/" <= m || "notifications/" <= m
  {
  }

  /** For one plain message the SQL gives the kind of the lowered message. */
  lemma MessageKindSqlMeaning(x: Expr, v: Value, row: Row, item: SqlValue)
    requires IsPlain(v) && Eval(x, row, item) == FromJson(v)
    ensures Eval(MessageKindSql(x), row, item) == CellOfKind(LoweredKind(v))
  {
    var m, t := RawText(v.Get("method")), RawTool(v);
    hide Eval, MethodSql, ToolSql, CallKindSql, MessageKindSql, IsControlMethod, TavilyCaseSql, TAVILY_TOOLS, Lower,
      Dashed;
    EvalMethod(x, v, row, item);
    EvalTool(x, v, row, item);
    LowerOfLower(m);
    EvalMessageCase(x, row, item, Lower(m));
    EvalCallKind(x, row, item, Lower(m), Lower(t));
    EvalTavilyCase(ToolSql(x), row, item, Lower(t));
    TrimIsIdempotent(t);
    ToolOfRaw(v);
    TavilySpellings(t);
    NormalizedTrimmed(t);
    CasesAre(Dashed(Lower(t)));
    NoEmptyTool();
    NoControlBlank();
    hide IsPlain, Trim, RawTool, RawText, TavilyKind, CaseOf, NormalizeTool;
  }

  lemma NormalizedTrimmed(t: string)
    requires Trim(t) == t
    ensures NormalizeTool(t) == Dashed(Lower(t))
  {
  }

  lemma NoControlBlank()
    ensures !IsControlMethod("") && !IsControlMethod("tools/call")
  {
    ControlIsNoCall("tools/call");
  }

  /** On one plain message the classifiers agree exactly unless it is miscased; they find a kind in the same messages.
      */
  lemma MessageKindAgrees(v: Value)
    requires IsPlain(v)
    ensures LoweredKind(v) == MessageKind(v) <==> !IsMiscased(v)
    ensures LoweredKind(v).None? <==> MethodOf(v).None?
    ensures MessageKind(v).None? <==> MethodOf(v).None?
  {
    var m := RawText(v.Get("method"));
    hide IsControlMethod, Lower, ToolKind, Lookup;
    TrimIsIdempotent(m);
    MethodOfRaw(v);
    NoEmptyTool();
    NoControlBlank();
    LowerOfCall();
    hide IsPlain, Trim;
    if m != "" {
      if IsControlMethod(m) {
        ControlStays(m);
        TaggedDiffer(m, Lower(m));
      } else if m != "tools/call" && Lower(m) == "tools/call" {
        ToolKindIsKnown(ToolOf(v));
      } else if IsControlMethod(Lower(m)) {
        ControlIsNamed(Lower(m));
      }
    }
  }

  lemma LowerOfCall()
    ensures Lower("tools/call") == "tools/call"
  {
  }

  lemma ControlStays(m: string)
    requires IsControlMethod(m)
    ensures IsControlMethod(Lower(m))
  {
    ControlStaysControl(m);
    ControlMethodsAre(Lower(m));
    hide Lower;
  }

  lemma TaggedDiffer(a: string, b: string)
    ensures "mcp:" + a == "mcp:" + b <==> a == b
  {
    assert ("mcp:" + a)[4..] == a && ("mcp:" + b)[4..] == b;
  }

  /** The key of a control method is that of no other message. */
  lemma ControlIsNamed(m: string)
    requires IsControlMethod(m)
    ensures "mcp:" + m !in {"mcp:unknown-method", "mcp:unknown-payload", "mcp:batch", "mcp:third-party-tool"}
  {
    hide IsControlMethod;
    ControlLetters(m);
    var u, w, x, y := "unknown-method", "unknown-payload", "batch", "third-party-tool";
    TaggedDiffer(m, u);
    TaggedDiffer(m, w);
    TaggedDiffer(m, x);
    TaggedDiffer(m, y);
    assert "mcp:" + u == "mcp:unknown-method" && "mcp:" + w == "mcp:unknown-payload" && "mcp:" + x == "mcp:batch";
    assert "mcp:" + y == "mcp:third-party-tool";
    assert u[0] == 'u' && w[0] == 'u' && x[0] == 'b' && y[0] == 't' && y[1] == 'h';
  }

  lemma ControlLetters(m: string)
    requires IsControlMethod(m)
    ensures |m| > 1 && m[0] in {'i', 'p', 't', 'r', 'n'} && (m[0] == 't' ==> m[1] == 'o')
  {
  }

  /** A tool call is filed under its tool, and as an unknown payload only without a tool name. */
  lemma ToolKindIsKnown(tool: Option<string>)
    ensures ToolKind(tool) !in {"mcp:unknown-method", "mcp:batch"}
    ensures ToolKind(tool) == "mcp:unknown-payload" <==> tool.None?
  {
    hide NormalizeTool;
    McpNames();
  }

  // ---- Batches ----------------------------------------------------------------------------------

  /** Two messages whose lowered kinds differ. */
  predicate HasTwoLoweredKinds(items: seq<Value>) {
    exists i, j :: 0 <= i < |items| && 0 <= j < |items| && LoweredKind(items[i]) != LoweredKind(items[j])
  }

  /** A tool call without a tool name. */
  predicate IsNamelessCall(v: Value) {
    MethodOf(v) == Some("tools/call") && ToolOf(v).None?
  }

  predicate HasMiscased(items: seq<Value>) {
    exists i :: 0 <= i < |items| && IsMiscased(items[i])
  }

  function KindCells(items: seq<Value>): (cells: seq<SqlValue>)
    ensures |cells| == |items| && forall i :: 0 <= i < |items| ==> cells[i] == CellOfKind(LoweredKind(items[i]))
  {
    seq(|items|, i requires 0 <= i < |items| => CellOfKind(LoweredKind(items[i])))
  }

  lemma {:induction false} LeastOfEqual(values: seq<SqlValue>, s: string)
    requires values != [] && forall i :: 0 <= i < |values| ==> values[i] == Txt(s)
    ensures Least(values) == Txt(s)
  {
    if |values| > 1 { LeastOfEqual(values[..|values| - 1], s); }
  }

  /** One distinct value among texts means that all are equal. */
  lemma OneDistinct(values: seq<SqlValue>)
    requires values != [] && forall i :: 0 <= i < |values| ==> values[i].Txt?
    ensures |NonNull(values)| == 1 <==> forall i :: 0 <= i < |values| ==> values[i] == values[0]
  {
    var all := NonNull(values);
    assert forall i :: 0 <= i < |values| ==> values[i] in all;
    if |all| == 1 {
      var rest := all - {values[0]};
      assert |rest| == 0;
      assert forall i :: 0 <= i < |values| ==> values[i] !in rest;
    }
    if forall i :: 0 <= i < |values| ==> values[i] == values[0] {
      assert all == {values[0]};
    }
  }

  /** What the SQL makes of a batch. */
  function BatchKind(items: seq<Value>): string {
    if items == [] || HasMethodless(items) || LoweredKind(items[0]).None? then "mcp:unknown-payload"
    else if HasTwoLoweredKinds(items) then "mcp:batch"
    else LoweredKind(items[0]).value
  }

  lemma EvalCountDistinct(x: Expr, of: Expr, row: Row, item: SqlValue, items: seq<Value>, cells: seq<SqlValue>)
    requires Eval(x, row, item) == Doc(Array(items)) && |cells| == |items|
    requires forall i :: 0 <= i < |items| ==> Eval(of, row, FromJson(items[i])) == cells[i]
    ensures Eval(CountDistinct(x, of), row, item) == Int(|NonNull(cells)|)
  {
    assert ItemValues(of, row, items) == cells;
    hide NonNull;
  }

  lemma EvalMinOver(x: Expr, of: Expr, row: Row, item: SqlValue, items: seq<Value>, cells: seq<SqlValue>)
    requires Eval(x, row, item) == Doc(Array(items)) && |cells| == |items|
    requires forall i :: 0 <= i < |items| ==> Eval(of, row, FromJson(items[i])) == cells[i]
    ensures Eval(MinOver(x, of), row, item) == Least(cells)
  {
    assert ItemValues(of, row, items) == cells;
    hide Least;
  }

  lemma EvalIsNull(x: Expr, row: Row, item: SqlValue)
    ensures IsTrue(Eval(IsNull(x), row, item)) <==> Eval(x, row, item).Nul?
  {
  }

  lemma EvalCountIsOne(x: Expr, row: Row, item: SqlValue, n: nat)
    requires Eval(x, row, item) == Int(n)
    ensures IsTrue(Eval(Eq(x, Lit(Int(1))), row, item)) <==> n == 1
  {
    assert Eval(Lit(Int(1)), row, item) == Int(1);
  }

  lemma EvalBatchKind(x: Expr, row: Row, item: SqlValue, items: seq<Value>)
    requires Eval(x, row, item) == Doc(Array(items)) && forall i :: 0 <= i < |items| ==> IsPlain(items[i])
    ensures Eval(BatchKindSql(x), row, item) == Txt(BatchKind(items))
  {
    hide Eval, IsPlain, MessageKindSql, LoweredKind, Least, NonNull, IsMiscased, MessageKind, HasTwoLoweredKinds;
    var kind, cells := MessageKindSql(ItemValue), KindCells(items);
    forall i | 0 <= i < |items|
      ensures Eval(kind, row, FromJson(items[i])) == cells[i]
      ensures IsTrue(Eval(IsNull(kind), row, FromJson(items[i]))) <==> MethodOf(items[i]).None?
      ensures LoweredKind(items[i]).None? <==> MethodOf(items[i]).None?
      ensures IsTrue(Eval(Lit(Int(1)), row, FromJson(items[i])))
    {
      EvalField(ItemValue, "", row, FromJson(items[i]));
      MessageKindSqlMeaning(ItemValue, items[i], row, FromJson(items[i]));
      MessageKindAgrees(items[i]);
      EvalIsNull(kind, row, FromJson(items[i]));
      EvalOne(row, FromJson(items[i]));
    }
    EvalColumns(row);
    EvalExists(x, Lit(Int(1)), row, item, items);
    EvalExists(x, IsNull(kind), row, item, items);
    EvalCountDistinct(x, kind, row, item, items, cells);
    EvalMinOver(x, kind, row, item, items, cells);
    EvalCountIsOne(CountDistinct(x, kind), row, item, |NonNull(cells)|);
    var some, unclear := ExistsItem(x, Lit(Int(1))), ExistsItem(x, IsNull(kind));
    var rest := CaseWhen(Eq(CountDistinct(x, kind), Lit(Int(1))), MinOver(x, kind), TextLit("mcp:batch"));
    EvalNot(some, row, item);
    EvalCase(Eq(CountDistinct(x, kind), Lit(Int(1))), MinOver(x, kind), TextLit("mcp:batch"), row, item);
    EvalCase(unclear, TextLit("mcp:unknown-payload"), rest, row, item);
    EvalCase(Not(some), TextLit("mcp:unknown-payload"), CaseWhen(unclear, TextLit("mcp:unknown-payload"), rest), row,
             item);
    if items != [] {
      assert IsTrue(Eval(Lit(Int(1)), row, FromJson(items[0])));
      assert IsTrue(Eval(unclear, row, item)) <==> HasMethodless(items);
      if !HasMethodless(items) { AggregatesAre(items, cells); }
    }
  }

  lemma AggregatesAre(items: seq<Value>, cells: seq<SqlValue>)
    requires items != [] && cells == KindCells(items) && forall i :: 0 <= i < |items| ==> LoweredKind(items[i]).Some?
    ensures |NonNull(cells)| == 1 <==> !HasTwoLoweredKinds(items)
    ensures !HasTwoLoweredKinds(items) ==> Least(cells) == CellOfKind(LoweredKind(items[0]))
  {
    hide LoweredKind, Least, NonNull;
    OneDistinct(cells);
    if forall i :: 0 <= i < |cells| ==> cells[i] == cells[0] {
      forall i, j | 0 <= i < |items| && 0 <= j < |items| ensures LoweredKind(items[i]) == LoweredKind(items[j]) {
        assert cells[i] == cells[0] && cells[j] == cells[0];
      }
      LeastOfEqual(cells, cells[0].s);
    } else {
      var i :| 0 <= i < |cells| && cells[i] != cells[0];
      assert LoweredKind(items[i]) != LoweredKind(items[0]);
    }
  }

  // ---- The stored log ---------------------------------------------------------------------------

  /** A log of a request to `/mcp` whose JSON body is a plain message or a batch of such. */
  predicate IsPlainLog(row: Row, v: Value) {
    && row.path == Txt("/mcp") && row.body == Doc(v)
    && (v.Object? || v.Array?)
    && (v.Object? ==> IsPlain(v))
    && (v.Array? ==> forall i :: 0 <= i < |v.items| ==> IsPlain(v.items[i]))
  }

  lemma EvalPathTests(row: Row, v: Value)
    requires row.path == Txt("/mcp") && row.body == Doc(v)
    ensures IsTrue(Eval(Eq(LowerOf(Coalesce(Col(RequestPath), TextLit(""))), TextLit("/mcp")), row, Nul))
    ensures IsTrue(Eval(JsonValid(Col(RequestBody)), row, Nul))
    ensures IsTrue(Eval(JsonIsObject(Col(RequestBody)), row, Nul)) <==> v.Object?
    ensures IsTrue(Eval(JsonIsArray(Col(RequestBody)), row, Nul)) <==> v.Array?
    ensures Eval(Col(RequestBody), row, Nul) == Doc(v)
  {
    hide Eval;
    EvalColumns(row);
    EvalPath(row);
    EvalEqText(LowerOf(Coalesce(Col(RequestPath), TextLit(""))), "/mcp", row, Nul, "/mcp");
    EvalJsonTests(Col(RequestBody), row, Nul, Parsed(v));
    EvalIsObject(Col(RequestBody), row, v);
  }

  lemma EvalIsObject(x: Expr, row: Row, v: Value)
    requires Eval(x, row, Nul) == Doc(v)
    ensures IsTrue(Eval(JsonIsObject(x), row, Nul)) <==> v.Object?
  {
  }

  lemma EvalPath(row: Row)
    requires row.path == Txt("/mcp")
    ensures Eval(LowerOf(Coalesce(Col(RequestPath), TextLit(""))), row, Nul) == Txt("/mcp")
  {
    hide Eval;
    EvalColumns(row);
    EvalCoalesce(Col(RequestPath), TextLit(""), row, Nul);
    EvalLower(Coalesce(Col(RequestPath), TextLit("")), row, Nul);
    assert Lower("/mcp") == "/mcp";
  }

  /** What the generated expression makes of a plain log. */
  lemma LogKindSqlMeaning(row: Row, v: Value, stored: Expr)
    requires IsPlainLog(row, v)
    ensures Eval(LogKindSql(Col(RequestBody), stored), row, Nul) ==
            Txt(if v.Object? then LoweredKind(v).GetOr("mcp:unknown-payload") else BatchKind(v.items))
  {
    hide Eval, MessageKindSql, BatchKindSql, IsPlain, LoweredKind, BatchKind;
    var body := Col(RequestBody);
    var isMcp := Eq(LowerOf(Coalesce(Col(RequestPath), TextLit(""))), TextLit("/mcp"));
    var ofObject, ofArray := Coalesce(MessageKindSql(body), TextLit("mcp:unknown-payload")), BatchKindSql(body);
    EvalColumns(row);
    EvalPathTests(row, v);
    EvalAnd(isMcp, JsonValid(body), row, Nul);
    EvalAnd(And(isMcp, JsonValid(body)), JsonIsObject(body), row, Nul);
    EvalAnd(And(isMcp, JsonValid(body)), JsonIsArray(body), row, Nul);
    EvalCase(And(And(isMcp, JsonValid(body)), JsonIsArray(body)), ofArray, stored, row, Nul);
    EvalCase(And(And(isMcp, JsonValid(body)), JsonIsObject(body)), ofObject,
             CaseWhen(And(And(isMcp, JsonValid(body)), JsonIsArray(body)), ofArray, stored), row, Nul);
    EvalCoalesce(MessageKindSql(body), TextLit("mcp:unknown-payload"), row, Nul);
    if v.Object? {
      MessageKindSqlMeaning(body, v, row, Nul);
    } else {
      EvalBatchKind(body, row, Nul, v.items);
    }
  }

  /** The logs that are filed alike. A single message: one that is not miscased. A batch with a message without a
      method: if every other message is a tool call without a tool name. Any other batch: if none is miscased, or
      the messages as they stand and the lowered ones both are of several kinds. */
  predicate IsFiledAlike(v: Value) {
    match v
    case Array(items) =>
      if HasMethodless(items) then forall i :: 0 <= i < |items| ==> MethodOf(items[i]).None? || IsNamelessCall(items[i])
      else !HasMiscased(items) || (HasTwoKinds(items) && HasTwoLoweredKinds(items))
    case _ => !IsMiscased(v)
  }

  /** The SQL and the code file a plain log under the same kind exactly in these cases. */
  lemma LogKindSqlAgrees(row: Row, v: Value, stored: Expr)
    requires IsPlainLog(row, v)
    ensures Eval(LogKindSql(Col(RequestBody), stored), row, Nul) == Txt(McpKind("/mcp", Parsed(v))) <==> IsFiledAlike(v)
  {
    hide Eval, LogKindSql, IsPlain, MessageKind, LoweredKind, IsMiscased, Kinds, AllEqual, BatchKind, HasMethodless;
    LogKindSqlMeaning(row, v, stored);
    if v.Object? {
      SingleAgrees(v);
    } else {
      BatchAgrees(v.items);
    }
  }

  lemma SingleAgrees(v: Value)
    requires v.Object? && IsPlain(v)
    ensures LoweredKind(v).GetOr("mcp:unknown-payload") == McpKind("/mcp", Parsed(v)) <==> !IsMiscased(v)
  {
    hide IsPlain, MessageKind, LoweredKind, IsMiscased;
    MessageKindAgrees(v);
    if LoweredKind(v).Some? && IsMiscased(v) {
      assert LoweredKind(v) != MessageKind(v);
    }
  }

  lemma BatchAgrees(items: seq<Value>)
    requires forall i :: 0 <= i < |items| ==> IsPlain(items[i])
    ensures BatchKind(items) == McpKind("/mcp", Parsed(Array(items))) <==> IsFiledAlike(Array(items))
  {
    hide IsPlain, MessageKind, LoweredKind, IsMiscased, Kinds, AllEqual, IsNamelessCall;
    if HasMethodless(items) {
      MethodlessAgrees(items);
    } else {
      ClassifiableAgrees(items);
    }
  }

  lemma MethodlessAgrees(items: seq<Value>)
    requires HasMethodless(items)
    ensures McpKind("/mcp", Parsed(Array(items))) == "mcp:unknown-payload" <==>
            forall i :: 0 <= i < |items| ==> MethodOf(items[i]).None? || IsNamelessCall(items[i])
  {
    hide MessageKind, Kinds, IsNamelessCall;
    var kinds := Kinds(items);
    KindsAre(items);
    KindsAreEqual(items);
    hide AllEqual, HasTwoKinds;
    forall i | 0 <= i < |items|
      ensures MessageKind(items[i]).None? <==> MethodOf(items[i]).None?
      ensures MessageKind(items[i]) == Some("mcp:unknown-payload") <==> IsNamelessCall(items[i])
    {
      UnknownPayloadIsNameless(items[i]);
    }
    if forall i :: 0 <= i < |items| ==> MethodOf(items[i]).None? || IsNamelessCall(items[i]) {
      OnlyNameless(items);
    } else {
      var i :| 0 <= i < |items| && MethodOf(items[i]).Some? && !IsNamelessCall(items[i]);
      OneNamed(items, i);
    }
  }

  lemma OnlyNameless(items: seq<Value>)
    requires forall i :: 0 <= i < |items| && MessageKind(items[i]).Some? ==>
             MessageKind(items[i]) == Some("mcp:unknown-payload")
    ensures McpKind("/mcp", Parsed(Array(items))) == "mcp:unknown-payload"
  {
    hide MessageKind, Kinds;
    KindsAre(items);
    var kinds := Kinds(items);
    forall k | 0 <= k < |kinds| ensures kinds[k] == "mcp:unknown-payload" {
      assert kinds[k] in kinds;
    }
  }

  lemma OneNamed(items: seq<Value>, i: nat)
    requires i < |items| && MessageKind(items[i]).Some? && MessageKind(items[i]) != Some("mcp:unknown-payload")
    ensures McpKind("/mcp", Parsed(Array(items))) != "mcp:unknown-payload"
  {
    hide MessageKind, Kinds;
    KindsAre(items);
    var kinds := Kinds(items);
    assert MessageKind(items[i]).value in kinds;
  }

  lemma UnknownPayloadIsNameless(v: Value)
    ensures MessageKind(v).None? <==> MethodOf(v).None?
    ensures MessageKind(v) == Some("mcp:unknown-payload") <==> IsNamelessCall(v)
    ensures MessageKind(v) != Some("mcp:batch")
  {
    hide IsControlMethod, ToolKind;
    NoControlBlank();
    ToolKindIsKnown(ToolOf(v));
    if MethodOf(v).Some? && IsControlMethod(MethodOf(v).value) { ControlIsNamed(MethodOf(v).value); }
  }

  lemma LoweredIsNoBatch(v: Value)
    ensures LoweredKind(v) != Some("mcp:batch")
  {
    hide IsControlMethod, ToolKind, Lower;
    ToolKindIsKnown(ToolOf(v));
    var m := Lower(RawText(v.Get("method")));
    if IsControlMethod(m) { ControlIsNamed(m); }
  }

  lemma ClassifiableAgrees(items: seq<Value>)
    requires !HasMethodless(items) && forall i :: 0 <= i < |items| ==> IsPlain(items[i])
    ensures BatchKind(items) == McpKind("/mcp", Parsed(Array(items))) <==>
            !HasMiscased(items) || (HasTwoKinds(items) && HasTwoLoweredKinds(items))
  {
    hide IsPlain, MessageKind, LoweredKind, IsMiscased, Kinds;
    forall i | 0 <= i < |items|
      ensures MessageKind(items[i]).Some? && LoweredKind(items[i]).Some?
      ensures LoweredKind(items[i]) == MessageKind(items[i]) <==> !IsMiscased(items[i])
      ensures MessageKind(items[i]) != Some("mcp:batch") && LoweredKind(items[i]) != Some("mcp:batch")
    {
      MessageKindAgrees(items[i]);
      UnknownPayloadIsNameless(items[i]);
      LoweredIsNoBatch(items[i]);
    }
    if items == [] {
      NoKinds(items);
    } else {
      CodeKind(items);
      hide McpKind;
      if !HasTwoKinds(items) && !HasTwoLoweredKinds(items) && HasMiscased(items) {
        var i :| 0 <= i < |items| && IsMiscased(items[i]);
        assert LoweredKind(items[i]) == LoweredKind(items[0]) && MessageKind(items[i]) == MessageKind(items[0]);
      }
      if !HasMiscased(items) {
        assert forall i :: 0 <= i < |items| ==> LoweredKind(items[i]) == MessageKind(items[i]);
      }
    }
  }

  lemma CodeKind(items: seq<Value>)
    requires items != [] && forall i :: 0 <= i < |items| ==> MessageKind(items[i]).Some?
    ensures McpKind("/mcp", Parsed(Array(items))) == if HasTwoKinds(items) then "mcp:batch"
            else MessageKind(items[0]).value
  {
    hide MessageKind, Kinds;
    var kinds := Kinds(items);
    KindsAre(items);
    KindsAreEqual(items);
    assert MessageKind(items[0]).value in kinds;
    hide HasTwoKinds;
    if AllEqual(kinds) {
      var a :| 0 <= a < |kinds| && kinds[a] == MessageKind(items[0]).value;
    }
  }

  lemma NoKinds(items: seq<Value>)
    ensures items == [] ==> Kinds(items) == []
  {
  }

  // ---- Logs that are filed differently ----------------------------------------------------------

  /** A batch of a ping and a message without a method. */
  lemma MixedBatchParts(row: Row, stored: Expr)
    requires var v := Array([Object([Field("method", String("ping"))]), Object([])]);
             row.path == Txt("/mcp") && row.body == Doc(v)
    ensures Eval(LogKindSql(Col(RequestBody), stored), row, Nul) == Txt("mcp:unknown-payload")
    ensures McpKind("/mcp", Parsed(row.body.json)) == "mcp:ping"
  {
    hide Eval, LogKindSql, MessageKind, LoweredKind, IsPlain, McpKind, BatchKind;
    var ping, blank := Object([Field("method", String("ping"))]), Object([]);
    var items := [ping, blank];
    assert row.body.json == Array(items);
    PingKind(ping, "ping");
    BlankKind(blank);
    KindsOfPing(ping, blank);
    LogKindSqlMeaning(row, Array(items), stored);
  }

  /** A ping in capitals. */
  lemma MiscasedPingParts(row: Row, stored: Expr)
    requires row.path == Txt("/mcp") && row.body == Doc(Object([Field("method", String("PING"))]))
    ensures Eval(LogKindSql(Col(RequestBody), stored), row, Nul) == Txt("mcp:ping")
    ensures McpKind("/mcp", Parsed(row.body.json)) == "mcp:unknown-method"
  {
    hide Eval, LogKindSql, MessageKind, LoweredKind, IsPlain;
    PingKind(row.body.json, "PING");
    LogKindSqlMeaning(row, row.body.json, stored);
  }

  lemma KindsOfPing(ping: Value, blank: Value)
    requires MessageKind(ping) == Some("mcp:ping") && MessageKind(blank).None? && MethodOf(blank).None?
    ensures BatchKind([ping, blank]) == "mcp:unknown-payload"
    ensures McpKind("/mcp", Parsed(Array([ping, blank]))) == "mcp:ping"
  {
    hide MessageKind, LoweredKind;
    var items := [ping, blank];
    assert items[1] == blank && items[..1] == [ping] && [ping][..0] == [];
    assert Kinds([ping]) == ["mcp:ping"];
    assert Kinds(items) == ["mcp:ping"];
  }

  lemma PingKind(v: Value, m: string)
    requires v == Object([Field("method", String(m))]) && (m == "ping" || m == "PING")
    ensures IsPlain(v) && LoweredKind(v) == Some("mcp:ping")
    ensures MessageKind(v) == Some(if m == "ping" then "mcp:ping" else "mcp:unknown-method")
  {
    assert v.Get("method") == Some(String(m));
    assert v.fields[1..] == [] && "method"[0] == 'm' && "params"[0] == 'p';
    assert v.Get("params").None?;
    PingWords(m);
    TrimIsIdempotent(m);
    hide Trim, Lookup, Lower, IsControlMethod;
    assert RawText(v.Get("method")) == m && RawTool(v) == "";
    assert v.GetText("method") == Some(m);
    assert MethodOf(v) == Some(m);
  }

  lemma PingWords(m: string)
    requires m == "ping" || m == "PING"
    ensures Trimmed(m) && Lower(m) == "ping" && "mcp:" + "ping" == "mcp:ping"
    ensures IsControlMethod("ping") && (IsControlMethod(m) <==> m == "ping") && m != "tools/call"
  {
    assert m[0] == (if m == "ping" then 'p' else 'P') && m[3] == (if m == "ping" then 'g' else 'G');
    assert "tools/call"[0] == 't' && "tools/list"[0] == 't' && "initialize"[0] == 'i';
    assert "resources/"[0] == 'r' && "prompts/"[0] == 'p' && "notifications/"[0] == 'n';
  }

  lemma BlankKind(v: Value)
    requires v == Object([])
    ensures IsPlain(v) && MessageKind(v).None? && MethodOf(v).None?
  {
    assert v.Get("method").None? && v.Get("params").None?;
  }
}
