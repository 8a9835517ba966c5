/** The generated SQL classifier and the classifier in code agree on every stored request log. */
module SqlTwin {
  import opened Wrappers
  import opened Json
  import opened Text
  import opened RequestKinds
  import opened Sql
  import opened OperationalClass
  import opened KindKeys

  // ---- Texts ------------------------------------------------------------------------------------

  lemma LowerOfLower(s: string)
    ensures Lower(Lower(s)) == Lower(s)
  {
  }

  /** For a text in lower case LIKE is the plain prefix test. */
  lemma LikeIsPrefix(s: string, prefix: string)
    requires Lower(s) == s && Lower(prefix) == prefix
    ensures HasPrefixIgnoringCase(s, prefix) <==> prefix <= s
  {
    if |prefix| <= |s| {
      assert Lower(s[..|prefix|]) == Lower(s)[..|prefix|];
    }
  }

  lemma TrimmedIsSpaceTrimmed(s: string)
    requires Trimmed(s)
    ensures TrimSpacesEnd(TrimSpacesStart(s)) == s
  {
  }

  /** Evaluates `LOWER(COALESCE(NULLIF(x, ''), ''))` for an extracted text or NULL. */
  lemma EvalBodyText(x: Expr, row: Row, item: SqlValue)
    requires Eval(x, row, item).Nul? || Eval(x, row, item).Txt?
    ensures Eval(BodyText(x), row, item) == Txt(if Eval(x, row, item).Txt? then Lower(Eval(x, row, item).s) else "")
  {
    hide Eval;
    EvalLit(Txt(""), row, item);
    EvalNullIf(x, TextLit(""), row, item);
    EvalCoalesce(NullIf(x, TextLit("")), TextLit(""), row, item);
    EvalLower(Coalesce(NullIf(x, TextLit("")), TextLit("")), row, item);
    assert Lower("") == "";
  }

  lemma EvalNormalized(x: Expr, row: Row, item: SqlValue, s: string)
    requires Eval(x, row, item) == Txt(s) && Trimmed(s)
    ensures Eval(Normalized(x), row, item) == Txt(Lower(s))
  {
    hide Eval;
    TrimmedIsSpaceTrimmed(s);
    EvalCoalesce(x, TextLit(""), row, item);
    EvalTrim(Coalesce(x, TextLit("")), row, item, s);
    EvalLower(TrimOf(Coalesce(x, TextLit(""))), row, item);
  }

  // ---- One message ------------------------------------------------------------------------------

  /** A field that is missing, null or a text. */
  predicate IsTextOrMissing(v: Option<Value>) {
    v.None? || v.value.Null? || v.value.String?
  }

  /** A batch item, other than a text, whose method and tool name are texts, if present, without surrounding
      blanks. */
  predicate IsPlain(v: Value) {
    && !v.String?
    && IsTextOrMissing(v.Get("method"))
    && (v.Get("params").Some? ==> IsTextOrMissing(v.Get("params").value.Get("name")))
    && Trimmed(RawText(v.Get("method")))
    && Trimmed(RawTool(v))
  }

  /** A call of a Tavily tool whose method is `tools/call` in other letters: an unknown method for the code,
      a billable call for the SQL, which lowers the method first. */
  predicate IsMiscasedCall(v: Value) {
    && Lower(RawText(v.Get("method"))) == "tools/call"
    && RawText(v.Get("method")) != "tools/call"
    && Lower(RawTool(v)) in TAVILY_TOOLS
  }

  function RawText(v: Option<Value>): string {
    if v.Some? && v.value.String? then v.value.text else ""
  }

  function RawTool(v: Value): string {
    if v.Get("params").Some? then RawText(v.Get("params").value.Get("name")) else ""
  }

  lemma EvalField(x: Expr, field: string, row: Row, item: SqlValue)
    ensures Eval(JsonField(x, field), row, item) == Field3(Eval(x, row, item), field)
    ensures Eval(ItemValue, row, item) == item
  {
  }

  lemma FieldAsText(v: Value, field: string)
    requires IsTextOrMissing(v.Get(field))
    ensures Field3(FromJson(v), field) == if v.Get(field).Some? &&
            v.Get(field).value.String? then Txt(RawText(v.Get(field))) else Nul
  {
  }

  lemma EvalMethod(x: Expr, v: Value, row: Row, item: SqlValue)
    requires IsPlain(v) && Eval(x, row, item) == FromJson(v)
    ensures Eval(MethodSql(x), row, item) == Txt(Lower(RawText(v.Get("method"))))
  {
    EvalField(x, "method", row, item);
    FieldAsText(v, "method");
    hide Eval, Lookup;
    EvalBodyText(JsonField(x, "method"), row, item);
    assert Lower("") == "";
  }

  lemma EvalTool(x: Expr, v: Value, row: Row, item: SqlValue)
    requires IsPlain(v) && Eval(x, row, item) == FromJson(v)
    ensures Eval(ToolSql(x), row, item) == Txt(Lower(RawTool(v)))
  {
    EvalField(x, "params", row, item);
    EvalField(JsonField(x, "params"), "name", row, item);
    hide Eval, Lookup;
    var params := v.Get("params");
    if params.Some? { FieldAsText(params.value, "name"); }
    EvalBodyText(JsonField(JsonField(x, "params"), "name"), row, item);
    assert Lower("") == "";
  }

  /** What the generated CASE makes of a method and a tool name in lower case. */
  function KindOf(m: string, t: string): SqlValue {
    if m in CONTROL_METHODS || "resources/" <= m || "prompts/" <= m || "notifications/" <= m then Txt("mcp:" + m)
    else if m == "tools/call" then
      if t in TAVILY_TOOLS then Nul else Txt(if t != "" then "mcp:third-party-tool" else "mcp:unknown-payload")
    else if m != "" then Txt("mcp:unknown-method")
    else Nul
  }

  lemma EvalToolCallKind(x: Expr, row: Row, item: SqlValue, m: string, t: string)
    requires Eval(MethodSql(x), row, item) == Txt(m) && Eval(ToolSql(x), row, item) == Txt(t)
    ensures Eval(ToolCallKindSql(x), row, item) ==
            if m == "tools/call" then
              if t in TAVILY_TOOLS then Nul else Txt(if t != "" then "mcp:third-party-tool" else "mcp:unknown-payload")
            else if m != "" then Txt("mcp:unknown-method")
            else Nul
  {
    hide Eval, TAVILY_TOOLS, MethodSql, ToolSql;
    var isCall, isTavily := IsToolsCallSql(x), In(ToolSql(x), TAVILY_TOOLS);
    EvalEqText(MethodSql(x), "tools/call", row, item, m);
    EvalEqText(MethodSql(x), "", row, item, m);
    EvalEqText(ToolSql(x), "", row, item, t);
    EvalTextTests(ToolSql(x), TAVILY_TOOLS, "", row, item, t);
    EvalColumns(row);
    var e4 := CaseWhen(Ne(MethodSql(x), TextLit("")), TextLit("mcp:unknown-method"), Lit(Nul));
    EvalCase(Ne(MethodSql(x), TextLit("")), TextLit("mcp:unknown-method"), Lit(Nul), row, item);
    var e3 := CaseWhen(isCall, TextLit("mcp:unknown-payload"), e4);
    EvalCase(isCall, TextLit("mcp:unknown-payload"), e4, row, item);
    var named := And(isCall, Ne(ToolSql(x), TextLit("")));
    EvalAnd(isCall, Ne(ToolSql(x), TextLit("")), row, item);
    EvalAnd(named, Not(isTavily), row, item);
    EvalNot(isTavily, row, item);
    var e2 := CaseWhen(And(named, Not(isTavily)), TextLit("mcp:third-party-tool"), e3);
    EvalCase(And(named, Not(isTavily)), TextLit("mcp:third-party-tool"), e3, row, item);
    EvalAnd(isCall, isTavily, row, item);
    EvalCase(And(isCall, isTavily), Lit(Nul), e2, row, item);
  }

  // ---- One node at a time -----------------------------------------------------------------------

  lemma EvalLit(v: SqlValue, row: Row, item: SqlValue)
    ensures Eval(Lit(v), row, item) == v
  {
  }

  lemma EvalCoalesce(a: Expr, b: Expr, row: Row, item: SqlValue)
    ensures Eval(Coalesce(a, b), row, item) == if Eval(a, row, item).Nul? then Eval(b, row, item)
            else Eval(a, row, item)
  {
  }

  lemma EvalNullIf(a: Expr, b: Expr, row: Row, item: SqlValue)
    ensures Eval(NullIf(a, b), row, item) ==
            if IsTrue(Eq3(Eval(a, row, item), Eval(b, row, item))) then Nul else Eval(a, row, item)
  {
    hide Eq3;
  }

  lemma EvalLower(a: Expr, row: Row, item: SqlValue)
    ensures var v := Eval(a, row, item); Eval(LowerOf(a), row, item) == if v.Txt? then Txt(Lower(v.s)) else v
  {
  }

  lemma EvalTrim(a: Expr, row: Row, item: SqlValue, s: string)
    requires Eval(a, row, item) == Txt(s)
    ensures Eval(TrimOf(a), row, item) == Txt(TrimSpacesEnd(TrimSpacesStart(s)))
  {
  }

  lemma EvalEq(a: Expr, b: Expr, row: Row, item: SqlValue)
    ensures Eval(Eq(a, b), row, item) == Eq3(Eval(a, row, item), Eval(b, row, item))
  {
    hide Eq3;
  }

  lemma EvalNe(a: Expr, b: Expr, row: Row, item: SqlValue)
    ensures Eval(Ne(a, b), row, item) == Not3(Eq3(Eval(a, row, item), Eval(b, row, item)))
  {
    hide Eq3, Not3;
  }

  lemma EvalEqText(x: Expr, s: string, row: Row, item: SqlValue, v: string)
    requires Eval(x, row, item) == Txt(v)
    ensures Eval(Eq(x, TextLit(s)), row, item) == Truth(v == s)
    ensures Eval(Ne(x, TextLit(s)), row, item) == Truth(v != s)
    ensures Eval(TextLit(s), row, item) == Txt(s)
  {
    hide Eval;
    EvalLit(Txt(s), row, item);
    EvalEq(x, TextLit(s), row, item);
    EvalNe(x, TextLit(s), row, item);
  }

  lemma EvalCase(a: Expr, b: Expr, c: Expr, row: Row, item: SqlValue)
    ensures Eval(CaseWhen(a, b, c), row, item) == if IsTrue(Eval(a, row, item)) then Eval(b, row, item)
            else Eval(c, row, item)
  {
  }

  lemma EvalAnd(a: Expr, b: Expr, row: Row, item: SqlValue)
    ensures Eval(And(a, b), row, item) == And3(Eval(a, row, item), Eval(b, row, item))
  {
    hide And3;
  }

  lemma EvalOr(a: Expr, b: Expr, row: Row, item: SqlValue)
    ensures Eval(Or(a, b), row, item) == Or3(Eval(a, row, item), Eval(b, row, item))
  {
    hide Or3;
  }

  lemma EvalNot(a: Expr, row: Row, item: SqlValue)
    ensures Eval(Not(a), row, item) == Not3(Eval(a, row, item))
  {
    hide Not3;
  }

  lemma EvalInList(x: Expr, list: seq<string>, row: Row, item: SqlValue, v: string)
    requires Eval(x, row, item) == Txt(v)
    ensures Eval(In(x, list), row, item) == Truth(v in list)
  {
  }

  lemma EvalLike(x: Expr, prefix: string, row: Row, item: SqlValue, v: string)
    requires Eval(x, row, item) == Txt(v)
    ensures Eval(Like(x, prefix), row, item) == Truth(HasPrefixIgnoringCase(v, prefix))
  {
  }

  lemma EvalTagged(x: Expr, row: Row, item: SqlValue, v: string)
    requires Eval(x, row, item) == Txt(v) && Eval(TextLit("mcp:"), row, item) == Txt("mcp:")
    ensures Eval(Concat(TextLit("mcp:"), x), row, item) == Txt("mcp:" + v)
  {
  }

  lemma EvalTextTests(x: Expr, list: seq<string>, prefix: string, row: Row, item: SqlValue, v: string)
    requires Eval(x, row, item) == Txt(v)
    ensures Eval(In(x, list), row, item) == Truth(v in list)
    ensures Lower(v) == v && Lower(prefix) == prefix ==> Eval(Like(x, prefix), row, item) == Truth(prefix <= v)
    ensures Eval(Concat(TextLit("mcp:"), x), row, item) == Txt("mcp:" + v)
  {
    hide Eval, Lower;
    EvalInList(x, list, row, item, v);
    EvalLike(x, prefix, row, item, v);
    EvalLit(Txt("mcp:"), row, item);
    EvalTagged(x, row, item, v);
    if Lower(v) == v && Lower(prefix) == prefix { LikeIsPrefix(v, prefix); }
  }

  lemma PrefixesAreLower()
    ensures Lower("resources/") == "resources/" && Lower("prompts/") == "prompts/" &&
            Lower("notifications/") == "notifications/"
  {
  }

  lemma EvalKind(x: Expr, row: Row, item: SqlValue, m: string, t: string)
    requires Eval(MethodSql(x), row, item) == Txt(m) && Eval(ToolSql(x), row, item) == Txt(t)
    requires Lower(m) == m
    ensures Eval(NonBillableKindSql(x), row, item) == KindOf(m, t)
  {
    hide Eval, MethodSql, ToolSql, ToolCallKindSql, TAVILY_TOOLS, CONTROL_METHODS, Lower;
    PrefixesAreLower();
    var method_ := MethodSql(x);
    var tagged := Concat(TextLit("mcp:"), method_);
    EvalTextTests(method_, CONTROL_METHODS, "resources/", row, item, m);
    EvalTextTests(method_, CONTROL_METHODS, "prompts/", row, item, m);
    EvalTextTests(method_, CONTROL_METHODS, "notifications/", row, item, m);
    EvalToolCallKind(x, row, item, m, t);
    var two := Or(Like(method_, "resources/"), Like(method_, "prompts/"));
    var three := Or(two, Like(method_, "notifications/"));
    EvalOr(Like(method_, "resources/"), Like(method_, "prompts/"), row, item);
    EvalOr(two, Like(method_, "notifications/"), row, item);
    EvalCase(three, tagged, ToolCallKindSql(x), row, item);
    EvalCase(In(method_, CONTROL_METHODS), tagged, CaseWhen(three, tagged, ToolCallKindSql(x)), row, item);
  }

  // ---- The kind of a message in code and in SQL -------------------------------------------------

  lemma LowerKeepsPrefix(p: string, s: string)
    requires Lower(p) == p && p <= s
    ensures p <= Lower(s)
  {
    assert Lower(s)[..|p|] == Lower(s[..|p|]);
  }

  /** A name with one dash is matched, dashed, by itself and by its spelling with an underscore. */
  lemma DashedSpellings(x: string, name: string, under: string, k: nat)
    requires k < |name| && name[k] == '-' && under == name[k := '_']
    requires forall i :: 0 <= i < |name| && i != k ==> name[i] != '-' && name[i] != '_'
    ensures Dashed(x) == name <==> x == name || x == under
  {
    if Dashed(x) == name {
      forall i | 0 <= i < |x| && i != k ensures x[i] == name[i] {
        assert Dashed(x)[i] == name[i];
      }
      assert Dashed(x)[k] == name[k];
      assert x == if x[k] == '_' then under else name;
    }
    assert x == name ==> Dashed(x) == name;
    assert x == under ==> Dashed(x) == name;
  }

  /** The ten spellings in the SQL lists are those the code normalises to one of the five tools. */
  lemma TavilySpellings(tool: string)
    requires Trimmed(tool)
    ensures Lower(tool) in TAVILY_TOOLS <==> TavilyKind(NormalizeTool(tool)).Some?
  {
    TrimIsIdempotent(tool);
    hide Lower, Dashed, Trim;
    var x := Lower(tool);
    DashedSpellings(x, "tavily-search", "tavily_search", 6);
    DashedSpellings(x, "tavily-extract", "tavily_extract", 6);
    DashedSpellings(x, "tavily-crawl", "tavily_crawl", 6);
    DashedSpellings(x, "tavily-map", "tavily_map", 6);
    DashedSpellings(x, "tavily-research", "tavily_research", 6);
  }

  // ---- Agreement on one message -----------------------------------------------------------------

  /** For a plain item the SQL kind is NULL exactly if the code does not prove the item non-billable, except
      for miscased calls. */
  lemma KindAgrees(v: Value)
    requires IsPlain(v)
    ensures KindOf(Lower(RawText(v.Get("method"))), Lower(RawTool(v))).Nul? <==>
            !IsNonBillableMessage(v) || IsMiscasedCall(v)
  {
    hide Trim, Lower, KindOf, IsControlMethod, IsMiscasedCall, IsNonBillableMessage, Lookup;
    var m, t := RawText(v.Get("method")), RawTool(v);
    TrimIsIdempotent(m);
    TrimIsIdempotent(t);
    MethodOfRaw(v);
    if m == "" {
      KindOfBlank(v);
    } else if IsControlMethod(m) {
      KindOfControl(v, m, Lower(t));
    } else if m == "tools/call" {
      KindOfCall(v, t);
    } else {
      KindOfUnknown(v, m, t);
    }
  }

  lemma KindOfBlank(v: Value)
    requires MethodOf(v).None? && RawText(v.Get("method")) == ""
    ensures KindOf(Lower(""), Lower(RawTool(v))).Nul? && !IsNonBillableMessage(v)
  {
    assert Lower("") == "";
  }

  lemma MethodOfRaw(v: Value)
    requires Trim(RawText(v.Get("method"))) == RawText(v.Get("method"))
    ensures MethodOf(v) == if RawText(v.Get("method")) == "" then None else Some(RawText(v.Get("method")))
    ensures RawText(v.Get("method")) != "" ==> v.GetText("method") == Some(RawText(v.Get("method")))
  {
  }

  lemma ControlIsNoCall(m: string)
    ensures Lower("tools/call") == "tools/call" && !IsControlMethod("tools/call") && "tools/call" !in CONTROL_METHODS
    ensures Lower(m) == "tools/call" ==> !IsControlMethod(m)
  {
    var call := "tools/call";
    assert call[0] == 't' && call[6] == 'c';
    if IsControlMethod(m) {
      assert "initialize"[0] == 'i' && "ping"[0] == 'p' && "tools/list"[6] == 'l';
      assert "resources/"[0] == 'r' && "prompts/"[0] == 'p' && "notifications/"[0] == 'n';
      assert Lower(m)[0] == LowerChar(m[0]);
      assert m == "tools/list" ==> Lower(m)[6] == 'l';
    }
  }

  lemma KindOfControl(v: Value, m: string, t: string)
    requires MethodOf(v) == Some(m) && IsControlMethod(m) && Trim(m) == m && m == RawText(v.Get("method"))
    ensures KindOf(Lower(m), t).Txt? && IsNonBillableMessage(v) && !IsMiscasedCall(v)
  {
    ControlKeyIsNonBillable(m);
    ControlIsNoCall(m);
    ControlStaysControl(m);
    hide Lower, Trim, IsNonBillableKey, IsMcpKey, TAVILY_TOOLS;
  }

  lemma ControlStaysControl(m: string)
    requires IsControlMethod(m)
    ensures Lower(m) in CONTROL_METHODS || "resources/" <= Lower(m) || "prompts/" <= Lower(m) ||
            "notifications/" <= Lower(m)
  {
    PrefixesAreLower();
    if m in CONTROL_METHODS {
      assert Lower(m) == m;
    } else {
      var p := if "resources/" <= m then "resources/" else if "prompts/" <= m then "prompts/" else "notifications/";
      LowerKeepsPrefix(p, m);
    }
  }

  lemma KindOfCall(v: Value, t: string)
    requires MethodOf(v) == Some("tools/call") == v.GetText("method") && RawText(v.Get("method")) == "tools/call"
    requires t == RawTool(v) && Trimmed(t) && Trim(t) == t
    ensures KindOf(Lower("tools/call"), Lower(t)).Nul? <==> !IsNonBillableMessage(v)
    ensures !IsMiscasedCall(v)
  {
    hide IsNonBillableKey, IsMcpKey, Lower, TAVILY_TOOLS, Trim, NormalizeTool, CONTROL_METHODS;
    ControlIsNoCall("tools/call");
    TavilySpellings(t);
    CallKey(if t == "" then None else Some(t));
    ToolOfRaw(v);
    CallPrefixes();
    NoEmptyTool();
  }

  lemma NoEmptyTool()
    ensures Lower("") == "" && "" !in TAVILY_TOOLS
    ensures forall t :: Lower(t) == "" <==> t == ""
  {
  }

  lemma CallPrefixes()
    ensures !("resources/" <= "tools/call") && !("prompts/" <= "tools/call") && !("notifications/" <= "tools/call")
  {
    assert "tools/call"[0] == 't';
  }

  lemma ToolOfRaw(v: Value)
    requires Trim(RawTool(v)) == RawTool(v)
    ensures ToolOf(v) == if RawTool(v) == "" then None else Some(RawTool(v))
  {
  }

  lemma KindOfUnknown(v: Value, m: string, t: string)
    requires MethodOf(v) == Some(m) && m == RawText(v.Get("method")) && m != "" && t == RawTool(v)
    requires !IsControlMethod(m) && m != "tools/call"
    ensures IsNonBillableMessage(v)
    ensures KindOf(Lower(m), Lower(t)).Nul? <==> IsMiscasedCall(v)
  {
    hide IsNonBillableKey, IsMcpKey, Lower, TAVILY_TOOLS, Trim, CONTROL_METHODS, IsControlMethod;
    ConstantKeysAreNonBillable();
    ControlIsNoCall(m);
    CallPrefixes();
    NoEmptyTool();
  }

  // ---- Agreement on a batch ---------------------------------------------------------------------

  /** How a body is stored. */
  predicate Stores(cell: SqlValue, body: Body) {
    match body
    case NoBody => cell.Nul?
    case NotJson => cell.Txt?
    case Parsed(v) => cell == Doc(v)
  }

  function BatchItems(body: Body): seq<Value> {
    if body.Parsed? && body.value.Array? then body.value.items else []
  }

  predicate IsPlainBody(body: Body) {
    forall i :: 0 <= i < |BatchItems(body)| ==> IsPlain(BatchItems(body)[i])
  }

  predicate HasMiscasedCall(body: Body) {
    exists i :: 0 <= i < |BatchItems(body)| && IsMiscasedCall(BatchItems(body)[i])
  }

  lemma EvalExists(x: Expr, where_: Expr, row: Row, item: SqlValue, items: seq<Value>)
    requires Eval(x, row, item) == Doc(Array(items))
    ensures IsTrue(Eval(ExistsItem(x, where_), row, item)) <==>
            exists i :: 0 <= i < |items| && IsTrue(Eval(where_, row, FromJson(items[i])))
    ensures Eval(ExistsItem(x, where_), row, item).Int?
  {
  }

  lemma EvalNoKind(v: Value, row: Row)
    requires IsPlain(v)
    ensures IsTrue(Eval(IsNull(NonBillableKindSql(ItemValue)), row, FromJson(v))) <==>
            !IsNonBillableMessage(v) || IsMiscasedCall(v)
  {
    var m, t := Lower(RawText(v.Get("method"))), Lower(RawTool(v));
    assert Eval(IsNull(NonBillableKindSql(ItemValue)), row, FromJson(v)) ==
      Truth(Eval(NonBillableKindSql(ItemValue), row, FromJson(v)).Nul?);
    hide Eval, IsPlain, KindOf, IsNonBillableMessage, IsMiscasedCall, NonBillableKindSql, MethodSql, ToolSql;
    EvalField(ItemValue, "method", row, FromJson(v));
    EvalMethod(ItemValue, v, row, FromJson(v));
    EvalTool(ItemValue, v, row, FromJson(v));
    LowerOfLower(RawText(v.Get("method")));
    EvalKind(ItemValue, row, FromJson(v), m, t);
    KindAgrees(v);
  }

  /** Some item of the batch is not proven non-billable by the SQL. */
  predicate HasUnproven(items: seq<Value>) {
    exists i :: 0 <= i < |items| && (!IsNonBillableMessage(items[i]) || IsMiscasedCall(items[i]))
  }

  lemma UnprovenMeans(body: Body)
    ensures AllNonBillable(body) && !HasMiscasedCall(body) <==>
            body.Parsed? && body.value.Array? && body.value.items != [] && !HasUnproven(body.value.items)
  {
    hide IsNonBillableMessage, IsMiscasedCall;
    assert body.Parsed? && body.value.Array? ==> BatchItems(body) == body.value.items;
  }

  lemma EvalItems(x: Expr, row: Row, item: SqlValue, items: seq<Value>)
    requires Eval(x, row, item) == Doc(Array(items)) && forall i :: 0 <= i < |items| ==> IsPlain(items[i])
    ensures IsTrue(Eval(ExistsItem(x, Lit(Int(1))), row, item)) <==> items != []
    ensures IsTrue(Eval(ExistsItem(x, IsNull(NonBillableKindSql(ItemValue))), row, item)) <==> HasUnproven(items)
    ensures Eval(ExistsItem(x, IsNull(NonBillableKindSql(ItemValue))), row, item).Int?
  {
    hide Eval, IsPlain, IsNonBillableMessage, IsMiscasedCall, NonBillableKindSql;
    EvalExists(x, Lit(Int(1)), row, item, items);
    EvalExists(x, IsNull(NonBillableKindSql(ItemValue)), row, item, items);
    forall i | 0 <= i < |items|
      ensures IsTrue(Eval(IsNull(NonBillableKindSql(ItemValue)), row, FromJson(items[i]))) <==>
              !IsNonBillableMessage(items[i]) || IsMiscasedCall(items[i])
      ensures IsTrue(Eval(Lit(Int(1)), row, FromJson(items[i])))
    {
      EvalNoKind(items[i], row);
      EvalOne(row, FromJson(items[i]));
    }
    if items != [] { assert IsTrue(Eval(Lit(Int(1)), row, FromJson(items[0]))); }
  }

  /** The SQL finds a batch all non-billable exactly if the code does and no call in it is miscased. */
  lemma AllNonBillableAgrees(x: Expr, row: Row, item: SqlValue, body: Body)
    requires Stores(Eval(x, row, item), body) && IsPlainBody(body)
    ensures IsTrue(Eval(AllNonBillableSql(x), row, item)) <==> AllNonBillable(body) && !HasMiscasedCall(body)
  {
    hide Eval, IsPlain, HasUnproven, NonBillableKindSql, AllNonBillable, HasMiscasedCall;
    var valid, array_ := JsonValid(x), JsonIsArray(x);
    var some, unproven := ExistsItem(x, Lit(Int(1))), ExistsItem(x, IsNull(NonBillableKindSql(ItemValue)));
    EvalAnd(valid, array_, row, item);
    EvalAnd(And(valid, array_), some, row, item);
    EvalAnd(And(And(valid, array_), some), Not(unproven), row, item);
    EvalNot(unproven, row, item);
    EvalJsonTests(x, row, item, body);
    UnprovenMeans(body);
    if body.Parsed? && body.value.Array? {
      assert BatchItems(body) == body.value.items;
      EvalItems(x, row, item, body.value.items);
    }
  }

  lemma EvalOne(row: Row, item: SqlValue)
    ensures Eval(Lit(Int(1)), row, item) == Int(1)
  {
  }

  lemma EvalJsonTests(x: Expr, row: Row, item: SqlValue, body: Body)
    requires Stores(Eval(x, row, item), body)
    ensures IsTrue(Eval(JsonValid(x), row, item)) <==> body.Parsed?
    ensures IsTrue(Eval(JsonIsArray(x), row, item)) <==> body.Parsed? && body.value.Array?
  {
    hide Eval;
    EvalJsonValid(x, row, item);
    EvalJsonIsArray(x, row, item);
  }

  lemma EvalJsonValid(x: Expr, row: Row, item: SqlValue)
    ensures var v := Eval(x, row, item); Eval(JsonValid(x), row, item) == if v.Nul? then Nul else Truth(v.Doc?)
  {
  }

  lemma EvalJsonIsArray(x: Expr, row: Row, item: SqlValue)
    ensures var v := Eval(x, row, item); Eval(JsonIsArray(x), row, item) == if !v.Doc? then Nul
            else Truth(v.json.Array?)
  {
  }

  // ---- Agreement on the key ---------------------------------------------------------------------

  const API_KEYS := [
    "api:search", "api:extract", "api:crawl", "api:map", "api:research", "api:research-result", "api:usage",
    "api:unknown-path"]

  const BILLABLE_KINDS := ["search", "extract", "crawl", "map", "research", "batch"]

  predicate IsBillableMcpKey(key: string) {
    "mcp:" <= key && key[4..] in BILLABLE_KINDS
  }

  predicate HasOpenPrefix(key: string) {
    "mcp:resources/" <= key || "mcp:prompts/" <= key || "mcp:notifications/" <= key
  }

  predicate IsCanonical(key: string) {
    var k := Trim(key);
    k in API_KEYS || IsBillableMcpKey(k) || k in NON_BILLABLE_MCP_KEYS || HasOpenPrefix(k)
  }

  lemma KeyAgrees(key: string)
    requires IsCanonical(key) && Trimmed(key)
    ensures IsMcpKey(key) && IsNonBillableKey(key) <==> Lower(key) in NON_BILLABLE_MCP_KEYS || HasOpenPrefix(Lower(key))
  {
    TrimIsIdempotent(key);
    hide Trim, API_KEYS, IsBillableMcpKey, NON_BILLABLE_MCP_KEYS, IsNonBillableKey, IsMcpKey, HasOpenPrefix, Lower;
    if HasOpenPrefix(key) {
      OpenKeyAgrees(key);
    } else if key in NON_BILLABLE_MCP_KEYS {
      ListedKeyAgrees(key);
    } else if key in API_KEYS {
      ApiKeyAgrees(key);
    } else {
      BillableKeyAgrees(key);
    }
  }

  lemma OpenKeyAgrees(key: string)
    requires HasOpenPrefix(key) && Trim(key) == key
    ensures IsMcpKey(key) && IsNonBillableKey(key) && HasOpenPrefix(Lower(key))
  {
    hide Trim;
    var p := if "mcp:resources/" <= key then "mcp:resources/" else if "mcp:prompts/" <= key then "mcp:prompts/"
      else "mcp:notifications/";
    assert Lower(p) == p;
    LowerKeepsPrefix(p, key);
    assert "mcp:" <= p;
  }

  lemma ListedKeyAgrees(key: string)
    requires key in NON_BILLABLE_MCP_KEYS && Trim(key) == key
    ensures IsMcpKey(key) && IsNonBillableKey(key) && Lower(key) == key
  {
    hide Trim;
    assert "mcp:" <= key;
  }

  lemma ApiKeyAgrees(key: string)
    requires key in API_KEYS && Trim(key) == key
    ensures !IsMcpKey(key) && Lower(key) !in NON_BILLABLE_MCP_KEYS && !HasOpenPrefix(Lower(key))
  {
    hide Trim;
    assert key[0] == 'a' && Lower(key)[0] == 'a' && "mcp:"[0] == 'm';
    ListedKeysStartWithM();
    hide API_KEYS, NON_BILLABLE_MCP_KEYS;
  }

  lemma ListedKeysStartWithM()
    ensures forall key :: key in NON_BILLABLE_MCP_KEYS ==> key != "" && key[0] == 'm'
  {
  }

  lemma BillableKeyAgrees(key: string)
    requires IsBillableMcpKey(key) && Trim(key) == key
    ensures !IsNonBillableKey(key) && Lower(key) !in NON_BILLABLE_MCP_KEYS && !HasOpenPrefix(Lower(key))
  {
    hide IsNonBillableKey, NON_BILLABLE_MCP_KEYS, Trim, HasOpenPrefix, BILLABLE_KINDS, Lower;
    var kind := key[4..];
    assert key == "mcp:" + kind;
    BillableMcpKeys(key);
    if kind == "batch" {
      BatchKeyIsBillable();
      assert key == "mcp:batch";
    } else {
      OtherKinds(kind);
      BillableKinds();
    }
  }

  lemma OtherKinds(kind: string)
    requires kind in BILLABLE_KINDS && kind != "batch"
    ensures kind in ["search", "extract", "crawl", "map", "research"]
  {
  }

  lemma BillableMcpKeys(key: string)
    requires IsBillableMcpKey(key)
    ensures Lower(key) !in NON_BILLABLE_MCP_KEYS && !HasOpenPrefix(Lower(key))
  {
    hide NON_BILLABLE_MCP_KEYS, BILLABLE_KINDS;
    var kind := key[4..];
    KindLetters(kind);
    FifthLetters();
    assert key[4] == kind[0] && |key| == |kind| + 4 && (kind[0] == 'r' ==> key[7] == kind[3]);
    hide IsBillableMcpKey;
    LetterOfPrefixes(key);
  }

  lemma KindLetters(kind: string)
    requires kind in BILLABLE_KINDS
    ensures |kind| >= 3 && kind[0] in {'s', 'e', 'c', 'm', 'r', 'b'} &&
            (kind[0] == 'r' ==> |kind| > 3 && kind[3] == 'e')
  {
  }

  lemma LetterOfPrefixes(key: string)
    requires |key| > 4 && key[4] in {'s', 'e', 'c', 'm', 'r', 'b'} && (key[4] == 'r' ==> |key| > 7 && key[7] == 'e')
    ensures |Lower(key)| == |key| && Lower(key)[4] == key[4] && !HasOpenPrefix(Lower(key))
  {
    assert (key[4] == 'r' ==> Lower(key)[7] == 'e');
    assert "mcp:resources/"[4] == 'r' && "mcp:resources/"[7] == 'o' && "mcp:prompts/"[4] == 'p' &&
      "mcp:notifications/"[4] == 'n';
  }

  lemma FifthLetters()
    ensures forall key :: key in NON_BILLABLE_MCP_KEYS ==> |key| > 4 && key[4] in {'i', 'p', 't', 'u'}
  {
  }

  // ---- Agreement on the class -------------------------------------------------------------------

  lemma EvalNonBillableMcp(row: Row, key: string)
    requires row.kind == Txt(key) && IsCanonical(key) && Trimmed(key)
    ensures IsTrue(Eval(NonBillableMcpSql(Col(RequestKind)), row, Nul)) <==> IsMcpKey(key) && IsNonBillableKey(key)
  {
    hide Trim, IsCanonical, IsMcpKey, IsNonBillableKey, Eval, NON_BILLABLE_MCP_KEYS, Normalized, Lower;
    EvalColumns(row);
    var x, k := Normalized(Col(RequestKind)), Lower(key);
    EvalNormalized(Col(RequestKind), row, Nul, key);
    LowerOfLower(key);
    OpenPrefixesAreLower();
    EvalTextTests(x, NON_BILLABLE_MCP_KEYS, "mcp:resources/", row, Nul, k);
    EvalTextTests(x, NON_BILLABLE_MCP_KEYS, "mcp:prompts/", row, Nul, k);
    EvalTextTests(x, NON_BILLABLE_MCP_KEYS, "mcp:notifications/", row, Nul, k);
    var one := Or(In(x, NON_BILLABLE_MCP_KEYS), Like(x, "mcp:resources/"));
    var two := Or(one, Like(x, "mcp:prompts/"));
    EvalOr(In(x, NON_BILLABLE_MCP_KEYS), Like(x, "mcp:resources/"), row, Nul);
    EvalOr(one, Like(x, "mcp:prompts/"), row, Nul);
    EvalOr(two, Like(x, "mcp:notifications/"), row, Nul);
    KeyAgrees(key);
  }

  lemma OpenPrefixesAreLower()
    ensures Lower("mcp:resources/") == "mcp:resources/" && Lower("mcp:prompts/") == "mcp:prompts/"
    ensures Lower("mcp:notifications/") == "mcp:notifications/"
  {
  }

  lemma EvalColumns(row: Row)
    ensures forall c, item :: Eval(Col(c), row, item) == CellOf(row, c)
    ensures forall v, item :: Eval(Lit(v), row, item) == v
  {
  }

  lemma EvalCounts(row: Row, key: string, body: Body)
    requires row.kind == Txt(key) && IsCanonical(key) && Trimmed(key)
    requires Stores(row.body, body) && IsPlainBody(body)
    ensures Eval(CountsBusinessQuotaSql(Col(RequestKind), Col(RequestBody)), row, Nul) ==
            Truth(!(key == "mcp:batch" && AllNonBillable(body) && !HasMiscasedCall(body)))
  {
    hide Trim, IsCanonical, Eval, AllNonBillable, HasMiscasedCall, AllNonBillableSql, Normalized, Lower;
    EvalColumns(row);
    var x, all := Normalized(Col(RequestKind)), AllNonBillableSql(Col(RequestBody));
    EvalNormalized(Col(RequestKind), row, Nul, key);
    EvalEqText(x, "mcp:batch", row, Nul, Lower(key));
    AllNonBillableAgrees(Col(RequestBody), row, Nul, body);
    EvalAnd(Eq(x, TextLit("mcp:batch")), all, row, Nul);
    EvalCase(And(Eq(x, TextLit("mcp:batch")), all), Lit(Int(0)), Lit(Int(1)), row, Nul);
    LowerBatch(key);
  }

  lemma LowerBatch(key: string)
    requires IsCanonical(key) && Trimmed(key)
    ensures Lower(key) == "mcp:batch" <==> key == "mcp:batch"
  {
    hide Trim, NON_BILLABLE_MCP_KEYS, API_KEYS, IsBillableMcpKey;
    TrimIsIdempotent(key);
    FifthLetters();
    ApiKeysStartWithA();
    var batch := "mcp:batch";
    assert batch[0] == 'm' && batch[4] == 'b';
    assert "mcp:resources/"[4] == 'r' && "mcp:prompts/"[4] == 'p' && "mcp:notifications/"[4] == 'n';
    if IsBillableMcpKey(key) {
      LowerBillable(key);
    } else {
      assert key[0] == 'a' || key[4] in {'i', 'p', 't', 'u'} || key[4] == 'r' || key[4] == 'n';
      assert key[0] == 'a' ==> Lower(key)[0] == 'a';
      assert |key| > 4 ==> Lower(key)[4] == LowerChar(key[4]);
    }
  }

  lemma ApiKeysStartWithA()
    ensures forall key :: key in API_KEYS ==> key != "" && key[0] == 'a'
  {
  }

  lemma LowerBillable(key: string)
    requires IsBillableMcpKey(key)
    ensures Lower(key) == "mcp:batch" <==> key == "mcp:batch"
  {
    var kind := key[4..];
    assert Lower(kind) == kind;
    hide BILLABLE_KINDS;
    assert Lower(key) == Lower("mcp:") + Lower(kind) == key;
  }

  /** A stored request log: trimmed canonical key, stored status in lower case, optional failure kind, body. */
  predicate IsStoredLog(row: Row, key: string, status: string, failure: Option<string>, body: Body) {
    && row.kind == Txt(key) && IsCanonical(key) && Trimmed(key)
    && row.status == Txt(status) && Trimmed(status) && Lower(status) == status
    && row.failure == (if failure.Some? then Txt(failure.value) else Nul)
    && (failure.Some? ==> Trimmed(failure.value))
    && Stores(row.body, body) && IsPlainBody(body)
  }

  /** The two classifiers part only over a batch, neither out of quota nor failed, that the code finds all
      non-billable and that holds a miscased call. */
  predicate Parts(key: string, status: string, body: Body) {
    key == "mcp:batch" && status != "quota_exhausted" && status != "error" && AllNonBillable(body) &&
      HasMiscasedCall(body)
  }

  lemma EvalNeutral(row: Row, key: string, counts: Expr, quota: bool, status: string)
    requires row.kind == Txt(key) && IsCanonical(key) && Trimmed(key) && row.status == Txt(status)
    requires Eval(counts, row, Nul) == Truth(quota)
    ensures Eval(NeutralOrResultSql(Col(RequestKind), counts, Col(ResultStatus)), row, Nul) ==
            Txt(if (key == "mcp:batch" && !quota) || (IsMcpKey(key) && IsNonBillableKey(key)) then "neutral"
                else if status == "success" then "success" else "system_error")
  {
    hide Trim, IsCanonical, Eval, IsMcpKey, IsNonBillableKey, NonBillableMcpSql;
    EvalColumns(row);
    var batch, zero := Eq(Col(RequestKind), TextLit("mcp:batch")), Eq(counts, Lit(Int(0)));
    var bySuccess := CaseWhen(Eq(Col(ResultStatus), TextLit("success")), TextLit("success"), TextLit("system_error"));
    EvalEqText(Col(RequestKind), "mcp:batch", row, Nul, key);
    EvalEqZero(counts, row, quota);
    EvalEqText(Col(ResultStatus), "success", row, Nul, status);
    EvalNonBillableMcp(row, key);
    EvalAnd(batch, zero, row, Nul);
    EvalCase(Eq(Col(ResultStatus), TextLit("success")), TextLit("success"), TextLit("system_error"), row, Nul);
    EvalCase(NonBillableMcpSql(Col(RequestKind)), TextLit("neutral"), bySuccess, row, Nul);
    EvalCase(And(batch, zero), TextLit("neutral"), CaseWhen(NonBillableMcpSql(Col(RequestKind)), TextLit("neutral"),
                                                            bySuccess), row, Nul);
  }

  lemma EvalEqZero(x: Expr, row: Row, b: bool)
    requires Eval(x, row, Nul) == Truth(b)
    ensures Eval(Eq(x, Lit(Int(0))), row, Nul) == Truth(!b)
  {
    EvalColumns(row);
  }

  /** Evaluates the failed-request branches over an arbitrary remaining branch. */
  lemma EvalErrorBranches(row: Row, status: string, failure: Option<string>, rest: Expr)
    requires row.status == Txt(status)
    requires row.failure == if failure.Some? then Txt(failure.value) else Nul
    ensures var isError := Eq(Col(ResultStatus), TextLit("error"));
            Eval(CaseWhen(And(isError, In(Col(FailureKind), CLIENT_ERROR_KINDS)), TextLit("client_error"),
                 CaseWhen(And(isError, In(Col(FailureKind), UPSTREAM_ERROR_KINDS)), TextLit("upstream_error"),
                 CaseWhen(isError, TextLit("system_error"), rest))), row, Nul) ==
            if status != "error" then Eval(rest, row, Nul)
            else if failure.Some? && failure.value in CLIENT_ERROR_KINDS then Txt("client_error")
            else if failure.Some? && failure.value in UPSTREAM_ERROR_KINDS then Txt("upstream_error")
            else Txt("system_error")
  {
    hide Eval, CLIENT_ERROR_KINDS, UPSTREAM_ERROR_KINDS;
    EvalColumns(row);
    var isError := Eq(Col(ResultStatus), TextLit("error"));
    var client, upstream := In(Col(FailureKind), CLIENT_ERROR_KINDS), In(Col(FailureKind), UPSTREAM_ERROR_KINDS);
    EvalEqText(Col(ResultStatus), "error", row, Nul, status);
    EvalIn(row, failure, CLIENT_ERROR_KINDS);
    EvalIn(row, failure, UPSTREAM_ERROR_KINDS);
    EvalAnd(isError, client, row, Nul);
    EvalAnd(isError, upstream, row, Nul);
    var third := CaseWhen(isError, TextLit("system_error"), rest);
    var second := CaseWhen(And(isError, upstream), TextLit("upstream_error"), third);
    EvalCase(isError, TextLit("system_error"), rest, row, Nul);
    EvalCase(And(isError, upstream), TextLit("upstream_error"), third, row, Nul);
    EvalCase(And(isError, client), TextLit("client_error"), second, row, Nul);
  }

  lemma EvalIn(row: Row, failure: Option<string>, list: seq<string>)
    requires row.failure == if failure.Some? then Txt(failure.value) else Nul
    ensures IsTrue(Eval(In(Col(FailureKind), list), row, Nul)) <==> failure.Some? && failure.value in list
  {
    EvalColumns(row);
  }

  /** What the generated expression computes for a stored log, whatever its body: the class in code, for a
      batch whose miscased calls count as billable. */
  lemma ClassSqlMeaning(row: Row, key: string, status: string, failure: Option<string>, body: Body)
    requires IsStoredLog(row, key, status, failure, body)
    ensures Eval(RequestLogClassSql(), row, Nul) ==
            Txt(ClassOfTokenLog(key, status, failure,
                                !(key == "mcp:batch" && AllNonBillable(body) && !HasMiscasedCall(body))))
  {
    hide Trim, IsCanonical, IsMcpKey, IsNonBillableKey, Eval, CountsBusinessQuotaSql, NeutralOrResultSql,
         AllNonBillable, HasMiscasedCall, IsPlainBody, CLIENT_ERROR_KINDS, UPSTREAM_ERROR_KINDS, Lower;
    EvalColumns(row);
    TrimIsIdempotent(key);
    TrimIsIdempotent(status);
    if failure.Some? { TrimIsIdempotent(failure.value); }
    var counts := CountsBusinessQuotaSql(Col(RequestKind), Col(RequestBody));
    EvalCounts(row, key, body);
    EvalNeutral(row, key, counts, !(key == "mcp:batch" && AllNonBillable(body) && !HasMiscasedCall(body)), status);
    var rest := NeutralOrResultSql(Col(RequestKind), counts, Col(ResultStatus));
    EvalErrorBranches(row, status, failure, rest);
    var isError := Eq(Col(ResultStatus), TextLit("error"));
    var errors := CaseWhen(And(isError, In(Col(FailureKind), CLIENT_ERROR_KINDS)), TextLit("client_error"),
                  CaseWhen(And(isError, In(Col(FailureKind), UPSTREAM_ERROR_KINDS)), TextLit("upstream_error"),
                  CaseWhen(isError, TextLit("system_error"), rest)));
    EvalEqText(Col(ResultStatus), "quota_exhausted", row, Nul, status);
    EvalCase(Eq(Col(ResultStatus), TextLit("quota_exhausted")), TextLit("quota_exhausted"), errors, row, Nul);
    BatchIsMcp();
  }

  lemma BatchIsMcp()
    ensures IsMcpKey("mcp:batch")
  {
    TrimIsIdempotent("mcp:batch");
  }

  /** The generated SQL gives the class that the code gives, exactly unless the log parts them. */
  lemma ClassSqlAgrees(row: Row, key: string, status: string, failure: Option<string>, body: Body)
    requires IsStoredLog(row, key, status, failure, body)
    ensures Eval(RequestLogClassSql(), row, Nul) == Txt(ClassOfRequestLog(key, body, status, failure)) <==>
            !Parts(key, status, body)
  {
    ClassSqlMeaning(row, key, status, failure, body);
    TrimIsIdempotent(key);
    TrimIsIdempotent(status);
    BatchIsMcp();
    BatchKeyIsBillable();
    hide Trim, IsCanonical, IsMcpKey, IsNonBillableKey, Eval, IsPlainBody, AllNonBillable, HasMiscasedCall,
         CLIENT_ERROR_KINDS, UPSTREAM_ERROR_KINDS, Lower, RequestLogClassSql;
  }

  /** A log that parts them: one call of a Tavily tool by the method `TOOLS/CALL`. */
  lemma MiscasedCallParts(row: Row)
    requires var params := Object([Field("name", String("tavily-search"))]);
             var call := Object([Field("method", String("TOOLS/CALL")), Field("params", params)]);
             && row.kind == Txt("mcp:batch") && row.status == Txt("success") && row.failure == Nul
             && row.body == Doc(Array([call]))
    ensures Eval(RequestLogClassSql(), row, Nul) == Txt("success")
    ensures ClassOfRequestLog("mcp:batch", Parsed(row.body.json), "success", None) == "neutral"
  {
    hide IsPlain, IsMiscasedCall, IsNonBillableMessage, Lookup, Parts, Eval, RequestLogClassSql, IsMcpKey,
      IsNonBillableKey, Trim, Lower;
    var params := Object([Field("name", String("tavily-search"))]);
    var call := Object([Field("method", String("TOOLS/CALL")), Field("params", params)]);
    var body := Parsed(Array([call]));
    CallFields(call, params);
    MiscasedIsMiscased(call);
    SingleCallParts(call);
    StoredBatch(row, call);
    ClassSqlMeaning(row, "mcp:batch", "success", None, body);
    SuccessfulBatch(body);
  }

  lemma StoredBatch(row: Row, call: Value)
    requires row.kind == Txt("mcp:batch") && row.status == Txt("success") && row.failure == Nul &&
             row.body == Doc(Array([call]))
    requires IsPlain(call)
    ensures IsStoredLog(row, "mcp:batch", "success", None, Parsed(Array([call])))
  {
    hide IsPlain;
    var key, status := "mcp:batch", "success";
    TrimIsIdempotent(key);
    assert key[0] == 'm' && key[8] == 'h' && status[0] == 's' && status[6] == 's';
    assert key[4..] == "batch" && BILLABLE_KINDS[5] == "batch" && "mcp:" <= key;
    hide Trim, BILLABLE_KINDS;
    assert Lower(status) == status;
  }

  /** A successful batch: neutral if the code finds it all non-billable, and a success for the SQL if a call is
      miscased. */
  lemma SuccessfulBatch(body: Body)
    ensures ClassOfTokenLog("mcp:batch", "success", None, true) == "success"
    ensures AllNonBillable(body) ==> ClassOfRequestLog("mcp:batch", body, "success", None) == "neutral"
  {
    hide IsNonBillableKey, AllNonBillable;
    BatchIsMcp();
    BatchKeyIsBillable();
    SuccessWord();
    TrimIsIdempotent("mcp:batch");
    hide Trim, Lower;
  }

  lemma SuccessWord()
    ensures Lower(Trim("success")) == "success" && Trim("mcp:batch") == "mcp:batch"
  {
    var status := "success";
    assert status[0] == 's' && status[6] == 's';
    TrimIsIdempotent(status);
    TrimIsIdempotent("mcp:batch");
    hide Trim;
    assert Lower(status) == status;
  }

  lemma SingleCallParts(call: Value)
    requires IsMiscasedCall(call) && IsNonBillableMessage(call)
    ensures Parts("mcp:batch", "success", Parsed(Array([call])))
    ensures AllNonBillable(Parsed(Array([call]))) && HasMiscasedCall(Parsed(Array([call])))
  {
    hide IsMiscasedCall, IsNonBillableMessage;
    assert BatchItems(Parsed(Array([call])))[0] == call;
  }

  lemma CallFields(call: Value, params: Value)
    requires params == Object([Field("name", String("tavily-search"))])
    requires call == Object([Field("method", String("TOOLS/CALL")), Field("params", params)])
    ensures call.Get("method") == Some(String("TOOLS/CALL")) && call.Get("params") == Some(params)
    ensures params.Get("name") == Some(String("tavily-search"))
  {
    var rest := [Field("params", params)];
    assert "method"[0] == 'm' && "params"[0] == 'p' && call.fields[1..] == rest;
    assert Lookup(rest, "params") == Some(params);
  }

  lemma MiscasedIsMiscased(v: Value)
    requires !v.String? && v.Get("method") == Some(String("TOOLS/CALL")) && v.Get("params").Some?
    requires v.Get("params").value.Get("name") == Some(String("tavily-search"))
    ensures IsPlain(v) && IsMiscasedCall(v) && IsNonBillableMessage(v)
  {
    var m, t := "TOOLS/CALL", "tavily-search";
    assert RawText(v.Get("method")) == m && RawTool(v) == t;
    MiscasedWords(m, t);
    hide Trim, Lower, TAVILY_TOOLS, KindOf, IsControlMethod, Lookup;
    TrimIsIdempotent(m);
    assert v.GetText("method") == Some(m);
    assert MethodOf(v) == Some(m);
    KindOfUnknown(v, m, t);
  }

  lemma MiscasedWords(m: string, t: string)
    requires m == "TOOLS/CALL" && t == "tavily-search"
    ensures Trimmed(m) && Trimmed(t) && Lower(m) == "tools/call" && Lower(t) in TAVILY_TOOLS
    ensures !IsControlMethod(m) && m != "tools/call"
  {
    assert TAVILY_TOOLS[0] == t == Lower(t);
    hide TAVILY_TOOLS;
    assert m[0] == 'T' && m[|m| - 1] == 'L' && t[0] == 't' && t[|t| - 1] == 'h';
    assert "initialize"[0] == 'i' && "ping"[0] == 'p' && "tools/list"[0] == 't' && "resources/"[0] == 'r';
    assert "prompts/"[0] == 'p' && "notifications/"[0] == 'n' && "tools/call"[0] == 't';
  }
}
