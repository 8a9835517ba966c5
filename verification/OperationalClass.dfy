/** The operational class of a logged request, computed once in code and once by a generated SQL expression. */
module OperationalClass {
  import opened Wrappers
  import opened Json
  import opened Text
  import opened RequestKinds
  import opened Sql

  const CLIENT_ERROR_KINDS := [
    "mcp_accept_406", "tool_argument_validation", "unknown_tool_name", "invalid_search_depth",
    "invalid_country_search_depth_combo", "research_payload_422", "query_too_long", "mcp_method_405", "mcp_path_404"]

  const UPSTREAM_ERROR_KINDS := ["upstream_rate_limited_429", "upstream_gateway_5xx",
                                 "upstream_account_deactivated_401"]

  const NON_BILLABLE_MCP_KEYS := [
    "mcp:initialize", "mcp:ping", "mcp:tools/list", "mcp:unsupported-path", "mcp:unknown-payload",
    "mcp:unknown-method", "mcp:third-party-tool"]

  const CONTROL_METHODS := ["initialize", "ping", "tools/list"]

  const TAVILY_TOOLS := [
    "tavily-search", "tavily_search", "tavily_extract", "tavily-extract", "tavily-crawl", "tavily_crawl",
    "tavily_map", "tavily-map", "tavily-research", "tavily_research"]

  // ---- The classifier in code -------------------------------------------------------------------

  function ClassOfTokenLog(key: string, result: string, failure: Option<string>, counts: bool): string {
    var normalized := Lower(Trim(result));
    if normalized == "quota_exhausted" then "quota_exhausted"
    else if normalized == "error" then
      if failure.Some? && Trim(failure.value) in CLIENT_ERROR_KINDS then "client_error"
      else if failure.Some? && Trim(failure.value) in UPSTREAM_ERROR_KINDS then "upstream_error"
      else "system_error"
    else if IsMcpKey(key) && ((!counts && Trim(key) == "mcp:batch") || IsNonBillableKey(key)) then "neutral"
    else if normalized == "success" then "success"
    else "system_error"
  }

  function ClassOfRequestLog(key: string, body: Body, result: string, failure: Option<string>): string {
    ClassOfTokenLog(key, result, failure, CountsBusinessQuota(key, body))
  }

  // ---- The generated SQL ------------------------------------------------------------------------

  function TextLit(s: string): Expr { Lit(Txt(s)) }

  /** LOWER(TRIM(COALESCE(e, ''))) */
  function Normalized(e: Expr): Expr { LowerOf(TrimOf(Coalesce(e, TextLit("")))) }

  /** LOWER(COALESCE(NULLIF(json_extract(e, path), ''), '')) */
  function BodyText(extracted: Expr): Expr {
    LowerOf(Coalesce(NullIf(extracted, TextLit("")), TextLit("")))
  }

  function MethodSql(value: Expr): Expr { BodyText(JsonField(value, "method")) }

  function ToolSql(value: Expr): Expr { BodyText(JsonField(JsonField(value, "params"), "name")) }

  function NonBillableMcpSql(kind: Expr): Expr {
    Or(Or(Or(In(Normalized(kind), NON_BILLABLE_MCP_KEYS),
             Like(Normalized(kind), "mcp:resources/")),
          Like(Normalized(kind), "mcp:prompts/")),
       Like(Normalized(kind), "mcp:notifications/"))
  }

  function IsToolsCallSql(value: Expr): Expr { Eq(MethodSql(value), TextLit("tools/call")) }

  function ToolCallKindSql(value: Expr): Expr {
    CaseWhen(And(IsToolsCallSql(value), In(ToolSql(value), TAVILY_TOOLS)), Lit(Nul),
    CaseWhen(And(And(IsToolsCallSql(value), Ne(ToolSql(value), TextLit(""))), Not(In(ToolSql(value), TAVILY_TOOLS))),
             TextLit("mcp:third-party-tool"),
    CaseWhen(IsToolsCallSql(value), TextLit("mcp:unknown-payload"),
    CaseWhen(Ne(MethodSql(value), TextLit("")), TextLit("mcp:unknown-method"), Lit(Nul)))))
  }

  /** The kind of a message, or NULL if it is billable or has no method. */
  function NonBillableKindSql(value: Expr): Expr {
    CaseWhen(In(MethodSql(value), CONTROL_METHODS), Concat(TextLit("mcp:"), MethodSql(value)),
    CaseWhen(Or(Or(Like(MethodSql(value), "resources/"), Like(MethodSql(value), "prompts/")),
                Like(MethodSql(value), "notifications/")),
             Concat(TextLit("mcp:"), MethodSql(value)),
    ToolCallKindSql(value)))
  }

  function AllNonBillableSql(body: Expr): Expr {
    And(And(And(JsonValid(body), JsonIsArray(body)),
            ExistsItem(body, Lit(Int(1)))),
        Not(ExistsItem(body, IsNull(NonBillableKindSql(ItemValue)))))
  }

  function CountsBusinessQuotaSql(kind: Expr, body: Expr): Expr {
    CaseWhen(And(Eq(Normalized(kind), TextLit("mcp:batch")), AllNonBillableSql(body)), Lit(Int(0)), Lit(Int(1)))
  }

  function NeutralOrResultSql(kind: Expr, counts: Expr, status: Expr): Expr {
    CaseWhen(And(Eq(kind, TextLit("mcp:batch")), Eq(counts, Lit(Int(0)))), TextLit("neutral"),
    CaseWhen(NonBillableMcpSql(kind), TextLit("neutral"),
    CaseWhen(Eq(status, TextLit("success")), TextLit("success"), TextLit("system_error"))))
  }

  function OperationalClassSql(kind: Expr, counts: Expr, status: Expr, failure: Expr): Expr {
    CaseWhen(Eq(status, TextLit("quota_exhausted")), TextLit("quota_exhausted"),
    CaseWhen(And(Eq(status, TextLit("error")), In(failure, CLIENT_ERROR_KINDS)), TextLit("client_error"),
    CaseWhen(And(Eq(status, TextLit("error")), In(failure, UPSTREAM_ERROR_KINDS)), TextLit("upstream_error"),
    CaseWhen(Eq(status, TextLit("error")), TextLit("system_error"),
    NeutralOrResultSql(kind, counts, status)))))
  }

  function RequestLogClassSql(): Expr {
    OperationalClassSql(Col(RequestKind), CountsBusinessQuotaSql(Col(RequestKind), Col(RequestBody)),
                        Col(ResultStatus), Col(FailureKind))
  }
}
