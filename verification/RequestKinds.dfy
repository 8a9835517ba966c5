/** The request-kind taxonomy of the logs: which key an MCP request is filed under, and whether that key
    counts as billable. */
module RequestKinds {
  import opened Wrappers
  import opened Json
  import opened Text

  /** A request body: none was kept, it is not JSON, or it parses. */
  datatype Body = NoBody | NotJson | Parsed(value: Value)

  predicate IsControlMethod(m: string) {
    || m == "initialize" || m == "ping" || m == "tools/list"
    || "resources/" <= m || "prompts/" <= m || "notifications/" <= m
  }

  function NormalizeTool(tool: string): string {
    Dashed(Lower(Trim(tool)))
  }

  function TavilyKind(normalized: string): Option<string> {
    if normalized == "tavily-search" then Some("search")
    else if normalized == "tavily-extract" then Some("extract")
    else if normalized == "tavily-crawl" then Some("crawl")
    else if normalized == "tavily-map" then Some("map")
    else if normalized == "tavily-research" then Some("research")
    else None
  }

  /** A trimmed, non-blank text. */
  function NonBlank(t: Option<string>): Option<string> {
    if t.Some? && Trim(t.value) != "" then Some(Trim(t.value)) else None
  }

  function MethodOf(v: Value): Option<string> {
    NonBlank(v.GetText("method"))
  }

  function ToolOf(v: Value): Option<string> {
    var params := v.Get("params");
    if params.None? then None else NonBlank(params.value.GetText("name"))
  }

  /** The kind of a tool call with the given tool name. */
  function ToolKind(tool: Option<string>): string {
    match tool
    case None => "mcp:unknown-payload"
    case Some(t) =>
      match TavilyKind(NormalizeTool(t))
      case Some(kind) => "mcp:" + kind
      case None => "mcp:third-party-tool"
  }

  /** The kind of one JSON-RPC message, if it has a method at all. */
  function MessageKind(v: Value): Option<string> {
    match MethodOf(v)
    case None => None
    case Some(m) =>
      Some(if IsControlMethod(m) then "mcp:" + m
           else if m == "tools/call" then ToolKind(ToolOf(v))
           else "mcp:unknown-method")
  }

  /** The kinds of the messages that can be classified. */
  function Kinds(items: seq<Value>): seq<string> {
    if items == [] then []
    else
      var n := |items| - 1;
      Kinds(items[..n]) + if MessageKind(items[n]).Some? then [MessageKind(items[n]).value] else []
  }

  predicate AllEqual(kinds: seq<string>) {
    forall i :: 0 <= i < |kinds| ==> kinds[i] == kinds[0]
  }

  /** The kind of a request to an MCP path. */
  function McpKind(path: string, body: Body): string {
    if path != "/mcp" then "mcp:unsupported-path"
    else
      match body
      case Parsed(Array(items)) =>
        var kinds := Kinds(items);
        if kinds == [] then "mcp:unknown-payload" else if AllEqual(kinds) then kinds[0] else "mcp:batch"
      case Parsed(Object(fields)) => MessageKind(Object(fields)).GetOr("mcp:unknown-payload")
      case _ => "mcp:unknown-payload"
  }

  // ---- Billing group ----------------------------------------------------------------------------

  predicate IsMcpKey(key: string) {
    "mcp:" <= Trim(key)
  }

  predicate IsNonBillableKey(key: string) {
    var k := Trim(key);
    || k == "api:research-result" || k == "api:usage" || k == "api:unknown-path"
    || "mcp:initialize" <= k || "mcp:ping" <= k || "mcp:tools/list" <= k
    || k == "mcp:unsupported-path" || k == "mcp:unknown-payload" || k == "mcp:unknown-method" ||
      k == "mcp:third-party-tool"
    || "mcp:resources/" <= k || "mcp:prompts/" <= k || "mcp:notifications/" <= k
  }

  predicate IsNonBillableMessage(v: Value) {
    MessageKind(v).Some? && IsMcpKey(MessageKind(v).value) && IsNonBillableKey(MessageKind(v).value)
  }

  /** A non-empty batch of which every message is provably non-billable. */
  predicate AllNonBillable(body: Body) {
    body.Parsed? && body.value.Array? && body.value.items != [] &&
    forall i :: 0 <= i < |body.value.items| ==> IsNonBillableMessage(body.value.items[i])
  }

  predicate CountsBusinessQuota(key: string, body: Body) {
    Trim(key) != "mcp:batch" || !AllNonBillable(body)
  }

  /** The billing group of a logged request: whether it is filed as non-billable. */
  predicate IsNonBillableRequestLog(key: string, body: Body) {
    (!CountsBusinessQuota(key, body) && Trim(key) == "mcp:batch") || IsNonBillableKey(key)
  }

  predicate IsNonBillableRequest(path: string, body: Body) {
    IsNonBillableRequestLog(McpKind(path, body), body)
  }
}
