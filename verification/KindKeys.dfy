/** Which keys of the log taxonomy are non-billable. */
module KindKeys {
  import opened Wrappers
  import opened Text
  import opened RequestKinds

  lemma McpKeyIsTrimmed(s: string)
    requires s != "" && Trimmed(s)
    ensures Trim("mcp:" + s) == "mcp:" + s && IsMcpKey("mcp:" + s)
  {
    hide Trim;
    var key := "mcp:" + s;
    assert key[0] == 'm' && key[|key| - 1] == s[|s| - 1];
    TrimIsIdempotent(key);
  }

  lemma ConstantKeysAreNonBillable()
    ensures forall k :: k in {"mcp:unsupported-path", "mcp:unknown-payload", "mcp:unknown-method",
                              "mcp:third-party-tool"} ==>
              IsMcpKey(k) && IsNonBillableKey(k)
  {
    TrimIsIdempotent("mcp:unsupported-path");
    TrimIsIdempotent("mcp:unknown-payload");
    TrimIsIdempotent("mcp:unknown-method");
    TrimIsIdempotent("mcp:third-party-tool");
  }

  lemma CallIsTrimmed()
    ensures Trim("tools/call") == "tools/call" && !IsControlMethod("tools/call") && !IsControlMethod("")
  {
    TrimIsIdempotent("tools/call");
    hide Trim;
    assert "tools/call"[0] == 't' && "tools/call"[6] == 'c';
  }

  lemma ControlKeyIsNonBillable(m: string)
    requires IsControlMethod(m)
    ensures Trim(m) != "" && IsControlMethod(Trim(m))
    ensures IsMcpKey("mcp:" + Trim(m)) && IsNonBillableKey("mcp:" + Trim(m))
  {
    if m == "initialize" || m == "ping" || m == "tools/list" {
      ExactControlKey(m);
    } else {
      PrefixControlKey(if "resources/" <= m then "resources/" else if "prompts/" <= m then "prompts/"
                       else "notifications/", m);
    }
  }

  lemma ExactControlKey(m: string)
    requires m == "initialize" || m == "ping" || m == "tools/list"
    ensures Trim(m) == m && IsMcpKey("mcp:" + m) && IsNonBillableKey("mcp:" + m)
  {
    hide Trim, IsNonBillableKey, IsMcpKey;
    assert Trimmed(m);
    TrimIsIdempotent(m);
    McpKeyIsTrimmed(m);
    ExactKeyIsNonBillable(m);
  }

  lemma ExactKeyIsNonBillable(m: string)
    requires m == "initialize" || m == "ping" || m == "tools/list"
    requires Trim("mcp:" + m) == "mcp:" + m
    ensures IsNonBillableKey("mcp:" + m)
  {
    hide Trim;
    assert "mcp:" + "initialize" == "mcp:initialize" && "mcp:" + "ping" == "mcp:ping" &&
      "mcp:" + "tools/list" == "mcp:tools/list";
  }

  lemma PrefixControlKey(p: string, m: string)
    requires p == "resources/" || p == "prompts/" || p == "notifications/"
    requires p <= m
    ensures p <= Trim(m)
    ensures IsMcpKey("mcp:" + Trim(m)) && IsNonBillableKey("mcp:" + Trim(m))
  {
    hide Trim, IsNonBillableKey, IsMcpKey;
    TrimKeepsPrefix(p, m);
    TrimIsIdempotent(m);
    McpKeyIsTrimmed(Trim(m));
    PrefixIsNonBillable(p, Trim(m));
  }

  lemma PrefixIsNonBillable(p: string, s: string)
    requires p == "resources/" || p == "prompts/" || p == "notifications/"
    requires p <= s && Trim("mcp:" + s) == "mcp:" + s
    ensures IsNonBillableKey("mcp:" + s)
  {
    hide Trim;
    assert "mcp:" + p <= "mcp:" + s;
    assert "mcp:" + "resources/" == "mcp:resources/" && "mcp:" + "prompts/" == "mcp:prompts/" &&
      "mcp:" + "notifications/" == "mcp:notifications/";
  }

  lemma TavilyKeysAreBillable(kind: string)
    requires kind in ["search", "extract", "crawl", "map", "research"]
    ensures !IsNonBillableKey("mcp:" + kind)
  {
    var key := "mcp:" + kind;
    McpKeyIsTrimmed(kind);
    hide Trim;
    assert key[4] == kind[0];
    assert "mcp:resources/"[6] == 's' && "mcp:research"[6] == 's' && "mcp:resources/"[7] == 'o' &&
      "mcp:research"[7] == 'e';
    assert key[0] == 'm' && "api:usage"[0] == 'a' && "api:research-result"[0] == 'a' && "api:unknown-path"[0] == 'a';
    assert |"mcp:unknown-payload"| == 19 && |"mcp:unknown-method"| == 18 && |"mcp:unsupported-path"| == 20 &&
      |"mcp:third-party-tool"| == 20;
  }

  lemma BillableKinds()
    ensures forall k :: k in ["search", "extract", "crawl", "map", "research"] ==>
            !IsNonBillableKey("mcp:" + k) && IsMcpKey("mcp:" + k)
  {
    forall k | k in ["search", "extract", "crawl", "map", "research"]
      ensures !IsNonBillableKey("mcp:" + k) && IsMcpKey("mcp:" + k) {
      TavilyKeysAreBillable(k);
      McpKeyIsTrimmed(k);
    }
  }

  lemma BatchKeyIsBillable()
    ensures !IsNonBillableKey("mcp:batch")
  {
    McpKeyIsTrimmed("batch");
    hide Trim;
    assert "mcp:batch"[4] == 'b' && "mcp:batch"[0] == 'm';
    assert "mcp:" + "batch" == "mcp:batch";
  }

  /** A tool call is filed as non-billable unless the tool is one of the five. */
  lemma CallKey(tool: Option<string>)
    ensures IsMcpKey(ToolKind(tool))
    ensures IsNonBillableKey(ToolKind(tool)) <==> tool.None? || TavilyKind(NormalizeTool(tool.value)).None?
  {
    hide IsNonBillableKey, IsMcpKey, NormalizeTool;
    ConstantKeysAreNonBillable();
    BillableKinds();
  }
}
