/** Which requests the taxonomy of the logs files as billable, and where that parts from what the handler bills. */
module McpFiling {
  import opened Wrappers
  import opened Json
  import opened Text
  import opened RequestKinds
  import opened KindKeys
  import opened McpBilling
  import opened McpBillable

  /** A call of one of the five known tools, as the taxonomy reads it. */
  predicate IsTavilyCall(v: Value) {
    && MethodOf(v) == Some("tools/call")
    && ToolOf(v).Some? && TavilyKind(NormalizeTool(ToolOf(v).value)).Some?
  }

  predicate HasTavilyCall(items: seq<Value>) {
    exists i :: 0 <= i < |items| && IsTavilyCall(items[i])
  }

  /** Some message has no method, and so no kind. */
  predicate HasMethodless(items: seq<Value>) {
    exists i :: 0 <= i < |items| && MethodOf(items[i]).None?
  }

  /** Two messages that have kinds have different ones. */
  predicate HasTwoKinds(items: seq<Value>) {
    exists i, j ::
      && 0 <= i < |items| && 0 <= j < |items|
      && MessageKind(items[i]).Some? && MessageKind(items[j]).Some? && MessageKind(items[i]) != MessageKind(items[j])
  }

  /** A batch that mixes kinds, with a message that has none. */
  predicate IsMuddled(v: Value) {
    v.Array? && HasMethodless(v.items) && HasTwoKinds(v.items)
  }

  /** The requests that are filed as billable: those to `/mcp` with a call of a known tool, and the muddled ones. */
  predicate IsFiledBillable(path: string, body: Body) {
    path == "/mcp" && body.Parsed? && (HasTavilyCall(ItemsOf(body.value)) || IsMuddled(body.value))
  }

  // ---- One message ------------------------------------------------------------------------------

  lemma KindOfMessage(v: Value)
    ensures MessageKind(v).None? <==> MethodOf(v).None?
    ensures MessageKind(v).Some? ==> (IsNonBillableMessage(v) <==> !IsTavilyCall(v))
    ensures MessageKind(v).Some? ==> (IsNonBillableKey(MessageKind(v).value) <==> !IsTavilyCall(v))
    ensures MessageKind(v).Some? ==> IsMcpKey(MessageKind(v).value)
  {
    hide IsNonBillableKey, IsMcpKey, Trim, IsControlMethod, NormalizeTool, TavilyKind, ToolKind;
    ConstantKeysAreNonBillable();
    CallIsTrimmed();
    if MethodOf(v).Some? {
      var m := MethodOf(v).value;
      MethodIsTrimmed(v);
      if IsControlMethod(m) { ControlKeyIsNonBillable(m); }
      CallKey(ToolOf(v));
    }
  }

  lemma MethodIsTrimmed(v: Value)
    requires MethodOf(v).Some?
    ensures Trim(MethodOf(v).value) == MethodOf(v).value
  {
    var m := v.GetText("method").value;
    TrimIsIdempotent(m);
    TrimIsIdempotent(Trim(m));
  }

  // ---- A batch ----------------------------------------------------------------------------------

  lemma {:induction false} KindsAre(items: seq<Value>)
    ensures forall i :: 0 <= i < |items| && MessageKind(items[i]).Some? ==> MessageKind(items[i]).value in Kinds(items)
    ensures forall k :: k in Kinds(items) ==> exists i :: 0 <= i < |items| && MessageKind(items[i]) == Some(k)
  {
    hide MessageKind;
    if items != [] {
      var n := |items| - 1;
      KindsAre(items[..n]);
      forall k | k in Kinds(items) ensures exists i :: 0 <= i < |items| && MessageKind(items[i]) == Some(k) {
        if k in Kinds(items[..n]) {
          var i :| 0 <= i < n && MessageKind(items[..n][i]) == Some(k);
          assert MessageKind(items[i]) == Some(k);
        } else {
          assert MessageKind(items[n]) == Some(k);
        }
      }
      forall i | 0 <= i < |items| && MessageKind(items[i]).Some? ensures MessageKind(items[i]).value in Kinds(items) {
        if i < n { assert items[..n][i] == items[i]; }
      }
    }
  }

  lemma KindsAreEqual(items: seq<Value>)
    ensures AllEqual(Kinds(items)) <==> !HasTwoKinds(items)
  {
    hide MessageKind, Kinds;
    KindsAre(items);
    var kinds := Kinds(items);
    if !AllEqual(kinds) {
      var a :| 0 <= a < |kinds| && kinds[a] != kinds[0];
      assert kinds[a] in kinds && kinds[0] in kinds;
      var i :| 0 <= i < |items| && MessageKind(items[i]) == Some(kinds[a]);
      var j :| 0 <= j < |items| && MessageKind(items[j]) == Some(kinds[0]);
    }
    if HasTwoKinds(items) {
      var i, j :| 0 <= i < |items| && 0 <= j < |items| && MessageKind(items[i]).Some? && MessageKind(items[j]).Some?
        && MessageKind(items[i]) != MessageKind(items[j]);
      var a :| 0 <= a < |kinds| && kinds[a] == MessageKind(items[i]).value;
      var b :| 0 <= b < |kinds| && kinds[b] == MessageKind(items[j]).value;
    }
  }

  lemma BatchFiling(items: seq<Value>)
    ensures !IsNonBillableRequest("/mcp", Parsed(Array(items))) <==> HasTavilyCall(items) || IsMuddled(Array(items))
  {
    hide MessageKind, Kinds, IsNonBillableKey, IsMcpKey, IsTavilyCall, IsNonBillableMessage, HasTwoKinds, AllEqual;
    var body, kinds := Parsed(Array(items)), Kinds(items);
    KindsAre(items);
    KindsAreEqual(items);
    ConstantKeysAreNonBillable();
    BatchKeyIsBillable();
    BatchIsTrimmed();
    forall i | 0 <= i < |items|
      ensures MessageKind(items[i]).None? <==> MethodOf(items[i]).None?
      ensures MessageKind(items[i]).Some? ==>
                (IsNonBillableMessage(items[i]) <==> !IsTavilyCall(items[i]))
                && (IsNonBillableKey(MessageKind(items[i]).value) <==> !IsTavilyCall(items[i]))
      ensures IsNonBillableMessage(items[i]) ==> MessageKind(items[i]).Some?
      ensures IsTavilyCall(items[i]) ==> MessageKind(items[i]).Some?
    {
      KindOfMessage(items[i]);
      NeedsMethod(items[i]);
    }
    if kinds == [] {
      NoTwoKinds(items);
    } else {
      assert kinds[0] in kinds;
      var first :| 0 <= first < |items| && MessageKind(items[first]) == Some(kinds[0]);
      if AllEqual(kinds) {
        EqualKindsFiling(items, first);
      }
    }
  }

  lemma NeedsMethod(v: Value)
    ensures IsNonBillableMessage(v) || IsTavilyCall(v) ==> MessageKind(v).Some?
  {
    hide IsNonBillableKey, IsMcpKey;
  }

  lemma BatchIsTrimmed()
    ensures Trim("mcp:batch") == "mcp:batch"
  {
    TrimIsIdempotent("mcp:batch");
  }

  lemma NoTwoKinds(items: seq<Value>)
    requires Kinds(items) == []
    ensures !HasTwoKinds(items)
  {
    hide MessageKind;
    KindsAre(items);
  }

  /** If all kinds are one, the batch is filed under it, and is billable if it is a known tool's. */
  lemma EqualKindsFiling(items: seq<Value>, first: nat)
    requires first < |items| && Kinds(items) != [] && MessageKind(items[first]) == Some(Kinds(items)[0]) &&
             AllEqual(Kinds(items))
    ensures !IsNonBillableRequest("/mcp", Parsed(Array(items))) <==> HasTavilyCall(items)
  {
    hide MessageKind, Kinds, IsNonBillableKey, IsMcpKey, IsTavilyCall, Trim;
    KindsAre(items);
    forall i | 0 <= i < |items|
      ensures MessageKind(items[i]).Some? ==> (IsNonBillableKey(MessageKind(items[i]).value) <==>
                                               !IsTavilyCall(items[i]))
      ensures IsTavilyCall(items[i]) ==> MessageKind(items[i]).Some?
    {
      KindOfMessage(items[i]);
      NeedsMethod(items[i]);
    }
  }

  // ---- Every request ----------------------------------------------------------------------------

  /** A request to an MCP path is filed as billable exactly if it goes to `/mcp` and holds a call of a known tool or
      is muddled. */
  lemma FilingIsExact(path: string, body: Body)
    requires "/mcp" <= path
    ensures !IsNonBillableRequest(path, body) <==> IsFiledBillable(path, body)
  {
    hide MessageKind, Kinds, IsNonBillableKey, IsMcpKey, IsTavilyCall, HasTwoKinds, HasMethodless, AllEqual, Trim;
    ConstantKeysAreNonBillable();
    if path == "/mcp" && body.Parsed? {
      var v := body.value;
      if v.Array? {
        BatchFiling(v.items);
      } else {
        SingleFiling(v);
      }
    }
  }

  lemma SingleFiling(v: Value)
    requires !v.Array?
    ensures !IsNonBillableRequest("/mcp", Parsed(v)) <==> HasTavilyCall([v])
    ensures ItemsOf(v) == [v]
  {
    hide MessageKind, IsNonBillableKey, IsMcpKey, IsTavilyCall, Trim;
    ConstantKeysAreNonBillable();
    KindOfMessage(v);
    NeedsMethod(v);
    NoMethodInOthers(v);
    assert [v][0] == v;
  }

  lemma NoMethodInOthers(v: Value)
    ensures !v.Object? ==> MethodOf(v).None?
  {
  }

  /** The requests below `/mcp` that are billed and yet filed as non-billable: what does not parse; any billable
      item under another path; and any billable item besides calls of known tools, unless the batch is muddled. */
  predicate IsStray(path: string, body: Body) {
    || !body.Parsed?
    || ((exists v :: v in ItemsOf(body.value) && IsBillable(v))
        && (path != "/mcp" || (!HasTavilyCall(ItemsOf(body.value)) && !IsMuddled(body.value))))
  }

  /** The handler's verdict and the filing agree on a request exactly unless it is a stray. */
  lemma VerdictsAgree(path: string, body: Body)
    requires "/mcp" <= path
    ensures (IsBilled(path, body) <==> !IsNonBillableRequest(path, body)) <==> !IsStray(path, body)
    ensures IsBilled(path, body) && IsNonBillableRequest(path, body) <==> IsStray(path, body)
  {
    hide IsNonBillableRequest, HasTavilyCall, IsMuddled, IsBillable;
    FilingIsExact(path, body);
    if !IsNonBillableRequest(path, body) { TaxonomyBillableIsBilled(path, body); }
  }
}
