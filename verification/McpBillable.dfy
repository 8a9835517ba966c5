/** Which requests are billable, and how that decision relates to the taxonomy of the logs. */
module McpBillable {
  import opened Wrappers
  import opened Json
  import opened Text
  import opened RequestKinds
  import opened KindKeys
  import opened McpBilling

  /** The verdict drawn from the running totals. */
  predicate IsFlagged(t: Tally) {
    t.anyBillable && !t.allNonBillable
  }

  predicate IsLockable(t: Tally) {
    t.anyLockable && IsFlagged(t)
  }

  ghost predicate Any(items: seq<Value>, p: Value -> bool) {
    exists v :: v in items && p(v)
  }

  ghost function BilledUnder(id: Option<Value>): Value -> bool { v => IsBillableCall(v) && IdOf(v) == id }

  ghost function SearchesUnder(id: Option<Value>): Value -> bool { v => IsSearchCall(v) && IdOf(v) == id }

  ghost function Uncontrolled(): Value -> bool { v => !IsControl(v) }

  /** What the totals say about the items. */
  ghost predicate Summarizes(t: Tally, items: seq<Value>) {
    && (t.anyBillable <==> Any(items, IsBillable))
    && (t.anyLockable <==> Any(items, Uncontrolled()))
    && (t.allNonBillable <==> !Any(items, Uncontrolled()))
    && (forall id :: id in t.billableIds <==> Any(items, BilledUnder(Some(id))))
    && (t.billableWithoutId <==> Any(items, BilledUnder(None)))
    && (forall id :: id in t.searchIds <==> Any(items, SearchesUnder(Some(id))))
  }

  lemma AnyOneMore(items: seq<Value>, v: Value, p: Value -> bool)
    ensures Any(items + [v], p) <==> Any(items, p) || p(v)
  {
    var more := items + [v];
    assert forall x :: x in more <==> x in items || x == v;
  }

  lemma AddItemSummarizes(p: Pricing, t: Tally, items: seq<Value>, v: Value)
    requires Summarizes(t, items)
    ensures Summarizes(AddItem(p, t, v), items + [v])
  {
    hide AddItem, Any, BilledUnder, SearchesUnder, Uncontrolled, IsBillable;
    FlagsAfter(p, t, v);
    AnyOneMore(items, v, IsBillable);
    AnyOneMore(items, v, Uncontrolled());
    AnyOneMore(items, v, BilledUnder(None));
    forall id
      ensures Any(items + [v], BilledUnder(Some(id))) <==> Any(items, BilledUnder(Some(id))) || BilledUnder(Some(id))(v)
      ensures Any(items + [v], SearchesUnder(Some(id))) <==>
              Any(items, SearchesUnder(Some(id))) || SearchesUnder(Some(id))(v)
    {
      AnyOneMore(items, v, BilledUnder(Some(id)));
      AnyOneMore(items, v, SearchesUnder(Some(id)));
    }
  }

  /** What one tool call does to the flags and id sets. */
  lemma ToolFlags(t: Tally, tool: Tool, id: Option<Value>, reserved: nat, expected: nat)
    ensures var u := AddTool(t, tool, id, reserved, expected);
            && u.anyLockable
            && u.anyBillable == (t.anyBillable || tool != ThirdParty)
            && u.allNonBillable == (t.allNonBillable && tool == ThirdParty)
            && u.billableIds == (if tool != ThirdParty && id.Some? then t.billableIds + {id.value} else t.billableIds)
            && u.billableWithoutId == (t.billableWithoutId || (tool != ThirdParty && id.None?))
            && u.searchIds == (if tool == Search && id.Some? then t.searchIds + {id.value} else t.searchIds)
  {
    hide AddById, SatAdd;
  }

  /** What one item does to the flags and id sets. */
  lemma FlagsAfter(p: Pricing, t: Tally, v: Value)
    ensures var u := AddItem(p, t, v);
            && u.anyBillable == (t.anyBillable || IsBillable(v))
            && u.anyLockable == (t.anyLockable || Uncontrolled()(v))
            && u.allNonBillable == (t.allNonBillable && !Uncontrolled()(v))
            && (forall id :: id in u.billableIds <==> id in t.billableIds || BilledUnder(Some(id))(v))
            && u.billableWithoutId == (t.billableWithoutId || BilledUnder(None)(v))
            && (forall id :: id in u.searchIds <==> id in t.searchIds || SearchesUnder(Some(id))(v))
  {
    hide IdOf, ToolClass, ReservedFor, IsControlMethod, RawMethod, Arguments, AddTool;
    CallIsNoControl(v);
    var u := AddItem(p, t, v);
    var base := if IsControl(v) then t else t.(allNonBillable := false);
    ToolFlags(base, ToolClass(v), IdOf(v), ReservedFor(p, v), p.expected(Arguments(v)));
    assert u.billableIds == if IsBillableCall(v) && IdOf(v).Some? then t.billableIds + {IdOf(v).value}
      else t.billableIds;
    assert u.searchIds == if IsSearchCall(v) && IdOf(v).Some? then t.searchIds + {IdOf(v).value} else t.searchIds;
  }

  lemma CallIsNoControl(v: Value)
    ensures IsCall(v) ==> !IsControl(v)
  {
    var m := RawMethod(v);
    if m == "tools/call" {
      assert m[0] == 't' && m[6] == 'c';
    }
  }

  lemma {:induction false} TallySummarizes(p: Pricing, items: seq<Value>)
    ensures Summarizes(TallyOf(p, items), items)
  {
    hide Summarizes, AddItem;
    if items == [] {
      NothingSummarized();
    } else {
      var n := |items| - 1;
      TallySummarizes(p, items[..n]);
      AddItemSummarizes(p, TallyOf(p, items[..n]), items[..n], items[n]);
      assert items[..n] + [items[n]] == items;
    }
  }

  lemma NothingSummarized()
    ensures Summarizes(EMPTY_TALLY, [])
  {
  }

  // ---- The verdict ------------------------------------------------------------------------------

  /** A parsed request is billable exactly when it holds an item that is not provably a control-plane message
      or a third-party tool call, in whatever place; every billable request is locked. */
  lemma BillableUnlessProven(p: Pricing, body: Value)
    ensures var t := TallyOf(p, ItemsOf(body));
            && (IsFlagged(t) <==> exists v :: v in ItemsOf(body) && IsBillable(v))
            && (IsLockable(t) <==> IsFlagged(t))
  {
    var items := ItemsOf(body);
    TallySummarizes(p, items);
    hide IsBillable, IsControl, IsCall;
    forall v | v in items && IsBillable(v) ensures !IsControl(v) {
      BillableIsNoControl(v);
    }
  }

  lemma BillableIsNoControl(v: Value)
    ensures IsBillable(v) ==> !IsControl(v)
  {
  }

  /** The handler's verdict on a request to a path below `/mcp`; a body that does not parse is billable. */
  predicate IsBilled(path: string, body: Body)
  {
    "/mcp" <= path && (!body.Parsed? || exists v :: v in ItemsOf(body.value) && IsBillable(v))
  }

  /** Every request the log taxonomy files as billable is billed by the handler. */
  lemma TaxonomyBillableIsBilled(path: string, body: Body)
    requires "/mcp" <= path && !IsNonBillableRequest(path, body)
    ensures IsBilled(path, body)
  {
    if !IsBilled(path, body) {
      var items := ItemsOf(body.value);
      forall v | v in items ensures IsNonBillableMessage(v) {
        assert !IsBillable(v);
        UnbilledIsNonBillable(v);
      }
      NonBillableItemsAreFiledSo(path, body.value);
    }
  }

  lemma NonBillableItemsAreFiledSo(path: string, v: Value)
    requires forall item :: item in ItemsOf(v) ==> IsNonBillableMessage(item)
    ensures IsNonBillableRequest(path, Parsed(v))
  {
    ConstantKeysAreNonBillable();
    TrimIsIdempotent("mcp:batch");
    hide IsNonBillableKey, IsMcpKey, MessageKind, Trim;
    if path == "/mcp" {
      if v.Array? {
        KindsOfNonBillable(v.items);
        forall i | 0 <= i < |v.items| ensures IsNonBillableMessage(v.items[i]) {
          assert v.items[i] in ItemsOf(v);
        }
      } else {
        assert v in ItemsOf(v);
      }
    }
  }

  lemma {:induction false} KindsOfNonBillable(items: seq<Value>)
    requires forall v :: v in items ==> IsNonBillableMessage(v)
    ensures |Kinds(items)| == |items|
    ensures forall k :: k in Kinds(items) ==> IsNonBillableKey(k)
  {
    if items != [] {
      hide IsNonBillableKey, IsMcpKey, MessageKind;
      var n := |items| - 1;
      KindsOfNonBillable(items[..n]);
      assert items[n] in items;
    }
  }

  /** What the handler leaves unbilled, the taxonomy files as non-billable. */
  lemma UnbilledIsNonBillable(v: Value)
    requires !IsBillable(v)
    ensures IsNonBillableMessage(v)
  {
    hide IsNonBillableKey, IsMcpKey, IsControlMethod, ToolClass, ToolKind, Trim;
    ConstantKeysAreNonBillable();
    CallIsTrimmed();
    if IsControl(v) {
      ControlKeyIsNonBillable(RawMethod(v));
    } else {
      CallIsNoControl(v);
      ThirdPartyIsNoTavilyTool(v);
    }
  }

  lemma ThirdPartyIsNoTavilyTool(v: Value)
    requires IsCall(v) && ToolClass(v) == ThirdParty
    ensures ToolOf(v).Some? && ToolKind(ToolOf(v)) == "mcp:third-party-tool"
  {
    TrimIsIdempotent(Params(v).GetText("name").GetOr(""));
    TrimIsIdempotent(ToolName(v));
  }

  /** The converse fails: an unknown method is billed by default, yet filed as non-billable. */
  lemma UnknownMethodIsBilledButNotFiled()
    ensures var body := Parsed(Object([Field("method", String("foo"))]));
            IsBilled("/mcp", body) && IsNonBillableRequest("/mcp", body)
  {
    hide IsNonBillableKey, IsMcpKey, Trim, IsControlMethod;
    var v := Object([Field("method", String("foo"))]);
    FooIsUnknown(v);
    assert v in ItemsOf(v);
    ConstantKeysAreNonBillable();
  }

  lemma FooIsUnknown(v: Value)
    requires v == Object([Field("method", String("foo"))])
    ensures RawMethod(v) == "foo" != "tools/call" && !IsControlMethod("foo") &&
            MessageKind(v) == Some("mcp:unknown-method")
  {
    var foo := "foo";
    assert foo[0] == 'f' && foo[2] == 'o';
    assert v.GetText("method") == Some(foo);
    TrimIsIdempotent(foo);
    hide Trim;
  }
}
