/** What an MCP request may cost: the scan that decides whether it is billable, which calls are billed
    under which JSON-RPC id, and how many credits are reserved for it. */
module McpBilling {
  import opened Wrappers
  import opened Json
  import opened Text
  import opened RequestKinds

  /** The largest 64-bit credit count, at which the additions saturate. */
  const MAX_CREDITS := 0x7FFF_FFFF_FFFF_FFFF

  function Cap(n: nat): nat {
    if n > MAX_CREDITS then MAX_CREDITS else n
  }

  function SatAdd(a: nat, b: nat): nat {
    Cap(a + b)
  }

  /** The price list: credits reserved for a call of a known tool, and credits a search is expected to cost. */
  datatype Pricing = Pricing(reserved: (string, Value) -> nat, expected: Value -> nat)

  /** A search reserves what it is expected to cost, which is never nothing. */
  ghost predicate IsPricing(p: Pricing) {
    forall args :: p.reserved("tavily-search", args) == p.expected(args) && 0 < p.expected(args)
  }

  // ---- One item ---------------------------------------------------------------------------------

  /** The method as written, not trimmed; empty if missing. */
  function RawMethod(v: Value): string {
    v.GetText("method").GetOr("")
  }

  predicate IsControl(v: Value) {
    v.Object? && IsControlMethod(RawMethod(v))
  }

  predicate IsCall(v: Value) {
    v.Object? && RawMethod(v) == "tools/call"
  }

  function IdOf(v: Value): Option<Value> {
    match v.Get("id")
    case Some(Null) => None
    case id => id
  }

  datatype Tool = MissingParams | Nameless | ThirdParty | Search | Metered | Research | UnknownTavily

  function Params(v: Value): Value {
    v.Get("params").GetOr(Null)
  }

  function ToolName(v: Value): string {
    Trim(Params(v).GetText("name").GetOr(""))
  }

  function NormalizedTool(v: Value): string {
    Dashed(Lower(ToolName(v)))
  }

  function Arguments(v: Value): Value {
    Params(v).Get("arguments").GetOr(Null)
  }

  function ToolClass(v: Value): Tool {
    if !Params(v).Object? then MissingParams
    else
      var t := NormalizedTool(v);
      if t == "tavily-search" then Search
      else if t == "tavily-extract" || t == "tavily-crawl" || t == "tavily-map" then Metered
      else if t == "tavily-research" then Research
      else if "tavily-" <= t then UnknownTavily
      else if ToolName(v) == "" then Nameless
      else ThirdParty
  }

  /** A call that is billed unless it provably goes to a third-party tool. */
  predicate IsBillableCall(v: Value) {
    IsCall(v) && ToolClass(v) != ThirdParty
  }

  /** An item is billable unless it is provably a control-plane message or a third-party tool call. */
  predicate IsBillable(v: Value) {
    !IsControl(v) && !(IsCall(v) && ToolClass(v) == ThirdParty)
  }

  predicate IsSearchCall(v: Value) {
    IsCall(v) && ToolClass(v) == Search
  }

  /** Credits set aside for one item. */
  function ReservedFor(p: Pricing, v: Value): nat {
    if !IsCall(v) then 0
    else
      match ToolClass(v)
      case Search => p.reserved("tavily-search", Arguments(v))
      case Metered => p.reserved(NormalizedTool(v), Arguments(v))
      case Research => p.reserved("tavily-research", Arguments(v))
      case UnknownTavily => 1
      case _ => 0
  }

  // ---- The running totals of a request ----------------------------------------------------------

  datatype Tally = Tally(
    anyBillable: bool, anyLockable: bool, allNonBillable: bool,
    reservedTotal: nat, expectedTotal: nat,
    billableIds: set<Value>, searchIds: set<Value>, billableWithoutId: bool,
    fallbackById: map<Value, nat>, fallbackWithoutId: nat, expectedById: map<Value, nat>)

  const EMPTY_TALLY := Tally(false, false, true, 0, 0, {}, {}, false, map[], 0, map[])

  function AddById(m: map<Value, nat>, id: Value, n: nat): map<Value, nat> {
    m[id := if id in m then SatAdd(m[id], n) else n]
  }

  /** What a call of the given class adds under the given id. */
  function AddTool(t: Tally, tool: Tool, id: Option<Value>, reserved: nat, expected: nat): Tally {
    if tool == ThirdParty then t.(anyLockable := true)
    else
      var t := t.(anyLockable := true, anyBillable := true, allNonBillable := false,
                  billableIds := if id.Some? then t.billableIds + {id.value} else t.billableIds,
                  billableWithoutId := t.billableWithoutId || id.None?);
      match tool
      case Search =>
        t.(searchIds := if id.Some? then t.searchIds + {id.value} else t.searchIds,
           reservedTotal := SatAdd(t.reservedTotal, reserved),
           expectedTotal := SatAdd(t.expectedTotal, expected),
           expectedById := if id.Some? then AddById(t.expectedById, id.value, expected) else t.expectedById)
      case Research =>
        t.(reservedTotal := SatAdd(t.reservedTotal, reserved),
           fallbackById := if id.Some? then AddById(t.fallbackById, id.value, reserved) else t.fallbackById,
           fallbackWithoutId := if id.Some? then t.fallbackWithoutId else SatAdd(t.fallbackWithoutId, reserved))
      case Metered => t.(reservedTotal := SatAdd(t.reservedTotal, reserved))
      case UnknownTavily => t.(reservedTotal := SatAdd(t.reservedTotal, reserved))
      case _ => t
  }

  function AddCall(p: Pricing, t: Tally, v: Value): Tally {
    AddTool(t, ToolClass(v), IdOf(v), ReservedFor(p, v), p.expected(Arguments(v)))
  }

  function AddItem(p: Pricing, t: Tally, v: Value): Tally {
    if !v.Object? then t.(anyBillable := true, anyLockable := true, allNonBillable := false)
    else
      var t := if IsControl(v) then t else t.(allNonBillable := false);
      if IsCall(v) then AddCall(p, t, v)
      else if IsControl(v) then t
      else t.(anyBillable := true, anyLockable := true)
  }

  function TallyOf(p: Pricing, items: seq<Value>): Tally {
    if items == [] then EMPTY_TALLY
    else
      var n := |items| - 1;
      AddItem(p, TallyOf(p, items[..n]), items[n])
  }

  predicate IsListed(tool: string) {
    tool == "tavily-search" || tool == "tavily-extract" || tool == "tavily-crawl" || tool == "tavily-map" ||
    tool == "tavily-research"
  }

  /** What one call reserves, by the name of its tool: the listed price of a known one with its arguments, one credit
      for any other of the `tavily-` tools, nothing without such a name. Missing arguments are priced as null. */
  lemma CallReserves(p: Pricing, call: Value, params: Value, arguments: Value)
    requires IsCall(call) && call.Get("params") == Some(params)
    requires params.Get("arguments") == Some(arguments) || (params.Get("arguments") == None && arguments == Null)
    ensures var (reserved, tool) := (TallyOf(p, [call]).reservedTotal, NormalizedTool(call));
            && (params.Object? && IsListed(tool) ==> reserved == Cap(p.reserved(tool, arguments)))
            && (params.Object? && "tavily-" <= tool && !IsListed(tool) ==> reserved == 1)
            && (!params.Object? || !("tavily-" <= tool) ==> reserved == 0)
  {
    assert Params(call) == params && Arguments(call) == arguments;
    ReservedByName(p, call);
    hide ToolClass, NormalizedTool, Arguments, IdOf, IsListed, Params;
    OneCallTally(p, call);
    hide ReservedFor;
  }

  lemma OneCallTally(p: Pricing, call: Value)
    requires IsCall(call)
    ensures TallyOf(p, [call]).reservedTotal ==
            if ToolClass(call) in {Search, Metered, Research, UnknownTavily} then Cap(ReservedFor(p, call)) else 0
  {
    hide ReservedFor, ToolClass, NormalizedTool, Arguments, IdOf, IsListed, Params;
    assert [call][..0] == [];
    assert TallyOf(p, [call][..0]) == EMPTY_TALLY;
  }

  lemma ReservedByName(p: Pricing, call: Value)
    requires IsCall(call)
    ensures var (tool, arguments) := (NormalizedTool(call), Arguments(call));
            && (Params(call).Object? && IsListed(tool) ==> ReservedFor(p, call) == p.reserved(tool, arguments))
            && (Params(call).Object? && "tavily-" <= tool && !IsListed(tool) ==> ReservedFor(p, call) == 1)
            && (!Params(call).Object? || !("tavily-" <= tool) ==> ReservedFor(p, call) == 0)
            && (ReservedFor(p, call) > 0 ==> ToolClass(call) in {Search, Metered, Research, UnknownTavily})
  {
    ListedNames();
    hide NormalizedTool, Arguments, IsCall;
  }

  lemma ListedNames()
    ensures forall tool :: IsListed(tool) ==> "tavily-" <= tool
  {
  }

  /** A billed call is billed under its id; a missing id and the id null are none. */
  lemma CallIsBilledUnderId(p: Pricing, call: Value)
    requires IsBillableCall(call)
    ensures var (t, id) := (TallyOf(p, [call]), call.Get("id"));
            && (id == None || id == Some(Null) ==> t.billableWithoutId && t.billableIds == {})
            && (id.Some? && id != Some(Null) ==> !t.billableWithoutId && t.billableIds == {id.value})
  {
    hide ToolClass, ReservedFor, Arguments, AddById;
    assert [call][..0] == [];
    assert TallyOf(p, [call][..0]) == EMPTY_TALLY;
  }

  /** A tool is recognised in any case and with underscores or dashes. */
  lemma SearchAsWritten(call: Value)
    requires Params(call).GetText("name") == Some("Tavily_Search")
    ensures ToolClass(call) == Search
  {
    NameAsWritten();
    hide Trim, Lower, Dashed;
  }

  lemma NameAsWritten()
    ensures Trim("Tavily_Search") == "Tavily_Search"
    ensures Dashed(Lower("Tavily_Search")) == "tavily-search"
  {
    var name := "Tavily_Search";
    TrimIsIdempotent(name);
    var dashed := Dashed(Lower(name));
    assert |dashed| == |name|;
    forall i | 0 <= i < |name| ensures dashed[i] == "tavily-search"[i] {
    }
  }

  /** The items of a request body; a body that is neither an object nor an array is one unreadable item. */
  function ItemsOf(v: Value): seq<Value> {
    if v.Array? then v.items else [v]
  }

  predicate HasDuplicateId(items: seq<Value>) {
    exists i, j :: 0 <= i < j < |items| && IdOf(items[i]).Some? && IdOf(items[i]) == IdOf(items[j])
  }

  // ---- The scan as the handler runs it ----------------------------------------------------------

  class BillingScan {
    var anyBillable: bool
    var anyLockable: bool
    var allNonBillable: bool
    var reservedTotal: nat
    var expectedTotal: nat
    var billableIds: set<Value>
    var searchIds: set<Value>
    var billableWithoutId: bool
    var fallbackById: map<Value, nat>
    var fallbackWithoutId: nat
    var expectedById: map<Value, nat>
    var invalid: bool

    function Totals(): Tally
      reads this
    {
      Tally(anyBillable, anyLockable, allNonBillable, reservedTotal, expectedTotal, billableIds, searchIds,
            billableWithoutId, fallbackById, fallbackWithoutId, expectedById)
    }

    constructor ()
      ensures Totals() == EMPTY_TALLY && !invalid
    {
      anyBillable, anyLockable, allNonBillable := false, false, true;
      reservedTotal, expectedTotal, billableIds, searchIds := 0, 0, {}, {};
      billableWithoutId, fallbackById, fallbackWithoutId, expectedById, invalid := false, map[], 0, map[], false;
    }

    method HandleToolCall(p: Pricing, call: Value)
      requires IsCall(call)
      modifies this
      ensures Totals() == AddCall(p, old(Totals()), call) && invalid == old(invalid)
    {
      hide ToolClass, IdOf, Arguments, AddById, SatAdd, ReservedFor;
      anyLockable := true;
      var id := IdOf(call);
      var reserved := ReservedFor(p, call);
      if ToolClass(call) == ThirdParty {
        return;  // proven non-Tavily: not charged
      }
      BillUnder(id);
      match ToolClass(call) {
        case Search =>
          RecordReserved(reserved);
          RecordExpectedSearch(id, p.expected(Arguments(call)));
        case Research =>
          RecordReserved(reserved);
          RecordMissingUsageFallback(id, reserved);
        case Metered => RecordReserved(reserved);
        case UnknownTavily => RecordReserved(reserved);
        case _ =>
      }
    }

    method RecordReserved(n: nat)
      modifies this`reservedTotal
      ensures Totals() == old(Totals()).(reservedTotal := SatAdd(old(reservedTotal), n))
    {
      reservedTotal := SatAdd(reservedTotal, n);
    }

    method RecordExpectedSearch(id: Option<Value>, n: nat)
      modifies this`searchIds, this`expectedTotal, this`expectedById
      ensures Totals() == old(Totals()).(
                searchIds := if id.Some? then old(searchIds) + {id.value} else old(searchIds),
                expectedTotal := SatAdd(old(expectedTotal), n),
                expectedById := if id.Some? then AddById(old(expectedById), id.value, n) else old(expectedById))
    {
      expectedTotal := SatAdd(expectedTotal, n);
      if id.Some? {
        searchIds := searchIds + {id.value};
        expectedById := AddById(expectedById, id.value, n);
      }
    }

    method RecordMissingUsageFallback(id: Option<Value>, n: nat)
      modifies this`fallbackById, this`fallbackWithoutId
      ensures Totals() == old(Totals()).(
                fallbackById := if id.Some? then AddById(old(fallbackById), id.value, n) else old(fallbackById),
                fallbackWithoutId := if id.Some? then old(fallbackWithoutId) else SatAdd(old(fallbackWithoutId), n))
    {
      if id.Some? {
        fallbackById := AddById(fallbackById, id.value, n);
      } else {
        fallbackWithoutId := SatAdd(fallbackWithoutId, n);
      }
    }

    method BillUnder(id: Option<Value>)
      modifies this`anyBillable, this`allNonBillable, this`billableIds, this`billableWithoutId
      ensures Totals() == old(Totals()).(anyBillable := true, allNonBillable := false,
                                         billableIds := if id.Some? then old(billableIds) + {id.value}
                                           else old(billableIds),
                                         billableWithoutId := old(billableWithoutId) || id.None?)
    {
      anyBillable, allNonBillable := true, false;
      if id.Some? {
        billableIds := billableIds + {id.value};
      } else {
        billableWithoutId := true;
      }
    }

    method ScanItem(p: Pricing, item: Value)
      modifies this
      ensures Totals() == AddItem(p, old(Totals()), item) && invalid == old(invalid)
    {
      if !item.Object? {
        anyBillable, anyLockable, allNonBillable := true, true, false;
        return;
      }
      var method_ := RawMethod(item);
      var nonBillable := IsControlMethod(method_);
      if !nonBillable {
        allNonBillable := false;
      }
      if method_ == "tools/call" {
        HandleToolCall(p, item);
      } else if !nonBillable {
        anyBillable, anyLockable := true, true;
      }
    }

    /** Scans a parsed body. Only a batch is checked for repeated ids. */
    method Scan(p: Pricing, body: Value)
      requires Totals() == EMPTY_TALLY && !invalid
      modifies this
      ensures Totals() == TallyOf(p, ItemsOf(body))
      ensures invalid <==> body.Array? && HasDuplicateId(body.items)
    {
      hide TallyOf, HasDuplicateId, AddItem, IdOf;
      if body.Array? {
        var seenIds: set<Value> := {};
        NothingScanned(p);
        for i := 0 to |body.items|
          invariant Totals() == TallyOf(p, body.items[..i])
          invariant SeenIn(body.items[..i], seenIds)
          invariant invalid <==> HasDuplicateId(body.items[..i])
        {
          var item := body.items[i];
          assert body.items[..i + 1] == body.items[..i] + [item];
          ScanOneMore(p, body.items[..i], item, seenIds);
          var id := IdOf(item);
          if id.Some? && id.value in seenIds {
            invalid := true;
          }
          seenIds := if id.Some? then seenIds + {id.value} else seenIds;
          ScanItem(p, item);
        }
        assert body.items[..|body.items|] == body.items;
      } else {
        NothingScanned(p);
        ScanOneMore(p, [], body, {});
        assert [] + [body] == [body];
        ScanItem(p, body);
      }
    }
  }

  ghost predicate SeenIn(items: seq<Value>, seenIds: set<Value>) {
    forall id :: id in seenIds <==> exists j :: 0 <= j < |items| && IdOf(items[j]) == Some(id)
  }

  lemma NothingScanned(p: Pricing)
    ensures TallyOf(p, []) == EMPTY_TALLY && !HasDuplicateId([]) && SeenIn([], {})
  {
  }

  lemma ScanOneMore(p: Pricing, items: seq<Value>, v: Value, seenIds: set<Value>)
    requires SeenIn(items, seenIds)
    ensures TallyOf(p, items + [v]) == AddItem(p, TallyOf(p, items), v)
    ensures SeenIn(items + [v], if IdOf(v).Some? then seenIds + {IdOf(v).value} else seenIds)
    ensures HasDuplicateId(items + [v]) <==> HasDuplicateId(items) || (IdOf(v).Some? && IdOf(v).value in seenIds)
  {
    hide AddItem, IdOf;
    assert (items + [v])[..|items|] == items;
    DuplicateOneMore(items, v);
    SeenOneMore(items, v, seenIds);
    if IdOf(v).Some? && IdOf(v).value in seenIds {
      var j :| 0 <= j < |items| && IdOf(items[j]) == Some(IdOf(v).value);
    }
  }

  lemma SeenOneMore(items: seq<Value>, v: Value, seenIds: set<Value>)
    requires SeenIn(items, seenIds)
    ensures SeenIn(items + [v], if IdOf(v).Some? then seenIds + {IdOf(v).value} else seenIds)
  {
    hide IdOf;
    var more := items + [v];
    forall id ensures (exists j :: 0 <= j < |more| && IdOf(more[j]) == Some(id)) <==>
                      (exists j :: 0 <= j < |items| && IdOf(items[j]) == Some(id)) || IdOf(v) == Some(id)
    {
      if j :| 0 <= j < |items| && IdOf(items[j]) == Some(id) { assert more[j] == items[j]; }
      assert more[|items|] == v;
    }
  }

  lemma DuplicateOneMore(items: seq<Value>, v: Value)
    ensures HasDuplicateId(items + [v]) <==>
            HasDuplicateId(items) || (IdOf(v).Some? && exists i :: 0 <= i < |items| && IdOf(items[i]) == IdOf(v))
  {
    var more := items + [v];
    if HasDuplicateId(items) {
      var i, j :| 0 <= i < j < |items| && IdOf(items[i]).Some? && IdOf(items[i]) == IdOf(items[j]);
      assert more[i] == items[i] && more[j] == items[j];
    }
    if i :| IdOf(v).Some? && 0 <= i < |items| && IdOf(items[i]) == IdOf(v) {
      assert more[i] == items[i] && more[|items|] == v;
    }
  }
}
