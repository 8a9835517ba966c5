/** What an MCP response costs: credits are observed per JSON-RPC id, guarded by the errors seen for that
    id, with a fallback for calls whose usage was not reported. */
module McpCharge {
  import opened Wrappers
  import opened Json
  import opened McpBilling
  import opened Sums

  // ---- Reports ----------------------------------------------------------------------------------

  /** How a response message is read: the credits found anywhere inside it, and whether it is anything but
      a clear success. Both are properties of the one message. */
  datatype Reader = Reader(usage: Value -> Option<nat>, failed: Value -> bool)

  /** The objects of a message; nested arrays are flattened. */
  function Flatten(v: Value): seq<Value> {
    match v
    case Array(items) => FlattenAll(items)
    case Object(_) => [v]
    case _ => []
  }

  function FlattenAll(items: seq<Value>): seq<Value> {
    if items == [] then [] else Flatten(items[0]) + FlattenAll(items[1..])
  }

  lemma {:induction false} FlattenAllConcat(a: seq<Value>, b: seq<Value>)
    ensures FlattenAll(a + b) == FlattenAll(a) + FlattenAll(b)
  {
    if a == [] {
      assert a + b == b;
    } else {
      assert (a + b)[1..] == a[1..] + b;
      FlattenAllConcat(a[1..], b);
    }
  }

  ghost predicate IsReported(reports: seq<Value>, id: Value) {
    exists r :: r in reports && IdOf(r) == Some(id)
  }

  ghost predicate HasFailed(rd: Reader, reports: seq<Value>, id: Value) {
    exists r :: r in reports && IdOf(r) == Some(id) && rd.failed(r)
  }

  ghost predicate HasUsage(rd: Reader, reports: seq<Value>, id: Value) {
    exists r :: r in reports && IdOf(r) == Some(id) && rd.usage(r).Some?
  }

  /** The highest credits any report states for an id. */
  ghost predicate IsPeak(rd: Reader, reports: seq<Value>, id: Value, n: nat) {
    && (exists r :: r in reports && IdOf(r) == Some(id) && rd.usage(r) == Some(n))
    && (forall r :: r in reports && IdOf(r) == Some(id) && rd.usage(r).Some? ==> rd.usage(r).value <= n)
  }

  ghost predicate IsCreditsById(rd: Reader, reports: seq<Value>, out: map<Value, nat>) {
    && (forall id :: HasUsage(rd, reports, id) ==> id in out)
    && (forall id :: id in out ==> IsPeak(rd, reports, id, out[id]))
  }

  ghost predicate IsErrorsById(rd: Reader, reports: seq<Value>, out: map<Value, bool>) {
    && (forall id :: IsReported(reports, id) <==> id in out)
    && (forall id :: id in out ==> (out[id] <==> HasFailed(rd, reports, id)))
  }

  // ---- The extractors ---------------------------------------------------------------------------

  method IngestCredits(rd: Reader, v: Value, out: map<Value, nat>, ghost seen: seq<Value>)
    returns (out': map<Value, nat>)
    requires IsCreditsById(rd, seen, out)
    ensures IsCreditsById(rd, seen + Flatten(v), out')
    decreases v
  {
    hide IsCreditsById;
    out' := out;
    match v {
      case Array(items) =>
        assert seen + FlattenAll(items[..0]) == seen;
        for i := 0 to |items|
          invariant IsCreditsById(rd, seen + FlattenAll(items[..i]), out')
        {
          out' := IngestCredits(rd, items[i], out', seen + FlattenAll(items[..i]));
          FlattenStep(items, i, seen);
        }
        assert items[..|items|] == items;
      case Object(_) =>
        CreditsOneMore(rd, seen, v, out);
        var id := IdOf(v);
        if id.Some? && rd.usage(v).Some? {
          var credits := rd.usage(v).value;
          out' := out[id.value := if id.value in out && out[id.value] > credits then out[id.value] else credits];
        }
      case _ => assert seen + [] == seen;
    }
  }

  method IngestErrors(rd: Reader, v: Value, out: map<Value, bool>, ghost seen: seq<Value>)
    returns (out': map<Value, bool>)
    requires IsErrorsById(rd, seen, out)
    ensures IsErrorsById(rd, seen + Flatten(v), out')
    decreases v
  {
    hide IsErrorsById;
    out' := out;
    match v {
      case Array(items) =>
        assert seen + FlattenAll(items[..0]) == seen;
        for i := 0 to |items|
          invariant IsErrorsById(rd, seen + FlattenAll(items[..i]), out')
        {
          out' := IngestErrors(rd, items[i], out', seen + FlattenAll(items[..i]));
          FlattenStep(items, i, seen);
        }
        assert items[..|items|] == items;
      case Object(_) =>
        ErrorsOneMore(rd, seen, v, out);
        var id := IdOf(v);
        if id.Some? {
          out' := out[id.value := (id.value in out && out[id.value]) || rd.failed(v)];
        }
      case _ => assert seen + [] == seen;
    }
  }

  lemma FlattenStep(items: seq<Value>, i: nat, seen: seq<Value>)
    requires i < |items|
    ensures seen + FlattenAll(items[..i]) + Flatten(items[i]) == seen + FlattenAll(items[..i + 1])
  {
    assert items[..i + 1] == items[..i] + [items[i]];
    FlattenAllConcat(items[..i], [items[i]]);
    assert [items[i]][1..] == [];
    assert FlattenAll([items[i]]) == Flatten(items[i]);
  }

  lemma CreditsOneMore(rd: Reader, seen: seq<Value>, v: Value, out: map<Value, nat>)
    requires IsCreditsById(rd, seen, out)
    ensures var id := IdOf(v);
            IsCreditsById(rd, seen + [v],
                          if id.Some? && rd.usage(v).Some?
                          then out[id.value := if id.value in out &&
                                   out[id.value] > rd.usage(v).value then out[id.value] else rd.usage(v).value]
                          else out)
  {
    hide IdOf;
    var more := seen + [v];
    assert v in more;
    forall r ensures r in more <==> r in seen || r == v {
    }
    forall id ensures HasUsage(rd, more, id) <==> HasUsage(rd, seen, id) || (IdOf(v) == Some(id) && rd.usage(v).Some?) {
    }
  }

  lemma ErrorsOneMore(rd: Reader, seen: seq<Value>, v: Value, out: map<Value, bool>)
    requires IsErrorsById(rd, seen, out)
    ensures var id := IdOf(v);
            IsErrorsById(rd, seen + [v],
                         if id.Some? then out[id.value := (id.value in out && out[id.value]) || rd.failed(v)] else out)
  {
    hide IdOf;
    var more := seen + [v];
    assert v in more;
    forall r ensures r in more <==> r in seen || r == v {
    }
    forall id
      ensures IsReported(more, id) <==> IsReported(seen, id) || IdOf(v) == Some(id)
      ensures HasFailed(rd, more, id) <==> HasFailed(rd, seen, id) || (IdOf(v) == Some(id) && rd.failed(v))
    {
    }
  }

  /** The highest credits reported per id, over all messages of a response. */
  method CreditsById(rd: Reader, messages: seq<Value>) returns (out: map<Value, nat>)
    ensures IsCreditsById(rd, FlattenAll(messages), out)
  {
    assert IsCreditsById(rd, [], map[]);
    out := IngestCredits(rd, Array(messages), map[], []);
    assert [] + FlattenAll(messages) == FlattenAll(messages);
  }

  /** Whether anything went wrong, per id, over all messages of a response. */
  method ErrorsById(rd: Reader, messages: seq<Value>) returns (out: map<Value, bool>)
    ensures IsErrorsById(rd, FlattenAll(messages), out)
  {
    assert IsErrorsById(rd, [], map[]);
    out := IngestErrors(rd, Array(messages), map[], []);
    assert [] + FlattenAll(messages) == FlattenAll(messages);
  }

  // ---- The charge -------------------------------------------------------------------------------

  /** What a call whose usage was not reported costs. */
  function Fallback(t: Tally, id: Value): nat {
    if id in t.searchIds && id in t.expectedById then t.expectedById[id]
    else if id in t.fallbackById then t.fallbackById[id]
    else 0
  }

  ghost function Peak(rd: Reader, reports: seq<Value>, id: Value): nat
    requires HasUsage(rd, reports, id)
  {
    PeakExists(rd, reports, id);
    var n: nat :| IsPeak(rd, reports, id, n);
    n
  }

  /** What one billable id owes: nothing if it is missing from the response or failed anywhere in it, else the
      highest credits it reports, else its fallback. An empty answer to a search counts as neither. */
  ghost function Owed(rd: Reader, t: Tally, reports: seq<Value>, emptySearch: bool, id: Value): nat {
    if !emptySearch && (!IsReported(reports, id) || HasFailed(rd, reports, id)) then 0
    else if HasUsage(rd, reports, id) then Peak(rd, reports, id)
    else Fallback(t, id)
  }

  ghost function OwedBy(rd: Reader, t: Tally, reports: seq<Value>, emptySearch: bool): Value -> int {
    id => Owed(rd, t, reports, emptySearch, id)
  }

  /** What a response costs when every billable call has an id. */
  ghost function TotalOwed(rd: Reader, t: Tally, reports: seq<Value>, emptySearch: bool): nat {
    SumSubset({}, t.billableIds, OwedBy(rd, t, reports, emptySearch));
    SumOver(t.billableIds, OwedBy(rd, t, reports, emptySearch))
  }

  lemma {:induction false} PeakExists(rd: Reader, reports: seq<Value>, id: Value)
    requires HasUsage(rd, reports, id)
    ensures exists n: nat :: IsPeak(rd, reports, id, n)
  {
    var k := |reports| - 1;
    var init, last := reports[..k], reports[k];
    assert reports == init + [last];
    assert forall r :: r in reports <==> r in init || r == last;
    var mine := IdOf(last) == Some(id) && rd.usage(last).Some?;
    if HasUsage(rd, init, id) {
      PeakExists(rd, init, id);
      var n: nat :| IsPeak(rd, init, id, n);
      if mine && rd.usage(last).value > n {
        assert IsPeak(rd, reports, id, rd.usage(last).value);
      } else {
        assert IsPeak(rd, reports, id, n);
      }
    } else {
      assert mine;
      assert IsPeak(rd, reports, id, rd.usage(last).value);
    }
  }

  /** The loop over the billable ids, in whatever order the hash set yields them. */
  method ChargeByIds(rd: Reader, t: Tally, messages: seq<Value>, emptySearch: bool) returns (total: nat)
    ensures total == Cap(TotalOwed(rd, t, FlattenAll(messages), emptySearch))
  {
    hide IsErrorsById, IsCreditsById, Owed;
    var errors := ErrorsById(rd, messages);
    var credits := CreditsById(rd, messages);
    ghost var owed := OwedBy(rd, t, FlattenAll(messages), emptySearch);
    total := 0;
    var left := t.billableIds;
    while left != {}
      invariant left <= t.billableIds
      invariant 0 <= SumOver(t.billableIds - left, owed) && total == Cap(SumOver(t.billableIds - left, owed))
      decreases left
    {
      var id :| id in left;
      OwedAsComputed(rd, t, FlattenAll(messages), emptySearch, id, errors, credits);
      assert t.billableIds - (left - {id}) == (t.billableIds - left) + {id};
      SumExtract((t.billableIds - left) + {id}, owed, id);
      assert (t.billableIds - left) + {id} - {id} == t.billableIds - left;
      left := left - {id};
      var hasError := if emptySearch then false else if id in errors then errors[id] else true;
      if hasError {
        continue;
      }
      if id in credits {
        total := SatAdd(total, credits[id]);
      } else if id in t.searchIds && id in t.expectedById {
        total := SatAdd(total, t.expectedById[id]);
      } else if id in t.fallbackById {
        total := SatAdd(total, t.fallbackById[id]);
      }
    }
    assert t.billableIds - {} == t.billableIds;
  }

  lemma OwedAsComputed(rd: Reader, t: Tally, reports: seq<Value>, emptySearch: bool, id: Value,
                       errors: map<Value, bool>, credits: map<Value, nat>)
    requires IsErrorsById(rd, reports, errors) && IsCreditsById(rd, reports, credits)
    ensures Owed(rd, t, reports, emptySearch, id) ==
            if !emptySearch && (if id in errors then errors[id] else true) then 0
            else if id in credits then credits[id]
            else Fallback(t, id)
  {
    if id in credits {
      assert IsPeak(rd, reports, id, credits[id]);
      assert HasUsage(rd, reports, id);
      PeakIsUnique(rd, reports, id, credits[id], Peak(rd, reports, id));
    }
  }

  lemma PeakIsUnique(rd: Reader, reports: seq<Value>, id: Value, a: nat, b: nat)
    requires IsPeak(rd, reports, id, a) && IsPeak(rd, reports, id, b)
    ensures a == b
  {
  }

  // ---- The charge from the request --------------------------------------------------------------

  /** What one item of a request costs: only a billable call with an id costs anything, and only if its id is reported
      and nowhere failed; then the highest credits reported for it or, without any, what a search is expected to cost
      and what a research reserves. An empty answer to a search counts as neither missing nor failed. */
  ghost function CostOf(rd: Reader, p: Pricing, reports: seq<Value>, emptySearch: bool, v: Value): nat {
    if !IsBillableCall(v) || IdOf(v).None? then 0
    else
      var id := IdOf(v).value;
      if !(emptySearch || (IsReported(reports, id) && !HasFailed(rd, reports, id))) then 0
      else if HasUsage(rd, reports, id) then Peak(rd, reports, id)
      else Unreported(p, v)
  }

  /** The cost of a billable call whose usage is not reported. */
  function Unreported(p: Pricing, v: Value): nat {
    match ToolClass(v)
    case Search => p.expected(Arguments(v))
    case Research => p.reserved("tavily-research", Arguments(v))
    case _ => 0
  }

  ghost function CostSum(rd: Reader, p: Pricing, reports: seq<Value>, emptySearch: bool, items: seq<Value>): nat {
    if items == [] then 0
    else
      var n := |items| - 1;
      CostSum(rd, p, reports, emptySearch, items[..n]) + CostOf(rd, p, reports, emptySearch, items[n])
  }

  ghost predicate HasId(items: seq<Value>, id: Value) {
    exists j :: 0 <= j < |items| && IdOf(items[j]) == Some(id)
  }

  /** Whatever is recorded under an id comes from an item with that id. */
  ghost predicate IdsAreFrom(t: Tally, items: seq<Value>) {
    forall id :: !HasId(items, id) ==> IsUnused(t, id)
  }

  predicate IsUnused(t: Tally, id: Value) {
    id !in t.billableIds && id !in t.searchIds && id !in t.expectedById && id !in t.fallbackById
  }

  lemma AddToolFallback(t: Tally, tool: Tool, id: Option<Value>, reserved: nat, expected: nat)
    requires id.Some? ==> IsUnused(t, id.value)
    ensures var u := AddTool(t, tool, id, reserved, expected);
            && u.billableIds == (if id.Some? && tool != ThirdParty then t.billableIds + {id.value} else t.billableIds)
            && (id.Some? && tool == Search ==> Fallback(u, id.value) == expected)
            && (id.Some? && tool == Research ==> Fallback(u, id.value) == reserved)
            && (id.Some? && tool !in {Search, Research, ThirdParty} ==> Fallback(u, id.value) == 0)
            && (forall k :: Some(k) != id ==> Fallback(u, k) == Fallback(t, k) && (IsUnused(t, k) ==> IsUnused(u, k)))
  {
    hide SatAdd;
  }

  lemma ItemFallback(p: Pricing, t: Tally, v: Value)
    requires IdOf(v).Some? ==> IsUnused(t, IdOf(v).value)
    ensures var (u, id, billed) := (AddItem(p, t, v), IdOf(v), IsBillableCall(v));
            && u.billableIds == (if id.Some? && billed then t.billableIds + {id.value} else t.billableIds)
            && (id.Some? && billed ==> Fallback(u, id.value) == Unreported(p, v))
            && (forall k :: Some(k) != id ==> Fallback(u, k) == Fallback(t, k) && (IsUnused(t, k) ==> IsUnused(u, k)))
  {
    hide AddTool, IdOf, ToolClass, Arguments, RawMethod;
    var flagged := if IsControl(v) then t else t.(allNonBillable := false);
    AddToolFallback(flagged, ToolClass(v), IdOf(v), ReservedFor(p, v), p.expected(Arguments(v)));
  }

  lemma DistinctBefore(items: seq<Value>)
    requires items != [] && !HasDuplicateId(items)
    ensures var n := |items| - 1;
            && !HasDuplicateId(items[..n])
            && (IdOf(items[n]).Some? ==> !HasId(items[..n], IdOf(items[n]).value))
            && forall id :: HasId(items, id) <==> HasId(items[..n], id) || IdOf(items[n]) == Some(id)
  {
    hide IdOf;
    var n := |items| - 1;
    assert forall j :: 0 <= j < n ==> items[..n][j] == items[j];
    forall id ensures HasId(items, id) <==> HasId(items[..n], id) || IdOf(items[n]) == Some(id) {
      if j :| 0 <= j < n && IdOf(items[j]) == Some(id) { assert IdOf(items[..n][j]) == Some(id); }
    }
  }

  /** A request whose items have distinct ids costs what its items cost, up to the 64-bit cap. */
  lemma {:induction false} ChargeIsItemized(rd: Reader, p: Pricing, items: seq<Value>, reports: seq<Value>,
                                            emptySearch: bool)
    requires !HasDuplicateId(items)
    ensures TotalOwed(rd, TallyOf(p, items), reports, emptySearch) == CostSum(rd, p, reports, emptySearch, items)
    ensures IdsAreFrom(TallyOf(p, items), items)
  {
    hide HasDuplicateId, AddItem, HasId, IsUnused, CostOf, Owed, IdOf, IsBillableCall;
    if items == [] {
      NothingUsed(rd, p, reports, emptySearch);
    } else {
      var n := |items| - 1;
      DistinctBefore(items);
      ChargeIsItemized(rd, p, items[..n], reports, emptySearch);
      ItemFallback(p, TallyOf(p, items[..n]), items[n]);
      ItemIsOwed(rd, p, TallyOf(p, items[..n]), items[n], reports, emptySearch);
    }
  }

  /** Up to the largest 64-bit number. */
  lemma ChargeIsExact(rd: Reader, p: Pricing, items: seq<Value>, reports: seq<Value>, emptySearch: bool)
    requires !HasDuplicateId(items)
    ensures var (charge, cost) := (Cap(TotalOwed(rd, TallyOf(p, items), reports, emptySearch)),
                                   CostSum(rd, p, reports, emptySearch, items));
            charge == if cost <= 0x7FFF_FFFF_FFFF_FFFF then cost else 0x7FFF_FFFF_FFFF_FFFF
  {
    hide HasDuplicateId, TotalOwed, CostSum, TallyOf;
    ChargeIsItemized(rd, p, items, reports, emptySearch);
  }

  /** What the searches, or the researches, under an id add to its fallback. */
  function RecordedFor(p: Pricing, items: seq<Value>, tool: Tool, id: Value): nat {
    if items == [] then 0
    else
      var n := |items| - 1;
      RecordedFor(p, items[..n], tool, id) + if Records(items[n], tool, id) then Unreported(p, items[n]) else 0
  }

  predicate Records(v: Value, tool: Tool, id: Value) {
    IsCall(v) && ToolClass(v) == tool && IdOf(v) == Some(id)
  }

  /** Repeated ids add up, to the cap. */
  lemma {:induction false} FallbacksAddUp(p: Pricing, items: seq<Value>, id: Value)
    ensures Cap(At(TallyOf(p, items).expectedById, id)) == Cap(RecordedFor(p, items, Search, id))
    ensures Cap(At(TallyOf(p, items).fallbackById, id)) == Cap(RecordedFor(p, items, Research, id))
  {
    if items != [] {
      hide AddItem, Unreported, Records;
      var n := |items| - 1;
      FallbacksAddUp(p, items[..n], id);
      RecordOneMore(p, TallyOf(p, items[..n]), items[n], id);
    }
  }

  lemma RecordOneMore(p: Pricing, t: Tally, v: Value, id: Value)
    ensures var u := AddItem(p, t, v);
            && Cap(At(u.expectedById, id)) ==
                 Cap(At(t.expectedById, id) + if Records(v, Search, id) then Unreported(p, v) else 0)
            && Cap(At(u.fallbackById, id)) ==
                 Cap(At(t.fallbackById, id) + if Records(v, Research, id) then Unreported(p, v) else 0)
  {
    hide AddTool, ToolClass, IdOf, Arguments, RawMethod, AddById, At, Cap;
    var base := if IsControl(v) then t else t.(allNonBillable := false);
    ToolRecords(base, ToolClass(v), IdOf(v), ReservedFor(p, v), p.expected(Arguments(v)));
    if IdOf(v).Some? {
      AddedToId(t.expectedById, IdOf(v).value, p.expected(Arguments(v)), id);
      AddedToId(t.fallbackById, IdOf(v).value, ReservedFor(p, v), id);
    }
  }

  lemma ToolRecords(t: Tally, tool: Tool, id: Option<Value>, reserved: nat, expected: nat)
    ensures var u := AddTool(t, tool, id, reserved, expected);
            && u.expectedById == (if tool == Search && id.Some? then AddById(t.expectedById, id.value, expected)
                                  else t.expectedById)
            && u.fallbackById == (if tool == Research && id.Some? then AddById(t.fallbackById, id.value, reserved)
                                  else t.fallbackById)
  {
    hide AddById, SatAdd;
  }

  lemma AddedToId(m: map<Value, nat>, id: Value, n: nat, k: Value)
    ensures Cap(At(AddById(m, id, n), k)) == Cap(At(m, k) + if k == id then n else 0)
  {
  }

  lemma NothingUsed(rd: Reader, p: Pricing, reports: seq<Value>, emptySearch: bool)
    ensures TotalOwed(rd, TallyOf(p, []), reports, emptySearch) == 0
    ensures IdsAreFrom(TallyOf(p, []), [])
  {
  }

  lemma ItemIsOwed(rd: Reader, p: Pricing, t: Tally, v: Value, reports: seq<Value>, emptySearch: bool)
    requires IdOf(v).Some? ==> IsUnused(t, IdOf(v).value)
    ensures TotalOwed(rd, AddItem(p, t, v), reports, emptySearch) ==
            TotalOwed(rd, t, reports, emptySearch) + CostOf(rd, p, reports, emptySearch, v)
  {
    hide AddItem, ToolClass, IdOf, Arguments, IsReported, HasFailed, HasUsage, IsBillableCall, Fallback;
    var u := AddItem(p, t, v);
    ItemFallback(p, t, v);
    var a, b := OwedBy(rd, t, reports, emptySearch), OwedBy(rd, u, reports, emptySearch);
    SumCongruent(t.billableIds, a, b);
    if IdOf(v).Some? && IsBillableCall(v) {
      SumExtract(u.billableIds, b, IdOf(v).value);
      assert u.billableIds - {IdOf(v).value} == t.billableIds;
    }
  }

  /** A request of one billable call with an id: missing or failed it is free; it costs the highest credits reported
      for it; without any, a search costs what it is expected to and a research what it reserves. */
  lemma OneCallIsCharged(rd: Reader, p: Pricing, v: Value, reports: seq<Value>, total: nat)
    requires IsBillableCall(v) && IdOf(v).Some? && total == Cap(TotalOwed(rd, TallyOf(p, [v]), reports, false))
    ensures !IsReported(reports, IdOf(v).value) || HasFailed(rd, reports, IdOf(v).value) ==> total == 0
    ensures IsReported(reports, IdOf(v).value) && !HasFailed(rd, reports, IdOf(v).value) ==>
            && (forall n: nat :: IsPeak(rd, reports, IdOf(v).value, n) ==> total == Cap(n))
            && (!HasUsage(rd, reports, IdOf(v).value) ==>
                && (ToolClass(v) == Search ==> total == Cap(p.expected(Arguments(v))))
                && (ToolClass(v) == Research ==> total == Cap(p.reserved("tavily-research", Arguments(v))))
                && (ToolClass(v) != Search && ToolClass(v) != Research ==> total == 0))
  {
    hide ToolClass, Arguments, IsReported, IdOf, IsBillableCall;
    ChargeIsItemized(rd, p, [v], reports, false);
    assert [v][..0] == [];
    assert CostSum(rd, p, reports, false, [v][..0]) == 0;
    assert total == Cap(CostOf(rd, p, reports, false, v));
    var id := IdOf(v).value;
    forall n: nat | IsPeak(rd, reports, id, n) && IsReported(reports, id) && !HasFailed(rd, reports, id)
      ensures total == Cap(n)
    {
      PeakIsUnique(rd, reports, id, n, Peak(rd, reports, id));
    }
  }

  /** The fallback recorded for an id is raised by `d`. */
  predicate IsRaised(t: Tally, u: Tally, id: Value, d: nat) {
    if id in t.searchIds && id in t.expectedById then
      u == t.(expectedById := t.expectedById[id := t.expectedById[id] + d])
    else id in t.fallbackById && u == t.(fallbackById := t.fallbackById[id := t.fallbackById[id] + d])
  }

  /** That raises the uncapped charge by as much, if the id owes its fallback at all. */
  lemma RaisedFallbackIsCharged(rd: Reader, t: Tally, u: Tally, reports: seq<Value>, emptySearch: bool, id: Value,
                                d: nat)
    requires id in t.billableIds && IsRaised(t, u, id, d) && !HasUsage(rd, reports, id)
    requires emptySearch || (IsReported(reports, id) && !HasFailed(rd, reports, id))
    ensures TotalOwed(rd, u, reports, emptySearch) == TotalOwed(rd, t, reports, emptySearch) + d
  {
    hide HasUsage, HasFailed, IsReported, Fallback, IsRaised;
    var a, b := OwedBy(rd, t, reports, emptySearch), OwedBy(rd, u, reports, emptySearch);
    OneFallbackIsRaised(t, u, id, d);
    SumBump(t.billableIds, a, b, id, d);
  }

  lemma OneFallbackIsRaised(t: Tally, u: Tally, id: Value, d: nat)
    requires IsRaised(t, u, id, d)
    ensures u.billableIds == t.billableIds && Fallback(u, id) == Fallback(t, id) + d
    ensures forall k :: k != id ==> Fallback(u, k) == Fallback(t, k)
  {
  }

  // ---- What the charge depends on ---------------------------------------------------------------

  /** The two lists hold the same reports for the given id, however often and in whatever order. */
  ghost predicate SameReportsFor(a: seq<Value>, b: seq<Value>, id: Value) {
    forall r :: IdOf(r) == Some(id) ==> (r in a <==> r in b)
  }

  /** What an id owes depends only on the reports that carry it. */
  lemma OwedIsLocal(rd: Reader, t: Tally, a: seq<Value>, b: seq<Value>, emptySearch: bool, id: Value)
    requires SameReportsFor(a, b, id)
    ensures Owed(rd, t, a, emptySearch, id) == Owed(rd, t, b, emptySearch, id)
  {
    if HasUsage(rd, a, id) {
      assert IsPeak(rd, b, id, Peak(rd, a, id));
      PeakIsUnique(rd, b, id, Peak(rd, a, id), Peak(rd, b, id));
    }
  }

  /** The charge does not change under reordering or repeating messages, nor under adding or removing
      messages of ids that are not billable. */
  lemma ChargeIsLocal(rd: Reader, t: Tally, a: seq<Value>, b: seq<Value>, emptySearch: bool)
    requires forall id :: id in t.billableIds ==> SameReportsFor(a, b, id)
    ensures TotalOwed(rd, t, a, emptySearch) == TotalOwed(rd, t, b, emptySearch)
  {
    forall id | id in t.billableIds
      ensures OwedBy(rd, t, a, emptySearch)(id) == OwedBy(rd, t, b, emptySearch)(id)
    {
      OwedIsLocal(rd, t, a, b, emptySearch, id);
    }
    SumCongruent(t.billableIds, OwedBy(rd, t, a, emptySearch), OwedBy(rd, t, b, emptySearch));
  }

  /** A further successful report for an id that already states at least as many credits changes nothing. */
  lemma LowerReportIsFree(rd: Reader, t: Tally, reports: seq<Value>, emptySearch: bool, r: Value)
    requires IdOf(r).Some? && !rd.failed(r) && HasUsage(rd, reports, IdOf(r).value)
    requires rd.usage(r).Some? ==> rd.usage(r).value <= Peak(rd, reports, IdOf(r).value)
    ensures TotalOwed(rd, t, reports + [r], emptySearch) == TotalOwed(rd, t, reports, emptySearch)
  {
    var more, mine := reports + [r], IdOf(r).value;
    assert forall v :: v in more <==> v in reports || v == r;
    forall id | id in t.billableIds
      ensures OwedBy(rd, t, more, emptySearch)(id) == OwedBy(rd, t, reports, emptySearch)(id)
    {
      if id == mine {
        assert IsPeak(rd, more, id, Peak(rd, reports, id));
        PeakIsUnique(rd, more, id, Peak(rd, reports, id), Peak(rd, more, id));
      } else {
        OwedIsLocal(rd, t, more, reports, emptySearch, id);
      }
    }
    SumCongruent(t.billableIds, OwedBy(rd, t, more, emptySearch), OwedBy(rd, t, reports, emptySearch));
  }

  // ---- Charges against reservations -------------------------------------------------------------

  /** Credits reserved for the items, before the 64-bit cap. */
  function ReservedSum(p: Pricing, items: seq<Value>): nat {
    if items == [] then 0
    else
      var n := |items| - 1;
      ReservedSum(p, items[..n]) + ReservedFor(p, items[n])
  }

  function At(m: map<Value, nat>, id: Value): nat {
    if id in m then m[id] else 0
  }

  ghost function DueBy(t: Tally): Value -> int {
    id => At(t.expectedById, id) + At(t.fallbackById, id)
  }

  ghost function FallbackBy(t: Tally): Value -> int {
    id => At(t.fallbackById, id)
  }

  /** The fallbacks recorded in a tally never add up to more than what was reserved. */
  ghost predicate IsCovered(t: Tally, reserved: nat) {
    && t.reservedTotal == Cap(reserved)
    && t.expectedById.Keys <= t.billableIds && t.fallbackById.Keys <= t.billableIds
    && SumOver(t.billableIds, DueBy(t)) <= reserved
    && t.expectedTotal + SumOver(t.fallbackById.Keys, FallbackBy(t)) + t.fallbackWithoutId <= reserved
  }

  lemma AddToolKeepsTotals(t: Tally, tool: Tool, id: Option<Value>, reserved: nat, expected: nat, sum: nat)
    requires t.expectedTotal + SumOver(t.fallbackById.Keys, FallbackBy(t)) + t.fallbackWithoutId <= sum
    requires tool == Search ==> reserved == expected
    ensures var u := AddTool(t, tool, id, reserved, expected);
            u.expectedTotal + SumOver(u.fallbackById.Keys, FallbackBy(u)) + u.fallbackWithoutId <= sum + reserved
  {
    var u := AddTool(t, tool, id, reserved, expected);
    if tool == Research && id.Some? {
      var x := id.value;
      assert u.fallbackById.Keys == t.fallbackById.Keys + {x};
      assert u.fallbackById.Keys - {x} == t.fallbackById.Keys - {x};
      SumExtract(u.fallbackById.Keys, FallbackBy(u), x);
      SumCongruent(t.fallbackById.Keys - {x}, FallbackBy(t), FallbackBy(u));
      if x in t.fallbackById {
        SumExtract(t.fallbackById.Keys, FallbackBy(t), x);
      } else {
        assert t.fallbackById.Keys - {x} == t.fallbackById.Keys;
      }
    } else {
      SumCongruent(t.fallbackById.Keys, FallbackBy(t), FallbackBy(u));
    }
  }

  lemma AddToolKeepsDues(t: Tally, tool: Tool, id: Option<Value>, reserved: nat, expected: nat, sum: nat)
    requires t.expectedById.Keys <= t.billableIds && t.fallbackById.Keys <= t.billableIds
    requires SumOver(t.billableIds, DueBy(t)) <= sum
    requires tool == Search ==> reserved == expected
    ensures var u := AddTool(t, tool, id, reserved, expected);
            && u.expectedById.Keys <= u.billableIds && u.fallbackById.Keys <= u.billableIds
            && SumOver(u.billableIds, DueBy(u)) <= sum + reserved
  {
    hide AddTool;
    var u := AddTool(t, tool, id, reserved, expected);
    AddToolDues(t, tool, id, reserved, expected);
    if id.None? || tool == ThirdParty {
      SumCongruent(t.billableIds, DueBy(t), DueBy(u));
    } else {
      var x := id.value;
      assert u.billableIds - {x} == t.billableIds - {x};
      SumExtract(u.billableIds, DueBy(u), x);
      SumCongruent(t.billableIds - {x}, DueBy(t), DueBy(u));
      if x in t.billableIds {
        SumExtract(t.billableIds, DueBy(t), x);
      } else {
        assert t.billableIds - {x} == t.billableIds;
      }
    }
  }

  /** A call raises what may fall due under its own id by no more than it reserves. */
  lemma AddToolDues(t: Tally, tool: Tool, id: Option<Value>, reserved: nat, expected: nat)
    requires t.expectedById.Keys <= t.billableIds && t.fallbackById.Keys <= t.billableIds
    requires tool == Search ==> reserved == expected
    ensures var u := AddTool(t, tool, id, reserved, expected);
            && u.billableIds == (if id.Some? && tool != ThirdParty then t.billableIds + {id.value} else t.billableIds)
            && u.expectedById.Keys <= u.billableIds && u.fallbackById.Keys <= u.billableIds
            && (id.Some? && tool != ThirdParty ==> DueBy(u)(id.value) <= DueBy(t)(id.value) + reserved)
            && (forall k :: !(id == Some(k) && tool != ThirdParty) ==> DueBy(u)(k) == DueBy(t)(k))
            && (id.Some? && id.value !in t.billableIds ==> DueBy(t)(id.value) == 0)
  {
    hide AddById, SatAdd;
    if id.Some? {
      AddByIdAt(t.expectedById, id.value, expected);
      AddByIdAt(t.fallbackById, id.value, reserved);
    }
    var u := AddTool(t, tool, id, reserved, expected);
    assert tool == ThirdParty || id.None? ==> u.expectedById == t.expectedById && u.fallbackById == t.fallbackById;
    assert tool != Search ==> u.expectedById == t.expectedById;
    assert tool != Research ==> u.fallbackById == t.fallbackById;
    hide AddTool;
  }

  lemma AddByIdAt(m: map<Value, nat>, id: Value, n: nat)
    ensures At(AddById(m, id, n), id) <= At(m, id) + n
    ensures AddById(m, id, n).Keys == m.Keys + {id}
    ensures forall k :: k != id ==> At(AddById(m, id, n), k) == At(m, k)
  {
  }

  lemma AddToolReserves(t: Tally, tool: Tool, id: Option<Value>, reserved: nat, expected: nat, sum: nat)
    requires t.reservedTotal == Cap(sum)
    requires tool in {ThirdParty, Nameless, MissingParams} ==> reserved == 0
    ensures AddTool(t, tool, id, reserved, expected).reservedTotal == Cap(sum + reserved)
  {
  }

  lemma AddToolIsCovered(t: Tally, tool: Tool, id: Option<Value>, reserved: nat, expected: nat, sum: nat)
    requires IsCovered(t, sum)
    requires tool == Search ==> reserved == expected
    requires tool in {ThirdParty, Nameless, MissingParams} ==> reserved == 0
    ensures IsCovered(AddTool(t, tool, id, reserved, expected), sum + reserved)
  {
    hide AddTool;
    AddToolReserves(t, tool, id, reserved, expected, sum);
    AddToolKeepsDues(t, tool, id, reserved, expected, sum);
    AddToolKeepsTotals(t, tool, id, reserved, expected, sum);
  }

  lemma FlagsAreFree(t: Tally, u: Tally, sum: nat)
    requires IsCovered(t, sum)
    requires u == t.(anyBillable := u.anyBillable, anyLockable := u.anyLockable, allNonBillable := u.allNonBillable)
    ensures IsCovered(u, sum)
  {
    SumCongruent(t.billableIds, DueBy(t), DueBy(u));
    SumCongruent(t.fallbackById.Keys, FallbackBy(t), FallbackBy(u));
  }

  lemma ItemIsCovered(p: Pricing, t: Tally, v: Value, sum: nat)
    requires IsPricing(p) && IsCovered(t, sum)
    ensures IsCovered(AddItem(p, t, v), sum + ReservedFor(p, v))
  {
    var u := if IsControl(v) then t else t.(allNonBillable := false);
    FlagsAreFree(t, u, sum);
    ReservedByClass(p, v);
    hide IsCovered, AddTool, ReservedFor, IsPricing, IsControl, IsCall, ToolClass;
    if v.Object? && IsCall(v) {
      AddToolIsCovered(u, ToolClass(v), IdOf(v), ReservedFor(p, v), p.expected(Arguments(v)), sum);
    } else {
      FlagsAreFree(t, AddItem(p, t, v), sum);
    }
  }

  lemma ReservedByClass(p: Pricing, v: Value)
    requires IsPricing(p)
    ensures IsCall(v) && ToolClass(v) == Search ==> ReservedFor(p, v) == p.expected(Arguments(v))
    ensures ToolClass(v) in {ThirdParty, Nameless, MissingParams} ==> ReservedFor(p, v) == 0
    ensures !IsCall(v) ==> ReservedFor(p, v) == 0
    ensures IsCall(v) ==> v.Object?
  {
  }

  lemma {:induction false} TallyIsCovered(p: Pricing, items: seq<Value>)
    requires IsPricing(p)
    ensures IsCovered(TallyOf(p, items), ReservedSum(p, items))
  {
    if items != [] {
      hide IsCovered, AddItem, IsPricing;
      var n := |items| - 1;
      TallyIsCovered(p, items[..n]);
      ItemIsCovered(p, TallyOf(p, items[..n]), items[n], ReservedSum(p, items[..n]));
    }
  }

  /** If the response states no usage for any billable id, the charge is within the reservation the gate
      checked, whatever succeeded or failed. */
  lemma UnreportedUsageIsReserved(rd: Reader, p: Pricing, items: seq<Value>, reports: seq<Value>, emptySearch: bool)
    requires IsPricing(p)
    requires forall id :: id in TallyOf(p, items).billableIds ==> !HasUsage(rd, reports, id)
    ensures Cap(TotalOwed(rd, TallyOf(p, items), reports, emptySearch)) <= TallyOf(p, items).reservedTotal
  {
    var t := TallyOf(p, items);
    TallyIsCovered(p, items);
    SumMonotone(t.billableIds, OwedBy(rd, t, reports, emptySearch), DueBy(t));
  }

  // ---- Requests with a billable call that has no id -----------------------------------------------

  /** All fallbacks together. */
  ghost function FallbackTotal(t: Tally): nat {
    SumSubset({}, t.fallbackById.Keys, FallbackBy(t));
    SatAdd(SatAdd(t.expectedTotal, SumOver(t.fallbackById.Keys, FallbackBy(t))), t.fallbackWithoutId)
  }

  /** Without ids the response is judged as a whole: observed credits are charged unless everything failed,
      and the fallbacks only if nothing did. */
  method ChargeWithoutIds(t: Tally, observed: Option<nat>, hasError: bool, hasSuccess: bool) returns (credits: nat)
    ensures hasError ==> credits == if hasSuccess then observed.GetOr(0) else 0
    ensures !hasError && observed.Some? ==>
              credits == if FallbackTotal(t) > observed.value then FallbackTotal(t) else observed.value
    ensures !hasError && observed.None? ==> credits == if hasSuccess then FallbackTotal(t) else 0
  {
    var sum := 0;
    var left := t.fallbackById.Keys;
    while left != {}
      invariant left <= t.fallbackById.Keys
      invariant sum + SumOver(left, FallbackBy(t)) == SumOver(t.fallbackById.Keys, FallbackBy(t))
      invariant 0 <= sum
      decreases left
    {
      var id :| id in left;
      SumExtract(left, FallbackBy(t), id);
      left, sum := left - {id}, sum + t.fallbackById[id];
    }
    var fallback := SatAdd(SatAdd(t.expectedTotal, sum), t.fallbackWithoutId);
    match observed {
      case Some(c) =>
        credits := if hasError && !hasSuccess then 0 else if hasError then c else if fallback > c then fallback else c;
      case None =>
        credits := if hasError || !hasSuccess then 0 else fallback;
    }
  }

  /** What all calls of a request cost together without reported usage. */
  function UnreportedSum(p: Pricing, items: seq<Value>): nat {
    if items == [] then 0
    else
      var n := |items| - 1;
      UnreportedSum(p, items[..n]) + if IsCall(items[n]) then Unreported(p, items[n]) else 0
  }

  /** The fallbacks before the cap. */
  ghost function Fallbacks(t: Tally): nat {
    SumSubset({}, t.fallbackById.Keys, FallbackBy(t));
    t.expectedTotal + SumOver(t.fallbackById.Keys, FallbackBy(t)) + t.fallbackWithoutId
  }

  /** With or without ids, and whether they repeat, the fallback total is what the calls cost without reported usage,
      up to the cap. */
  lemma {:induction false} FallbackTotalIsItemized(p: Pricing, items: seq<Value>)
    ensures FallbackTotal(TallyOf(p, items)) == Cap(UnreportedSum(p, items))
    ensures Cap(Fallbacks(TallyOf(p, items))) == Cap(UnreportedSum(p, items))
  {
    hide AddItem, Unreported, IsCall;
    if items != [] {
      var n := |items| - 1;
      FallbackTotalIsItemized(p, items[..n]);
      FallbacksOneMore(p, TallyOf(p, items[..n]), items[n]);
    }
  }

  lemma FallbacksOneMore(p: Pricing, t: Tally, v: Value)
    ensures Cap(Fallbacks(AddItem(p, t, v))) == Cap(Fallbacks(t) + if IsCall(v) then Unreported(p, v) else 0)
  {
    hide AddTool, ToolClass, IdOf, Arguments, RawMethod;
    var base := if IsControl(v) then t else t.(allNonBillable := false);
    SameFallbacks(t, base);
    if !IsCall(v) { SameFallbacks(t, AddItem(p, t, v)); }
    ToolFallbacks(base, ToolClass(v), IdOf(v), ReservedFor(p, v), p.expected(Arguments(v)));
    hide Fallbacks;
  }

  lemma SameFallbacks(t: Tally, u: Tally)
    requires t.expectedTotal == u.expectedTotal && t.fallbackById == u.fallbackById
    requires t.fallbackWithoutId == u.fallbackWithoutId
    ensures Fallbacks(t) == Fallbacks(u)
  {
    SumCongruent(t.fallbackById.Keys, FallbackBy(t), FallbackBy(u));
  }

  lemma ToolFallbacks(t: Tally, tool: Tool, id: Option<Value>, reserved: nat, expected: nat)
    ensures Cap(Fallbacks(AddTool(t, tool, id, reserved, expected))) ==
            Cap(Fallbacks(t) + if tool == Search then expected else if tool == Research then reserved else 0)
  {
    ToolRecords(t, tool, id, reserved, expected);
    var u := AddTool(t, tool, id, reserved, expected);
    assert u.expectedTotal == if tool == Search then SatAdd(t.expectedTotal, expected) else t.expectedTotal;
    assert u.fallbackWithoutId ==
           if tool == Research && id.None? then SatAdd(t.fallbackWithoutId, reserved) else t.fallbackWithoutId;
    hide AddTool, AddById;
    SumSubset({}, t.fallbackById.Keys, FallbackBy(t));
    if tool == Research && id.Some? {
      AddedToId(t.fallbackById, id.value, reserved, id.value);
      var rest := AddedToSum(t, u, id.value, reserved);
    } else {
      SumCongruent(t.fallbackById.Keys, FallbackBy(t), FallbackBy(u));
    }
  }

  /** The fallbacks of the other ids stay. */
  lemma AddedToSum(t: Tally, u: Tally, id: Value, n: nat) returns (rest: nat)
    requires u.fallbackById == AddById(t.fallbackById, id, n)
    ensures SumOver(t.fallbackById.Keys, FallbackBy(t)) == rest + At(t.fallbackById, id)
    ensures SumOver(u.fallbackById.Keys, FallbackBy(u)) == rest + At(u.fallbackById, id)
  {
    var others := t.fallbackById.Keys - {id};
    assert u.fallbackById.Keys - {id} == others;
    SumSubset({}, others, FallbackBy(t));
    rest := SumOver(others, FallbackBy(t));
    SumExtract(u.fallbackById.Keys, FallbackBy(u), id);
    SumCongruent(others, FallbackBy(t), FallbackBy(u));
    if id in t.fallbackById {
      SumExtract(t.fallbackById.Keys, FallbackBy(t), id);
    } else {
      assert others == t.fallbackById.Keys;
    }
  }

  /** Here too a charge without observed usage stays within the reservation. */
  lemma FallbackTotalIsReserved(p: Pricing, items: seq<Value>)
    requires IsPricing(p)
    ensures FallbackTotal(TallyOf(p, items)) <= TallyOf(p, items).reservedTotal
  {
    TallyIsCovered(p, items);
  }
}
