/** Repair of request logs that a rejected `include_usage` argument doubled: every rejected row (a
    shadow) is paired with the first later row that repeats the same request without the argument. */
module RetryRepair {
  import opened Wrappers
  import opened Json
  import opened GreedyMatching
  import Sorting

  const MAX_RETRY_GAP_SECS := 10

  /** A request log row. `body` is the parsed request body, if it parses; `rejectsIncludeUsage` says
      whether the response text blames the `include_usage` argument. */
  datatype Row = Row(id: int, apiKeyId: string, tokenId: string, httpMethod: string, path: string,
                     query: Option<string>, createdAt: int, body: Option<Value>, rejectsIncludeUsage: bool)

  datatype RowKey = RowKey(tokenId: string, httpMethod: string, path: string, query: Option<string>)

  datatype Candidate = Candidate(shadowLogId: int, finalLogId: int, tokenId: string, apiKeyId: string)

  function KeyOf(r: Row): RowKey {
    RowKey(r.tokenId, r.httpMethod, r.path, r.query)
  }

  // ---- Scrubbing the rejected argument ----------------------------------------------------------

  /** Where a value stands: anywhere, as the `params` of a `tools/call` object, or as the `arguments`
      of such params, where the rejected argument is removed. */
  datatype Place = Anywhere | CallParams | CallArguments

  predicate IsToolCall(v: Value) {
    TextOf(v.Get("method")) == Some("tools/call")
  }

  function ChildPlace(call: bool, place: Place, name: string): Place {
    if call && name == "params" then CallParams
    else if place == CallParams && name == "arguments" then CallArguments
    else Anywhere
  }

  /** The scrubbed value, and whether anything was removed. */
  function Scrub(v: Value, place: Place): (Value, bool) {
    match v
    case Object(fields) =>
      var (fs, removed) := ScrubFields(fields, IsToolCall(v), place);
      (Object(fs), removed)
    case Array(items) =>
      var (vs, removed) := ScrubItems(items);
      (Array(vs), removed)
    case _ => (v, false)
  }

  function ScrubFields(fields: seq<Field>, call: bool, place: Place): (seq<Field>, bool) {
    if fields == [] then ([], false)
    else
      var (rest, removed) := ScrubFields(fields[1..], call, place);
      if place == CallArguments && fields[0].name == "include_usage" then (rest, true)
      else
        var (v, inner) := Scrub(fields[0].value, ChildPlace(call, place, fields[0].name));
        ([Field(fields[0].name, v)] + rest, inner || removed)
  }

  function ScrubItems(items: seq<Value>): (seq<Value>, bool) {
    if items == [] then ([], false)
    else
      var (v, inner) := Scrub(items[0], Anywhere);
      var (rest, removed) := ScrubItems(items[1..]);
      ([v] + rest, inner || removed)
  }

  function Normalize(body: Option<Value>): Option<(Value, bool)> {
    match body
    case None => None
    case Some(v) => Some(Scrub(v, Anywhere))
  }

  function TextOf(v: Option<Value>): Option<string> {
    if v.Some? && v.value.String? then Some(v.value.text) else None
  }

  /** What scrubbing an object leaves under a name: nothing where the argument is removed, else the scrubbed value. */
  lemma {:induction false} ScrubbedField(fields: seq<Field>, call: bool, place: Place, name: string)
    ensures Lookup(ScrubFields(fields, call, place).0, name) ==
            if place == CallArguments && name == "include_usage" then None
            else match Lookup(fields, name)
              case None => None
              case Some(v) => Some(Scrub(v, ChildPlace(call, place, name)).0)
  {
    hide Scrub, ChildPlace;
    if fields != [] {
      ScrubbedField(fields[1..], call, place, name);
      if !(place == CallArguments && fields[0].name == "include_usage") {
        var p := ChildPlace(call, place, fields[0].name);
        LookupCons(Field(fields[0].name, Scrub(fields[0].value, p).0), ScrubFields(fields[1..], call, place).0, name);
      }
    }
  }

  lemma LookupCons(f: Field, rest: seq<Field>, name: string)
    ensures Lookup([f] + rest, name) == if f.name == name then Some(f.value) else Lookup(rest, name)
  {
    assert ([f] + rest)[1..] == rest;
  }

  lemma StaysText(v: Value, place: Place)
    ensures TextOf(Some(Scrub(v, place).0)) == TextOf(Some(v))
  {
  }

  lemma StaysCall(v: Value, place: Place)
    requires v.Object?
    ensures IsToolCall(Scrub(v, place).0) == IsToolCall(v)
  {
    ScrubbedField(v.fields, IsToolCall(v), place, "method");
    hide ScrubFields;
    if m :| Lookup(v.fields, "method") == Some(m) { StaysText(m, ChildPlace(IsToolCall(v), place, "method")); }
  }

  /** The removal flag is raised exactly when scrubbing changes the value, and a scrubbed value is a
      fixed point: scrubbing it again removes nothing. */
  lemma {:induction false} ScrubIsIdempotent(v: Value, place: Place)
    ensures Scrub(v, place).1 <==> Scrub(v, place).0 != v
    ensures Scrub(Scrub(v, place).0, place) == (Scrub(v, place).0, false)
  {
    hide IsToolCall, ScrubFields, ScrubItems;
    match v {
      case Object(fields) =>
        StaysCall(v, place);
        ScrubFieldsIsIdempotent(fields, IsToolCall(v), place);
      case Array(items) => ScrubItemsIsIdempotent(items);
      case _ =>
    }
  }

  lemma {:induction false} ScrubFieldsIsIdempotent(fields: seq<Field>, call: bool, place: Place)
    ensures var (fs, removed) := ScrubFields(fields, call, place);
            && (removed <==> fs != fields)
            && |fs| <= |fields|
            && ScrubFields(fs, call, place) == (fs, false)
  {
    if fields != [] {
      ScrubFieldsIsIdempotent(fields[1..], call, place);
      var rest := ScrubFields(fields[1..], call, place).0;
      if !(place == CallArguments && fields[0].name == "include_usage") {
        var p := ChildPlace(call, place, fields[0].name);
        ScrubIsIdempotent(fields[0].value, p);
        var fs := [Field(fields[0].name, Scrub(fields[0].value, p).0)] + rest;
        assert fs[1..] == rest && fs[0].name == fields[0].name;
        assert fields == [fields[0]] + fields[1..];
      }
    }
  }

  lemma {:induction false} ScrubItemsIsIdempotent(items: seq<Value>)
    ensures var (vs, removed) := ScrubItems(items);
            (removed <==> vs != items) && ScrubItems(vs) == (vs, false)
  {
    if items != [] {
      ScrubIsIdempotent(items[0], Anywhere);
      ScrubItemsIsIdempotent(items[1..]);
      var vs := ScrubItems(items).0;
      assert vs[1..] == ScrubItems(items[1..]).0;
      assert items == [items[0]] + items[1..];
    }
  }

  // ---- What the scrub removes, in terms of the JSON value alone -----------------------------------

  predicate HasField(v: Value, name: string) {
    v.Object? && exists i :: 0 <= i < |v.fields| && v.fields[i].name == name
  }

  /** An object of arguments that has the rejected one. */
  predicate AreRejected(name: string, v: Value) {
    name == "arguments" && HasField(v, "include_usage")
  }

  predicate HasRejectedArguments(name: string, v: Value) {
    name == "params" && v.Object? && exists i :: 0 <= i < |v.fields| && AreRejected(v.fields[i].name, v.fields[i].value)
  }

  /** A `tools/call` object whose `params.arguments` has the field `include_usage`. */
  predicate IsRejectedCall(v: Value) {
    && v.Object? && v.GetText("method") == Some("tools/call")
    && exists i :: 0 <= i < |v.fields| && HasRejectedArguments(v.fields[i].name, v.fields[i].value)
  }

  /** There is such a call somewhere inside the value. */
  predicate CarriesIncludeUsage(v: Value) {
    || IsRejectedCall(v)
    || (v.Object? && exists i :: 0 <= i < |v.fields| && CarriesIncludeUsage(v.fields[i].value))
    || (v.Array? && exists i :: 0 <= i < |v.items| && CarriesIncludeUsage(v.items[i]))
  }

  /** Something is removed from a value: a part of it is, or the place it stands at makes it lose a field. */
  predicate Loses(v: Value, place: Place) {
    || CarriesIncludeUsage(v)
    || (place == CallArguments && HasField(v, "include_usage"))
    || (place == CallParams && HasRejectedArguments("params", v))
  }

  predicate FieldLoses(f: Field, call: bool, place: Place) {
    (place == CallArguments && f.name == "include_usage") || Loses(f.value, ChildPlace(call, place, f.name))
  }

  predicate SomeFieldLoses(fields: seq<Field>, call: bool, place: Place) {
    exists i :: 0 <= i < |fields| && FieldLoses(fields[i], call, place)
  }

  predicate SomeItemLoses(items: seq<Value>) {
    exists i :: 0 <= i < |items| && Loses(items[i], Anywhere)
  }

  lemma ObjectLoses(v: Value, place: Place)
    requires v.Object?
    ensures Loses(v, place) <==> SomeFieldLoses(v.fields, IsToolCall(v), place)
  {
    var call := IsToolCall(v);
    assert call <==> v.GetText("method") == Some("tools/call");
    forall i | 0 <= i < |v.fields|
      ensures FieldLoses(v.fields[i], call, place) <==>
              || (place == CallArguments && v.fields[i].name == "include_usage")
              || CarriesIncludeUsage(v.fields[i].value)
              || (call && HasRejectedArguments(v.fields[i].name, v.fields[i].value))
              || (place == CallParams && AreRejected(v.fields[i].name, v.fields[i].value))
    {
    }
    hide FieldLoses, AreRejected;
  }

  lemma {:induction false} ScrubRemoves(v: Value, place: Place)
    ensures Scrub(v, place).1 <==> Loses(v, place)
  {
    match v {
      case Object(fields) =>
        ObjectLoses(v, place);
        ScrubFieldsRemoves(fields, IsToolCall(v), place);
      case Array(items) => ScrubItemsRemoves(items);
      case _ =>
    }
  }

  lemma {:induction false} ScrubFieldsRemoves(fields: seq<Field>, call: bool, place: Place)
    ensures ScrubFields(fields, call, place).1 <==> SomeFieldLoses(fields, call, place)
  {
    hide Loses, Scrub, ChildPlace;
    if fields != [] {
      ScrubFieldsRemoves(fields[1..], call, place);
      ScrubRemoves(fields[0].value, ChildPlace(call, place, fields[0].name));
      FirstOrLater(fields, call, place);
    }
  }

  lemma FirstOrLater(fields: seq<Field>, call: bool, place: Place)
    requires fields != []
    ensures SomeFieldLoses(fields, call, place) <==>
            FieldLoses(fields[0], call, place) || SomeFieldLoses(fields[1..], call, place)
  {
    hide FieldLoses;
    if i :| 0 < i < |fields| && FieldLoses(fields[i], call, place) { assert fields[i] == fields[1..][i - 1]; }
  }

  lemma {:induction false} ScrubItemsRemoves(items: seq<Value>)
    ensures ScrubItems(items).1 <==> SomeItemLoses(items)
  {
    hide Loses, Scrub;
    if items != [] {
      ScrubItemsRemoves(items[1..]);
      ScrubRemoves(items[0], Anywhere);
      if i :| 0 < i < |items| && Loses(items[i], Anywhere) { assert items[i] == items[1..][i - 1]; }
    }
  }

  /** The scrub reports a removal exactly if some `tools/call` object anywhere inside the value has the argument, and
      none has it afterwards. */
  lemma ScrubRemovesExactly(v: Value)
    ensures Scrub(v, Anywhere).1 <==> CarriesIncludeUsage(v)
    ensures !CarriesIncludeUsage(Scrub(v, Anywhere).0)
  {
    ScrubRemoves(v, Anywhere);
    ScrubIsIdempotent(v, Anywhere);
    ScrubRemoves(Scrub(v, Anywhere).0, Anywhere);
  }

  /** One step into a value: to a field of an object or an item of an array. */
  datatype PathStep = Name(name: string) | Index(index: nat)

  type Path = seq<PathStep>

  /** What stands at the end of a path, if it leads anywhere. */
  function At(v: Value, path: Path): Option<Value> {
    if path == [] then Some(v)
    else
      var next := Next(v, path[0]);
      if next.Some? then At(next.value, path[1..]) else None
  }

  function Next(v: Value, step: PathStep): Option<Value> {
    match step
    case Name(name) => v.Get(name)
    case Index(i) => if v.Array? && i < |v.items| then Some(v.items[i]) else None
  }

  const REJECTED: Path := [Name("params"), Name("arguments"), Name("include_usage")]

  /** The path goes through the `params.arguments.include_usage` of a `tools/call` object. */
  predicate IsRemoved(v: Value, path: Path) {
    exists k: nat :: k <= |path| && IsRemovedFrom(v, path, k)
  }

  predicate IsRemovedFrom(v: Value, path: Path, k: nat)
    requires k <= |path|
  {
    && REJECTED <= path[k..]
    && At(v, path[..k]).Some? && At(v, path[..k]).value.GetText("method") == Some("tools/call")
  }

  /** The same text, number, flag or null, arrays of the same length, or two objects. */
  predicate SameShape(a: Value, b: Value) {
    if a.Object? then b.Object? else if a.Array? then b.Array? && |a.items| == |b.items| else a == b
  }

  /** The path is removed by the place at which the value stands, or within the value. */
  predicate RemovedAt(v: Value, place: Place, path: Path) {
    || (place == CallArguments && REJECTED[2..] <= path)
    || (place == CallParams && REJECTED[1..] <= path)
    || IsRemoved(v, path)
  }

  lemma RemovedLater(v: Value, path: Path)
    requires path != []
    ensures IsRemoved(v, path) <==>
            || (v.GetText("method") == Some("tools/call") && REJECTED <= path)
            || (Next(v, path[0]).Some? && IsRemoved(Next(v, path[0]).value, path[1..]))
  {
    assert path[0..] == path && path[..0] == [];
    assert IsRemovedFrom(v, path, 0) <==> v.GetText("method") == Some("tools/call") && REJECTED <= path;
    forall k: nat | 0 < k <= |path|
      ensures IsRemovedFrom(v, path, k) <==>
              Next(v, path[0]).Some? && IsRemovedFrom(Next(v, path[0]).value, path[1..], k - 1)
    {
      assert path[k..] == path[1..][k - 1..] && path[..k][1..] == path[1..][..k - 1];
    }
    hide IsRemovedFrom;
    if Next(v, path[0]).Some? && IsRemoved(Next(v, path[0]).value, path[1..]) {
      var k: nat :| k <= |path[1..]| && IsRemovedFrom(Next(v, path[0]).value, path[1..], k);
      assert IsRemovedFrom(v, path, k + 1);
    }
  }

  function StepPlace(v: Value, place: Place, step: PathStep): Place {
    match step
    case Name(name) => ChildPlace(IsToolCall(v), place, name)
    case Index(_) => Anywhere
  }

  lemma RemovedNext(v: Value, place: Place, path: Path)
    requires path != [] && Next(v, path[0]).Some?
    requires !(place == CallArguments && path[0] == Name("include_usage"))
    ensures RemovedAt(v, place, path) <==>
            RemovedAt(Next(v, path[0]).value, StepPlace(v, place, path[0]), path[1..])
  {
    RemovedLater(v, path);
    hide IsRemoved;
    assert IsToolCall(v) <==> v.GetText("method") == Some("tools/call");
    StartsWith(path, 0);
    StartsWith(path, 1);
    StartsWith(path, 2);
  }

  lemma StartsWith(path: Path, n: nat)
    requires path != [] && n < 3
    ensures REJECTED[n..] <= path <==> path[0] == REJECTED[n] && REJECTED[n + 1..] <= path[1..]
  {
    assert REJECTED[n..] == [REJECTED[n]] + REJECTED[n + 1..];
    assert path == [path[0]] + path[1..];
  }

  /** One step into a scrubbed value. */
  lemma ScrubbedNext(v: Value, place: Place, step: PathStep)
    ensures Next(Scrub(v, place).0, step) ==
            if place == CallArguments && step == Name("include_usage") then None
            else match Next(v, step)
              case None => None
              case Some(x) => Some(Scrub(x, StepPlace(v, place, step)).0)
  {
    match v {
      case Object(fields) =>
        if step.Name? { ScrubbedField(fields, IsToolCall(v), place, step.name); }
      case Array(items) =>
        ScrubbedItems(items);
      case _ =>
    }
  }

  lemma {:induction false} ScrubbedItems(items: seq<Value>)
    ensures |ScrubItems(items).0| == |items|
    ensures forall i :: 0 <= i < |items| ==> ScrubItems(items).0[i] == Scrub(items[i], Anywhere).0
  {
    hide Scrub;
    if items != [] { ScrubbedItems(items[1..]); }
  }

  lemma {:induction false} ScrubbedAt(v: Value, place: Place, path: Path)
    ensures var (before, after) := (At(v, path), At(Scrub(v, place).0, path));
            if RemovedAt(v, place, path) || before.None? then after.None?
            else after.Some? && SameShape(before.value, after.value)
    decreases |path|
  {
    hide Scrub, RemovedAt, StepPlace, Next, SameShape;
    if path == [] {
      KeepsShape(v, place);
    } else {
      ScrubbedNext(v, place, path[0]);
      if place == CallArguments && path[0] == Name("include_usage") {
        ArgumentIsRemoved(v, path);
      } else if Next(v, path[0]).Some? {
        RemovedNext(v, place, path);
        ScrubbedAt(Next(v, path[0]).value, StepPlace(v, place, path[0]), path[1..]);
      }
    }
  }

  lemma KeepsShape(v: Value, place: Place)
    ensures SameShape(v, Scrub(v, place).0) && !RemovedAt(v, place, [])
  {
    if v.Array? { ScrubbedItems(v.items); }
  }

  lemma ArgumentIsRemoved(v: Value, path: Path)
    requires path != [] && path[0] == Name("include_usage")
    ensures RemovedAt(v, CallArguments, path)
  {
    StartsWith(path, 2);
  }

  /** A path is gone after the scrub exactly if it goes through the rejected argument; all others lead to what they led
      to before. */
  lemma ScrubKeepsTheRest(v: Value, path: Path)
    ensures var (before, after) := (At(v, path), At(Scrub(v, Anywhere).0, path));
            && (after.Some? <==> before.Some? && !IsRemoved(v, path))
            && (after.Some? ==> SameShape(before.value, after.value))
  {
    hide SameShape, IsRemoved, Scrub;
    ScrubbedAt(v, Anywhere, path);
  }

  // ---- Which rows may be paired -----------------------------------------------------------------

  predicate Eligible(shadow: Row) {
    shadow.rejectsIncludeUsage && Normalize(shadow.body).Some? && Normalize(shadow.body).value.1
  }

  /** The test a candidate final row passes for a shadow, in the order of the checks. */
  predicate Acceptable(shadow: Row, final: Row) {
    && final.id != shadow.id
    && final.createdAt >= shadow.createdAt
    && final.createdAt - shadow.createdAt <= MAX_RETRY_GAP_SECS
    && !(final.id < shadow.id && final.createdAt == shadow.createdAt)
    && Normalize(shadow.body).Some? && Normalize(final.body).Some?
    && Normalize(final.body).value.0 == Normalize(shadow.body).value.0
  }

  predicate Qualifies(shadow: Row, final: Row) {
    Eligible(shadow) && KeyOf(final) == KeyOf(shadow) && Acceptable(shadow, final)
  }

  /** A shadow may be repaired by a final exactly if its response blames the argument, its request carries it, and the
      final repeats the request without it, later in the log by at most ten seconds. */
  lemma QualifiesExactly(shadow: Row, final: Row)
    ensures Qualifies(shadow, final) <==>
            && shadow.rejectsIncludeUsage && shadow.body.Some? && CarriesIncludeUsage(shadow.body.value)
            && final.tokenId == shadow.tokenId && final.httpMethod == shadow.httpMethod
            && final.path == shadow.path && final.query == shadow.query
            && Earlier(shadow, final) && final.id != shadow.id && final.createdAt <= shadow.createdAt + 10
            && final.body.Some? && Scrub(final.body.value, Anywhere).0 == Scrub(shadow.body.value, Anywhere).0
  {
    hide CarriesIncludeUsage, Scrub;
    if shadow.body.Some? { ScrubRemovesExactly(shadow.body.value); }
  }

  /** The order of the logs: by time, then by id. */
  predicate Earlier(a: Row, b: Row) {
    a.createdAt < b.createdAt || (a.createdAt == b.createdAt && a.id < b.id)
  }

  /** Two rows carry the same request once `include_usage` is ignored. */
  predicate SameRequest(a: Row, b: Row) {
    && KeyOf(a) == KeyOf(b) && a.body.Some? && b.body.Some?
    && Scrub(a.body.value, Anywhere).0 == Scrub(b.body.value, Anywhere).0
  }

  ghost predicate UniqueIds(rows: seq<Row>) {
    forall i, j :: 0 <= i < j < |rows| ==> rows[i].id != rows[j].id
  }

  /** What `ORDER BY auth_token_id, created_at, id` guarantees of the loaded shadows. */
  ghost predicate LoadedInOrder(rows: seq<Row>) {
    forall i, j :: 0 <= i < j < |rows| && rows[i].tokenId == rows[j].tokenId ==> Earlier(rows[i], rows[j])
  }

  /** Both lists are read from one table whose primary key is the id. */
  ghost predicate FromOneTable(shadows: seq<Row>, finals: seq<Row>) {
    && UniqueIds(shadows) && UniqueIds(finals)
    && forall s, f :: s in shadows && f in finals && s.id == f.id ==> s == f
  }

  /** Shadow number `i` may be paired with the final `f`. */
  ghost function Accepts(shadows: seq<Row>, finals: seq<Row>): (nat, Row) -> bool {
    (i: nat, f: Row) => i < |shadows| && f in finals && Qualifies(shadows[i], f)
  }

  // ---- The repair -------------------------------------------------------------------------------

  /** The candidates a pairing stands for, in the order of the shadows. */
  ghost function Listing(shadows: seq<Row>, g: Matching<Row>, n: nat): seq<Candidate>
    requires n <= |shadows|
  {
    if n == 0 then []
    else
      Listing(shadows, g, n - 1) +
      if n - 1 in g then [CandidateOf(shadows[n - 1], g[n - 1])] else []
  }

  function CandidateOf(shadow: Row, final: Row): Candidate {
    Candidate(shadow.id, final.id, shadow.tokenId, shadow.apiKeyId)
  }

  predicate LogOrder(a: Row, b: Row) {
    !Earlier(b, a)
  }

  lemma LogOrderIsTotal()
    ensures Sorting.TotalPreorder(LogOrder)
  {
  }

  /** Rows in log order. */
  function InLogOrder(rows: seq<Row>): (r: seq<Row>)
    ensures Sorting.Sorted(LogOrder, r)
    ensures forall x :: x in r <==> x in rows
  {
    LogOrderIsTotal();
    Sorting.SortByKeeps(LogOrder, rows);
    Sorting.SortBy(LogOrder, rows)
  }

  ghost predicate GroupedBy(rows: seq<Row>, byKey: map<RowKey, seq<Row>>) {
    && (forall r :: r in rows ==> KeyOf(r) in byKey)
    && (forall k, r :: k in byKey ==> (r in byKey[k] <==> r in rows && KeyOf(r) == k))
  }

  lemma GroupOneMore(rows: seq<Row>, byKey: map<RowKey, seq<Row>>, row: Row)
    requires GroupedBy(rows, byKey)
    ensures GroupedBy(rows + [row], byKey[KeyOf(row) := (if KeyOf(row) in byKey then byKey[KeyOf(row)] else []) +
                                          [row]])
  {
  }

  function SortGroups(grouped: map<RowKey, seq<Row>>): (r: map<RowKey, seq<Row>>)
    ensures r.Keys == grouped.Keys
    ensures forall k :: k in r ==> Sorting.Sorted(LogOrder, r[k]) && forall x :: x in r[k] <==> x in grouped[k]
  {
    map k | k in grouped :: InLogOrder(grouped[k])
  }

  /** The finals of each request key, in log order. */
  method GroupByKey(finals: seq<Row>) returns (byKey: map<RowKey, seq<Row>>)
    ensures GroupedBy(finals, byKey)
    ensures forall k :: k in byKey ==> Sorting.Sorted(LogOrder, byKey[k])
  {
    var grouped: map<RowKey, seq<Row>> := map[];
    assert GroupedBy(finals[..0], grouped);
    hide GroupedBy;
    for i := 0 to |finals|
      invariant GroupedBy(finals[..i], grouped)
    {
      var key := KeyOf(finals[i]);
      GroupOneMore(finals[..i], grouped, finals[i]);
      assert finals[..i + 1] == finals[..i] + [finals[i]];
      grouped := grouped[key := (if key in grouped then grouped[key] else []) + [finals[i]]];
    }
    assert finals[..|finals|] == finals;
    byKey := SortGroups(grouped);
    SameRowsSameGroups(finals, grouped, byKey);
  }

  lemma SameRowsSameGroups(rows: seq<Row>, a: map<RowKey, seq<Row>>, b: map<RowKey, seq<Row>>)
    requires GroupedBy(rows, a) && a.Keys == b.Keys
    requires forall k :: k in a ==> forall r :: r in a[k] <==> r in b[k]
    ensures GroupedBy(rows, b)
  {
  }

  /** The rows before `at` are consumed or not acceptable. */
  predicate NoneFreeBefore(shadow: Row, rows: seq<Row>, consumed: set<int>, at: nat) {
    at <= |rows| && forall k :: 0 <= k < at ==> rows[k].id in consumed || !Acceptable(shadow, rows[k])
  }

  /** The first row of a list that a shadow accepts and that is not consumed yet. */
  method FindFinal(shadow: Row, rows: seq<Row>, consumed: set<int>) returns (r: Option<Row>)
    ensures r.None? ==> NoneFreeBefore(shadow, rows, consumed, |rows|)
    ensures r.Some? ==> r.value.id !in consumed && Acceptable(shadow, r.value)
    ensures r.Some? ==> exists at: nat ::
              at < |rows| && rows[at] == r.value && NoneFreeBefore(shadow, rows, consumed, at)
  {
    for j := 0 to |rows|
      invariant NoneFreeBefore(shadow, rows, consumed, j)
    {
      if rows[j].id !in consumed && Acceptable(shadow, rows[j]) {
        return Some(rows[j]);
      }
    }
    r := None;
  }

  /** A scan of the rows of one key decides what is free for a shadow. */
  lemma ScanFindsEarliest(shadows: seq<Row>, finals: seq<Row>, g: Matching<Row>, i: nat, rows: seq<Row>, j: nat)
    requires i < |shadows| && UniqueIds(finals)
    requires forall k :: k in g ==> g[k] in finals && k < i
    requires Eligible(shadows[i]) && Sorting.Sorted(LogOrder, rows) && j <= |rows|
    requires forall r :: r in rows <==> r in finals && KeyOf(r) == KeyOf(shadows[i])
    requires forall k :: 0 <= k < j ==>
               (exists n :: n in g && g[n].id == rows[k].id) || !Acceptable(shadows[i], rows[k])
    ensures j == |rows| ==> forall f :: !Free(Accepts(shadows, finals), g, i, f)
    ensures j < |rows| && Acceptable(shadows[i], rows[j]) && (forall n :: n in g ==> g[n].id != rows[j].id) ==>
              && Free(Accepts(shadows, finals), g, i, rows[j])
              && forall f :: Free(Accepts(shadows, finals), g, i, f) && f != rows[j] ==> Earlier(rows[j], f)
  {
    forall f | Free(Accepts(shadows, finals), g, i, f)
      ensures j < |rows| && (f == rows[j] || Earlier(rows[j], f))
    {
      assert f in rows;
      var k :| 0 <= k < |rows| && rows[k] == f;
      if n :| n in g && g[n].id == f.id {
        SameIdSameRow(finals, g[n], f);
        assert false;
      }
      assert j <= k;
      assert rows[j] in rows;
      if f != rows[j] {
        assert LogOrder(rows[j], f);
        if f.id == rows[j].id { SameIdSameRow(finals, f, rows[j]); }
      }
    }
  }

  lemma SameIdSameRow(rows: seq<Row>, a: Row, b: Row)
    requires UniqueIds(rows) && a in rows && b in rows && a.id == b.id
    ensures a == b
  {
    var i :| 0 <= i < |rows| && rows[i] == a;
    var j :| 0 <= j < |rows| && rows[j] == b;
  }

  /** Logs read from one table in loading order have the property the greedy pairing needs. */
  lemma LogsAreExchangeable(shadows: seq<Row>, finals: seq<Row>)
    requires FromOneTable(shadows, finals) && LoadedInOrder(shadows)
    ensures Exchangeable(Accepts(shadows, finals), Earlier)
  {
    var accepts := Accepts(shadows, finals);
    forall i: nat, j: nat, f, f' | i < j && accepts(i, f) && accepts(j, f) && accepts(i, f') && Earlier(f, f')
      ensures accepts(j, f')
    {
      assert Earlier(shadows[i], shadows[j]);
      assert shadows[j] in shadows;
    }
  }

  /** `consumed` holds the ids of the finals the pairing uses. */
  ghost predicate Consumed(g: Matching<Row>, consumed: set<int>) {
    forall id :: id in consumed <==> exists j :: j in g && g[j].id == id
  }

  /** The final for shadow number `i`, if one is free. */
  method PairShadow(shadows: seq<Row>, ghost finals: seq<Row>, i: nat, finalsByKey: map<RowKey, seq<Row>>,
                    consumed: set<int>, ghost g: Matching<Row>) returns (found: Option<Row>)
    requires i < |shadows| && UniqueIds(finals) && GroupedBy(finals, finalsByKey)
    requires forall k :: k in finalsByKey ==> Sorting.Sorted(LogOrder, finalsByKey[k])
    requires IsGreedy(Accepts(shadows, finals), Earlier, i, g)
    requires Consumed(g, consumed)
    ensures IsGreedy(Accepts(shadows, finals), Earlier, i + 1, if found.Some? then g[i := found.value] else g)
    ensures i !in g && Listing(shadows, if found.Some? then g[i := found.value] else g, i) == Listing(shadows, g, i)
  {
    var shadow := shadows[i];
    var key := KeyOf(shadow);
    if !Eligible(shadow) || key !in finalsByKey {
      Skip(Accepts(shadows, finals), Earlier, i, g);
      return None;
    }
    found := FindFinal(shadow, finalsByKey[key], consumed);
    ghost var j: nat := |finalsByKey[key]|;
    if found.Some? {
      j :| j < |finalsByKey[key]| && finalsByKey[key][j] == found.value &&
        NoneFreeBefore(shadow, finalsByKey[key], consumed, j);
    }
    ScanFindsEarliest(shadows, finals, g, i, finalsByKey[key], j);
    if found.None? {
      Skip(Accepts(shadows, finals), Earlier, i, g);
    } else {
      Take(Accepts(shadows, finals), Earlier, i, g, found.value);
      ListingIgnoresLater(shadows, g, i, found.value, i);
    }
  }

  /** The candidates list the pairs of the greedy pairing, in the order of the shadows. */
  ghost predicate IsRepair(shadows: seq<Row>, finals: seq<Row>, candidates: seq<Candidate>) {
    exists g :: IsRepairBy(shadows, finals, candidates, g)
  }

  ghost predicate IsRepairBy(shadows: seq<Row>, finals: seq<Row>, candidates: seq<Candidate>, g: Matching<Row>) {
    && IsGreedy(Accepts(shadows, finals), Earlier, |shadows|, g)
    && candidates == Listing(shadows, g, |shadows|) && |candidates| == |g|
  }

  /** Pairs each shadow in turn with its earliest unconsumed final. */
  method BuildCandidates(shadows: seq<Row>, finals: seq<Row>) returns (candidates: seq<Candidate>)
    requires UniqueIds(finals)
    ensures IsRepair(shadows, finals, candidates)
  {
    hide IsGreedy, Accepts, Consumed, GroupedBy;
    var finalsByKey := GroupByKey(finals);
    var consumed: set<int> := {};
    candidates := [];
    ghost var g: Matching<Row> := map[];
    NothingTaken(Accepts(shadows, finals), Earlier);
    NothingConsumed();
    for i := 0 to |shadows|
      invariant IsGreedy(Accepts(shadows, finals), Earlier, i, g)
      invariant candidates == Listing(shadows, g, i) && |candidates| == |g|
      invariant Consumed(g, consumed)
    {
      var found := PairShadow(shadows, finals, i, finalsByKey, consumed, g);
      if found.Some? {
        candidates := candidates + [CandidateOf(shadows[i], found.value)];
        ConsumeOneMore(g, i, found.value, consumed);
        g := g[i := found.value];
        consumed := consumed + {found.value.id};
      }
    }
    assert IsRepairBy(shadows, finals, candidates, g);
  }

  lemma NothingConsumed()
    ensures Consumed(map[], {})
  {
  }

  lemma ConsumeOneMore(g: Matching<Row>, i: nat, final: Row, consumed: set<int>)
    requires i !in g && Consumed(g, consumed)
    ensures |g[i := final]| == |g| + 1
    ensures Consumed(g[i := final], consumed + {final.id})
  {
    var g' := g[i := final];
    assert g'.Keys == g.Keys + {i};
    assert g'[i].id == final.id;
    forall id | id in consumed ensures exists j :: j in g' && g'[j].id == id {
      var j :| j in g && g[j].id == id;
      assert g'[j].id == id;
    }
  }

  lemma {:induction false} ListingIgnoresLater(shadows: seq<Row>, g: Matching<Row>, i: nat, f: Row, n: nat)
    requires n <= i < |shadows|
    ensures Listing(shadows, g[i := f], n) == Listing(shadows, g, n)
  {
    if n > 0 { ListingIgnoresLater(shadows, g, i, f, n - 1); }
  }

  /** For logs loaded in order from one table, no one-to-one pairing of qualifying shadows with finals
      repairs more shadows than the candidates do. */
  lemma CandidatesAreMaximum(shadows: seq<Row>, finals: seq<Row>, candidates: seq<Candidate>, m: Matching<Row>)
    requires FromOneTable(shadows, finals) && LoadedInOrder(shadows)
    requires IsRepair(shadows, finals, candidates)
    requires IsMatching(Accepts(shadows, finals), m)
    ensures |m| <= |candidates|
  {
    hide IsGreedy, Listing, Exchangeable, FromOneTable, LoadedInOrder, IsMatching;
    var g :| IsRepairBy(shadows, finals, candidates, g);
    LogsAreExchangeable(shadows, finals);
    MatchesShadows(shadows, finals, m);
    GreedyIsMaximum(Accepts(shadows, finals), Earlier, |shadows|, g, m);
  }

  lemma MatchesShadows(shadows: seq<Row>, finals: seq<Row>, m: Matching<Row>)
    requires IsMatching(Accepts(shadows, finals), m)
    ensures Below(|shadows|, m)
  {
    forall i | i in m ensures i < |shadows| {
      assert Accepts(shadows, finals)(i, m[i]);
    }
  }

  function SearchCall(arguments: seq<Field>): Value {
    Object([Field("method", String("tools/call")), Field("params", Object([Field("arguments", Object(arguments))]))])
  }

  /** A rejected search and its repetition two seconds later without the argument, whatever is searched for and
      whatever the argument said, are paired. */
  method RetriedSearchIsPaired(shadow: Row, final: Row, query: string, rejected: Value)
    returns (candidates: seq<Candidate>)
    requires shadow.rejectsIncludeUsage
    requires shadow.body == Some(SearchCall([Field("query", String(query)), Field("include_usage", rejected)]))
    requires final == shadow.(id := final.id, createdAt := shadow.createdAt + 2,
                              body := Some(SearchCall([Field("query", String(query))])), rejectsIncludeUsage := false)
    requires final.id != shadow.id
    ensures candidates == [Candidate(shadow.id, final.id, shadow.tokenId, shadow.apiKeyId)]
  {
    candidates := BuildCandidates([shadow], [final]);
    SearchIsScrubbed(query, rejected);
    hide Scrub;
    OnlyPair(shadow, final, candidates);
  }

  lemma SearchIsScrubbed(query: string, rejected: Value)
    ensures var kept := Field("query", String(query));
            && Scrub(SearchCall([kept, Field("include_usage", rejected)]), Anywhere) == (SearchCall([kept]), true)
            && Scrub(SearchCall([kept]), Anywhere) == (SearchCall([kept]), false)
  {
    var kept, gone := Field("query", String(query)), Field("include_usage", rejected);
    assert [kept, gone][1..] == [gone] && [gone][1..] == [] && [kept][1..] == [];
    assert forall call :: ScrubFields([gone], call, CallArguments) == ([], true);
    assert [kept] + [] == [kept];
    forall call
      ensures ScrubFields([kept, gone], call, CallArguments) == ([kept], true)
      ensures ScrubFields([kept], call, CallArguments) == ([kept], false)
    {
    }
    CallScrubbed([kept, gone], [kept], true);
    CallScrubbed([kept], [kept], false);
  }

  lemma CallScrubbed(arguments: seq<Field>, kept: seq<Field>, removed: bool)
    requires Scrub(Object(arguments), CallArguments) == (Object(kept), removed)
    ensures Scrub(SearchCall(arguments), Anywhere) == (SearchCall(kept), removed)
  {
    var args, params := Field("arguments", Object(arguments)), Object([Field("arguments", Object(arguments))]);
    OneFieldScrubbed(args, IsToolCall(params), CallParams);
    assert Scrub(params, CallParams) == (Object([Field("arguments", Object(kept))]), removed);
    var fields := [Field("method", String("tools/call")), Field("params", params)];
    assert fields[1..] == [Field("params", params)];
    OneFieldScrubbed(fields[1], true, Anywhere);
    assert IsToolCall(SearchCall(arguments));
    var after := Object([Field("arguments", Object(kept))]);
    assert [fields[0]] + [Field("params", after)] == [fields[0], Field("params", after)];
    assert ScrubFields(fields, true, Anywhere) == ([fields[0], Field("params", after)], removed);
  }

  lemma OneFieldScrubbed(f: Field, call: bool, place: Place)
    requires !(place == CallArguments && f.name == "include_usage")
    ensures var (v, removed) := Scrub(f.value, ChildPlace(call, place, f.name));
            ScrubFields([f], call, place) == ([Field(f.name, v)], removed)
  {
    assert [f][1..] == [];
    var v := Scrub(f.value, ChildPlace(call, place, f.name)).0;
    assert [Field(f.name, v)] + [] == [Field(f.name, v)];
  }

  lemma OnlyPair(shadow: Row, final: Row, candidates: seq<Candidate>)
    requires IsRepair([shadow], [final], candidates) && Qualifies(shadow, final)
    ensures candidates == [Candidate(shadow.id, final.id, shadow.tokenId, shadow.apiKeyId)]
  {
    hide Qualifies;
    var g :| IsRepairBy([shadow], [final], candidates, g);
    var accepts := Accepts([shadow], [final]);
    assert accepts(0, final);
    assert 0 !in g ==> Free(accepts, g, 0, final);
    assert accepts(0, g[0]);
    assert Listing([shadow], g, 0) == [];
  }

  // ---- Suppression ------------------------------------------------------------------------------

  datatype Visibility = Visible | SuppressedRetryShadow | Hidden

  class RequestLogTable {
    var visibility: map<int, Visibility>

    /** Hides the shadow of every candidate that is still visible, and nothing else. */
    method SuppressRetryShadows(candidates: seq<Candidate>) returns (suppressed: seq<int>)
      modifies this
      ensures visibility.Keys == old(visibility).Keys
      ensures forall id :: id in visibility ==>
                visibility[id] == if old(visibility)[id] == Visible &&
                  (exists c :: c in candidates && c.shadowLogId == id)
                                  then SuppressedRetryShadow else old(visibility)[id]
      ensures forall id :: id in suppressed <==> id in visibility && visibility[id] != old(visibility)[id]
    {
      hide IsHidden;
      suppressed := [];
      NothingHidden(visibility, candidates);
      for i := 0 to |candidates|
        invariant IsHidden(old(visibility), visibility, candidates[..i], suppressed)
      {
        var id := candidates[i].shadowLogId;
        HideOneMore(old(visibility), visibility, candidates, i, suppressed);
        if id in visibility && visibility[id] == Visible {
          visibility := visibility[id := SuppressedRetryShadow];
          suppressed := suppressed + [id];
        }
      }
      assert candidates[..|candidates|] == candidates;
      HiddenMeans(old(visibility), visibility, candidates, suppressed);
    }
  }

  /** Exactly the visible rows that are shadows of the candidates have been hidden, and are listed. */
  ghost predicate IsHidden(before: map<int, Visibility>, after: map<int, Visibility>, candidates: seq<Candidate>,
                           suppressed: seq<int>) {
    && after.Keys == before.Keys
    && (forall id :: id in after ==>
          after[id] == if before[id] == Visible && IsListed(candidates, id) then SuppressedRetryShadow else before[id])
    && (forall id :: id in suppressed <==> id in after && after[id] != before[id])
  }

  ghost predicate IsListed(candidates: seq<Candidate>, id: int) {
    exists c :: c in candidates && c.shadowLogId == id
  }

  lemma NothingHidden(before: map<int, Visibility>, candidates: seq<Candidate>)
    ensures IsHidden(before, before, candidates[..0], [])
  {
  }

  lemma HideOneMore(before: map<int, Visibility>, after: map<int, Visibility>, candidates: seq<Candidate>, i: nat,
                    suppressed: seq<int>)
    requires i < |candidates| && IsHidden(before, after, candidates[..i], suppressed)
    ensures var id := candidates[i].shadowLogId;
            if id in after && after[id] == Visible then
              IsHidden(before, after[id := SuppressedRetryShadow], candidates[..i + 1], suppressed + [id])
            else IsHidden(before, after, candidates[..i + 1], suppressed)
  {
    var c := candidates[i];
    assert candidates[..i + 1] == candidates[..i] + [c];
    forall id ensures IsListed(candidates[..i + 1], id) <==> IsListed(candidates[..i], id) || id == c.shadowLogId {
      if IsListed(candidates[..i], id) {
        var x :| x in candidates[..i] && x.shadowLogId == id;
        assert x in candidates[..i + 1];
      }
      assert c in candidates[..i + 1];
    }
    hide IsListed;
  }

  lemma HiddenMeans(before: map<int, Visibility>, after: map<int, Visibility>, candidates: seq<Candidate>,
                    suppressed: seq<int>)
    requires IsHidden(before, after, candidates, suppressed)
    ensures after.Keys == before.Keys
    ensures forall id :: id in after ==>
              after[id] == if before[id] == Visible && (exists c :: c in candidates && c.shadowLogId == id)
                           then SuppressedRetryShadow else before[id]
    ensures forall id :: id in suppressed <==> id in after && after[id] != before[id]
  {
  }

  ghost predicate IsShadow(shadows: seq<Row>, g: Matching<Row>, id: int) {
    exists i :: i in g && i < |shadows| && shadows[i].id == id
  }

  /** Following the links from shadow to final strictly advances in the log, so it ends: every suppressed
      request is still represented by a later row that is itself not a shadow. */
  lemma {:induction false} EveryShadowIsSucceeded(shadows: seq<Row>, finals: seq<Row>, g: Matching<Row>, i: nat)
    returns (survivor: Row)
    requires FromOneTable(shadows, finals) && LoadedInOrder(shadows)
    requires IsMatching(Accepts(shadows, finals), g) && Below(|shadows|, g) && i in g
    ensures survivor in finals && !IsShadow(shadows, g, survivor.id)
    ensures Earlier(shadows[i], survivor) && SameRequest(shadows[i], survivor)
    decreases |shadows| - i
  {
    var f := g[i];
    assert Accepts(shadows, finals)(i, f);
    if IsShadow(shadows, g, f.id) {
      var j :| j in g && j < |shadows| && shadows[j].id == f.id;
      assert shadows[j] in shadows && shadows[j] == f;
      survivor := EveryShadowIsSucceeded(shadows, finals, g, j);
    } else {
      survivor := f;
    }
  }

  /** The listing holds the candidates of the pairing and no others. */
  lemma {:induction false} ListingCovers(shadows: seq<Row>, g: Matching<Row>, n: nat)
    requires n <= |shadows|
    ensures forall c :: c in Listing(shadows, g, n) <==>
            exists i :: i in g && i < n && c == CandidateOf(shadows[i], g[i])
  {
    if n > 0 {
      ListingCovers(shadows, g, n - 1);
    }
  }

  /** After the candidates of a repair are suppressed, every row that was hidden is a shadow and leaves a visible
      later row with the same token, method, path, query and scrubbed body. */
  lemma SuppressionKeepsEveryRequest(shadows: seq<Row>, finals: seq<Row>, candidates: seq<Candidate>,
                                     before: map<int, Visibility>, after: map<int, Visibility>, suppressed: seq<int>,
                                       id: int)
      returns (shadow: Row, survivor: Row)
    requires FromOneTable(shadows, finals) && LoadedInOrder(shadows)
    requires IsRepair(shadows, finals, candidates) && IsHidden(before, after, candidates, suppressed)
    requires forall f :: f in finals ==> f.id in before && before[f.id] == Visible
    requires id in suppressed
    ensures shadow in shadows && shadow.id == id
    ensures survivor.id in after && after[survivor.id] == Visible
    ensures Earlier(shadow, survivor) && SameRequest(shadow, survivor)
  {
    hide FromOneTable, LoadedInOrder, SameRequest, Earlier, Accepts, Listing, IsGreedy;
    var g :| IsRepairBy(shadows, finals, candidates, g);
    ListingCovers(shadows, g, |shadows|);
    GreedyMatches(Accepts(shadows, finals), |shadows|, g);
    var c :| c in candidates && c.shadowLogId == id;
    var i :| i in g && i < |shadows| && c == CandidateOf(shadows[i], g[i]);
    shadow := shadows[i];
    survivor := EveryShadowIsSucceeded(shadows, finals, g, i);
    assert !IsListed(candidates, survivor.id);
  }

  lemma GreedyMatches(accepts: (nat, Row) -> bool, n: nat, g: Matching<Row>)
    requires IsGreedy(accepts, Earlier, n, g)
    ensures IsMatching(accepts, g) && Below(n, g)
  {
  }
}
