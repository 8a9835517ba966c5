/** The fragment of SQL that the classifiers generate, with three-valued logic: a comparison with NULL is
    NULL, and CASE takes a branch only if its condition is true. */
module Sql {
  import opened Wrappers
  import opened Json
  import opened Text

  /** `Doc` is a text that is a JSON document; `Txt` is any other text. */
  datatype SqlValue = Nul | Int(n: int) | Txt(s: string) | Doc(json: Value)

  datatype Column = RequestPath | RequestKind | ResultStatus | FailureKind | RequestBody

  /** Operators on one value. `Like` has a pattern of the form 'prefix%'. */
  datatype Unary =
    | Lowering                                         // LOWER(a)
    | Trimming                                         // TRIM(a)
    | Dashing                                          // REPLACE(a, '_', '-')
    | Negation                                         // NOT a
    | NullTest                                         // a IS NULL
    | JsonTest                                         // json_valid(a)
    | ArrayTest                                        // json_type(a) = 'array'
    | ObjectTest                                       // json_type(a) = 'object'
    | Extraction(field: string)                        // json_extract(a, '$.field')
    | Membership(list: seq<string>)                    // a IN (...)
    | Matching(prefix: string)                         // a LIKE 'prefix%'

  datatype Binary = FirstNonNull | NullIfEqual | Joining | Equality | Inequality | Conjunction | Disjunction

  /** Subqueries over the items of an array: EXISTS (... WHERE of), COUNT(DISTINCT of) and MIN(of). */
  datatype Aggregate = Existence | DistinctCount | Minimum

  datatype Expr =
    | Lit(value: SqlValue)
    | Col(column: Column)
    | ItemValue                                        // items.value inside a subquery
    | Apply(op: Unary, a: Expr)
    | Combine(how: Binary, a: Expr, b: Expr)
    | OverItems(agg: Aggregate, a: Expr, of: Expr)     // over json_each(a) AS items
    | CaseWhen(a: Expr, then_: Expr, else_: Expr)

  function LowerOf(a: Expr): Expr { Apply(Lowering, a) }
  function TrimOf(a: Expr): Expr { Apply(Trimming, a) }
  function DashesOf(a: Expr): Expr { Apply(Dashing, a) }
  function Not(a: Expr): Expr { Apply(Negation, a) }
  function IsNull(a: Expr): Expr { Apply(NullTest, a) }
  function JsonValid(a: Expr): Expr { Apply(JsonTest, a) }
  function JsonIsArray(a: Expr): Expr { Apply(ArrayTest, a) }
  function JsonIsObject(a: Expr): Expr { Apply(ObjectTest, a) }
  function JsonField(a: Expr, field: string): Expr { Apply(Extraction(field), a) }
  function In(a: Expr, list: seq<string>): Expr { Apply(Membership(list), a) }
  function Like(a: Expr, prefix: string): Expr { Apply(Matching(prefix), a) }
  function Coalesce(a: Expr, b: Expr): Expr { Combine(FirstNonNull, a, b) }
  function NullIf(a: Expr, b: Expr): Expr { Combine(NullIfEqual, a, b) }
  function Concat(a: Expr, b: Expr): Expr { Combine(Joining, a, b) }
  function Eq(a: Expr, b: Expr): Expr { Combine(Equality, a, b) }
  function Ne(a: Expr, b: Expr): Expr { Combine(Inequality, a, b) }
  function And(a: Expr, b: Expr): Expr { Combine(Conjunction, a, b) }
  function Or(a: Expr, b: Expr): Expr { Combine(Disjunction, a, b) }
  function ExistsItem(a: Expr, where_: Expr): Expr { OverItems(Existence, a, where_) }
  function CountDistinct(a: Expr, of: Expr): Expr { OverItems(DistinctCount, a, of) }
  function MinOver(a: Expr, of: Expr): Expr { OverItems(Minimum, a, of) }

  datatype Row = Row(path: SqlValue, kind: SqlValue, status: SqlValue, failure: SqlValue, body: SqlValue)

  function Truth(b: bool): SqlValue { Int(if b then 1 else 0) }

  predicate IsTrue(v: SqlValue) { v.Int? && v.n != 0 }

  predicate IsFalse(v: SqlValue) { v == Int(0) }

  function And3(a: SqlValue, b: SqlValue): SqlValue {
    if IsFalse(a) || IsFalse(b) then Int(0) else if IsTrue(a) && IsTrue(b) then Int(1) else Nul
  }

  function Or3(a: SqlValue, b: SqlValue): SqlValue {
    if IsTrue(a) || IsTrue(b) then Int(1) else if IsFalse(a) && IsFalse(b) then Int(0) else Nul
  }

  function Not3(a: SqlValue): SqlValue {
    if IsTrue(a) then Int(0) else if IsFalse(a) then Int(1) else Nul
  }

  function Eq3(a: SqlValue, b: SqlValue): SqlValue {
    if a.Nul? || b.Nul? then Nul else Truth(a == b)
  }

  /** SQL TRIM removes spaces only. */
  function TrimSpacesStart(s: string): string {
    if s != [] && s[0] == ' ' then TrimSpacesStart(s[1..]) else s
  }

  function TrimSpacesEnd(s: string): string {
    if s != [] && s[|s| - 1] == ' ' then TrimSpacesEnd(s[..|s| - 1]) else s
  }

  /** LIKE ignores the case of ASCII letters. */
  predicate HasPrefixIgnoringCase(s: string, prefix: string) {
    |prefix| <= |s| && Lower(s[..|prefix|]) == Lower(prefix)
  }

  /** A JSON value as SQL sees it: null is NULL, strings are texts, booleans are integers. */
  function FromJson(v: Value): SqlValue {
    match v
    case Null => Nul
    case Bool(b) => Truth(b)
    case String(t) => Txt(t)
    case _ => Doc(v)
  }

  function Field3(a: SqlValue, field: string): SqlValue {
    if a.Doc? then (match a.json.Get(field) case None => Nul case Some(v) => FromJson(v)) else Nul
  }

  /** The values that COUNT(DISTINCT ...) counts. */
  function NonNull(values: seq<SqlValue>): set<SqlValue> {
    set i | 0 <= i < |values| && !values[i].Nul? :: values[i]
  }

  predicate TextBefore(a: string, b: string) {
    b != [] && (a == [] || a[0] < b[0] || (a[0] == b[0] && TextBefore(a[1..], b[1..])))
  }

  /** MIN over texts; NULL is ignored. */
  function Least(values: seq<SqlValue>): SqlValue {
    if values == [] then Nul
    else
      var m, v := Least(values[..|values| - 1]), values[|values| - 1];
      if m.Nul? || (m.Txt? && v.Txt? && TextBefore(v.s, m.s)) then v else m
  }

  predicate AnyTrue(values: seq<SqlValue>) {
    exists i :: 0 <= i < |values| && IsTrue(values[i])
  }

  function CellOf(row: Row, c: Column): SqlValue {
    match c
    case RequestPath => row.path
    case RequestKind => row.kind
    case ResultStatus => row.status
    case FailureKind => row.failure
    case RequestBody => row.body
  }

  function Apply1(op: Unary, v: SqlValue): SqlValue {
    match op
    case Lowering => if v.Txt? then Txt(Lower(v.s)) else v
    case Trimming => if v.Txt? then Txt(TrimSpacesEnd(TrimSpacesStart(v.s))) else v
    case Dashing => if v.Txt? then Txt(Dashed(v.s)) else v
    case Negation => Not3(v)
    case NullTest => Truth(v.Nul?)
    case JsonTest => if v.Nul? then Nul else Truth(v.Doc?)
    case ArrayTest => if !v.Doc? then Nul else Truth(v.json.Array?)
    case ObjectTest => if !v.Doc? then Nul else Truth(v.json.Object?)
    case Extraction(field) => Field3(v, field)
    case Membership(list) => if v.Nul? then Nul else Truth(v.Txt? && v.s in list)
    case Matching(prefix) => if v.Nul? then Nul else Truth(v.Txt? && HasPrefixIgnoringCase(v.s, prefix))
  }

  function Apply2(how: Binary, v: SqlValue, w: SqlValue): SqlValue {
    match how
    case FirstNonNull => if v.Nul? then w else v
    case NullIfEqual => if IsTrue(Eq3(v, w)) then Nul else v
    case Joining => if v.Txt? && w.Txt? then Txt(v.s + w.s) else Nul
    case Equality => Eq3(v, w)
    case Inequality => Not3(Eq3(v, w))
    case Conjunction => And3(v, w)
    case Disjunction => Or3(v, w)
  }

  function Summary(agg: Aggregate, values: seq<SqlValue>): SqlValue {
    match agg
    case Existence => Truth(AnyTrue(values))
    case DistinctCount => Int(|NonNull(values)|)
    case Minimum => Least(values)
  }

  function Eval(e: Expr, row: Row, item: SqlValue): SqlValue
    decreases e, 0
  {
    match e
    case Lit(v) => v
    case Col(c) => CellOf(row, c)
    case ItemValue => item
    case Apply(op, a) => Apply1(op, Eval(a, row, item))
    case Combine(how, a, b) => Apply2(how, Eval(a, row, item), Eval(b, row, item))
    case OverItems(agg, a, of) =>
      var v := Eval(a, row, item);
      Summary(agg, if v.Doc? && v.json.Array? then ItemValues(of, row, v.json.items) else [])
    case CaseWhen(a, then_, else_) =>
      if IsTrue(Eval(a, row, item)) then Eval(then_, row, item) else Eval(else_, row, item)
  }

  /** The value of an expression for each item of an array. */
  function ItemValues(e: Expr, row: Row, items: seq<Value>): (r: seq<SqlValue>)
    ensures |r| == |items| && forall i :: 0 <= i < |items| ==> r[i] == Eval(e, row, FromJson(items[i]))
    decreases e, 1
  {
    seq(|items|, i requires 0 <= i < |items| => Eval(e, row, FromJson(items[i])))
  }
}
