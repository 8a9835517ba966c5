/** The read-only audit that compares the ledger with the quota counters, subject by subject. */
module QuotaAudit {
  import opened Wrappers
  import opened BusinessQuota
  import opened QuotaRebase
  import opened QuotaLedger
  import Buckets

  /** What the audit reads, from one snapshot: the log rows, the sums of the minute and hour counters in their
      windows per token or account id, and the monthly tables. */
  datatype Answers = Answers(
    rows: seq<LogRow>,
    tokenMinutes: map<string, int>, accountMinutes: map<string, int>,
    tokenHours: map<string, int>, accountHours: map<string, int>,
    tokenMonths: QuotaTable, accountMonths: QuotaTable)

  datatype Window = Window(ledger: int, quota: int) {
    predicate IsMatch() { quota - ledger == 0 }
  }

  datatype Totals = Totals(hour: Window, day: Window, month: Window) {
    predicate HasAnyValue() { this != NO_TOTALS }
    predicate HasMismatch() { !hour.IsMatch() || !day.IsMatch() || !month.IsMatch() }
  }

  const NO_TOTALS := Totals(Window(0, 0), Window(0, 0), Window(0, 0))

  datatype Column = HourLedger | DayLedger | MonthLedger | HourQuota | DayQuota | MonthQuotaColumn

  function Set(t: Totals, c: Column, n: int): Totals {
    match c
    case HourLedger => t.(hour := t.hour.(ledger := n))
    case DayLedger => t.(day := t.day.(ledger := n))
    case MonthLedger => t.(month := t.month.(ledger := n))
    case HourQuota => t.(hour := t.hour.(quota := n))
    case DayQuota => t.(day := t.day.(quota := n))
    case MonthQuotaColumn => t.(month := t.month.(quota := n))
  }

  function Lookup<V>(m: map<string, V>, k: string, default: V): V {
    if k in m then m[k] else default
  }

  type Subjects = map<string, Totals>

  /** One of the loops that enter query rows into the subjects' totals; `text` names the subject of a row. */
  method Fill(subjects: Subjects, rows: map<string, int>, text: string -> string, c: Column) returns (filled: Subjects)
    requires forall i, j :: text(i) == text(j) ==> i == j
    ensures forall k :: k in rows ==>
              Lookup(filled, text(k), NO_TOTALS) == Set(Lookup(subjects, text(k), NO_TOTALS), c, rows[k])
    ensures forall s :: (forall k :: k in rows ==> text(k) != s) ==>
            Lookup(filled, s, NO_TOTALS) == Lookup(subjects, s, NO_TOTALS)
  {
    filled := subjects;
    var left := rows.Keys;
    while left != {}
      invariant left <= rows.Keys
      invariant forall k :: k in rows && k !in left ==>
                  Lookup(filled, text(k), NO_TOTALS) == Set(Lookup(subjects, text(k), NO_TOTALS), c, rows[k])
      invariant forall s :: (forall k :: k in rows.Keys - left ==> text(k) != s) ==>
                  Lookup(filled, s, NO_TOTALS) == Lookup(subjects, s, NO_TOTALS)
      decreases left
    {
      var k :| k in left;
      filled := filled[text(k) := Set(Lookup(filled, text(k), NO_TOTALS), c, rows[k])];
      left := left - {k};
    }
  }

  /** The counter of the subject named by a text, from the answers of its kind. */
  function Counter(tokens: map<string, int>, accounts: map<string, int>, subject: string): int {
    match ParseSubject(subject)
    case Some(Token(id)) => Lookup(tokens, id, 0)
    case Some(Account(id)) => Lookup(accounts, id, 0)
    case None => 0
  }

  /** The start of each window that ends now. */
  datatype Starts = Starts(hour: int, day: int, month: int)

  function StartsAt(monthStart: nat -> int, now: nat): Starts {
    Starts(Buckets.HourWindowStart(now), Buckets.DayWindowStart(now), monthStart(now))
  }

  /** What the audit must find for a subject. */
  function Expected(a: Answers, at: Starts, now: nat, subject: string): Totals {
    Totals(Window(GroupTotal(a.rows, subject, at.hour, now), Counter(a.tokenMinutes, a.accountMinutes, subject)),
           Window(GroupTotal(a.rows, subject, at.day, now), Counter(a.tokenHours, a.accountHours, subject)),
           Window(GroupTotal(a.rows, subject, at.month, now),
                  MonthQuota(Tables(a.tokenMonths, a.accountMonths), subject, at.month)))
  }

  /** The ledger query of one window: the charged credits of each subject. */
  function LedgerOf(rows: seq<LogRow>, from: int, to: int): map<string, int> {
    map s | s in Groups(rows, from, to) :: GroupTotal(rows, s, from, to)
  }

  lemma LedgerTotals(rows: seq<LogRow>, from: int, to: int, subject: string)
    ensures Lookup(LedgerOf(rows, from, to), subject, 0) == GroupTotal(rows, subject, from, to)
  {
    if subject !in Groups(rows, from, to) { UnlistedTotalIsZero(rows, subject, from, to); }
  }

  /** The non-zero effective counts of a monthly table. */
  function Effective(t: QuotaTable, month: int): map<string, int> {
    map k | k in t && t[k].start >= month && t[k].count != 0 :: t[k].count
  }

  /** The column is still empty for every subject. */
  ghost predicate IsBlank(subjects: Subjects, c: Column) {
    forall s :: Set(Lookup(subjects, s, NO_TOTALS), c, 0) == Lookup(subjects, s, NO_TOTALS)
  }

  method FillLedger(subjects: Subjects, totals: map<string, int>, c: Column) returns (filled: Subjects)
    requires IsBlank(subjects, c)
    ensures forall s :: Lookup(filled, s, NO_TOTALS) == Set(Lookup(subjects, s, NO_TOTALS), c, Lookup(totals, s, 0))
  {
    filled := Fill(subjects, totals, s => s, c);
  }

  method FillCounters(subjects: Subjects, tokens: map<string, int>, accounts: map<string, int>, c: Column)
    returns (filled: Subjects)
    requires IsBlank(subjects, c)
    ensures forall s ::
              Lookup(filled, s, NO_TOTALS) == Set(Lookup(subjects, s, NO_TOTALS), c, Counter(tokens, accounts, s))
  {
    TextsAreInjective();
    var half := Fill(subjects, tokens, TokenText, c);
    filled := Fill(half, accounts, AccountText, c);
    forall s ensures Lookup(filled, s, NO_TOTALS) ==
      Set(Lookup(subjects, s, NO_TOTALS), c, Counter(tokens, accounts, s)) {
      CounterAsFilled(tokens, accounts, s);
      hide Set, Counter, ParseSubject;
      if k :| k in tokens && TokenText(k) == s {
        assert Lookup(half, s, NO_TOTALS) == Set(Lookup(subjects, s, NO_TOTALS), c, tokens[k]);
      } else if k :| k in accounts && AccountText(k) == s {
        assert Lookup(filled, s, NO_TOTALS) == Set(Lookup(half, s, NO_TOTALS), c, accounts[k]);
      }
    }
  }

  lemma CounterAsFilled(tokens: map<string, int>, accounts: map<string, int>, s: string)
    ensures forall k :: k in tokens && TokenText(k) == s ==> Counter(tokens, accounts, s) == tokens[k]
    ensures forall k :: k in accounts && AccountText(k) == s ==> Counter(tokens, accounts, s) == accounts[k]
    ensures (forall k :: k in tokens ==> TokenText(k) != s) && (forall k :: k in accounts ==> AccountText(k) != s) ==>
              Counter(tokens, accounts, s) == 0
  {
    hide Format, ParseSubject;
    forall k ensures TokenText(k) == s <==> ParseSubject(s) == Some(Token(k)) {
      SubjectRoundTrip(Token(k), s);
    }
    forall k ensures AccountText(k) == s <==> ParseSubject(s) == Some(Account(k)) {
      SubjectRoundTrip(Account(k), s);
    }
  }

  lemma EffectiveCounts(a: Answers, month: int, s: string)
    ensures Counter(Effective(a.tokenMonths, month), Effective(a.accountMonths, month), s)
         == MonthQuota(Tables(a.tokenMonths, a.accountMonths), s, month)
  {
  }

  method Collect(a: Answers, at: Starts, now: nat) returns (subjects: Subjects)
    ensures forall s :: Lookup(subjects, s, NO_TOTALS) == Expected(a, at, now, s)
  {
    hide Counter, MonthQuota, Lookup, IsBlank, Effective, Expected, LedgerOf;
    NothingFilled();
    var hours, days, months := LedgerOf(a.rows, at.hour, now), LedgerOf(a.rows, at.day, now),
      LedgerOf(a.rows, at.month, now);
    var one := FillLedger(map[], hours, HourLedger);
    StaysBlank(map[], one, HourLedger, s => Lookup(hours, s, 0));
    var two := FillLedger(one, days, DayLedger);
    StaysBlank(one, two, DayLedger, s => Lookup(days, s, 0));
    var three := FillLedger(two, months, MonthLedger);
    StaysBlank(two, three, MonthLedger, s => Lookup(months, s, 0));
    var four := FillCounters(three, a.tokenMinutes, a.accountMinutes, HourQuota);
    StaysBlank(three, four, HourQuota, s => Counter(a.tokenMinutes, a.accountMinutes, s));
    var five := FillCounters(four, a.tokenHours, a.accountHours, DayQuota);
    StaysBlank(four, five, DayQuota, s => Counter(a.tokenHours, a.accountHours, s));
    var tokens, accounts := Effective(a.tokenMonths, at.month), Effective(a.accountMonths, at.month);
    subjects := FillCounters(five, tokens, accounts, MonthQuotaColumn);
    forall s ensures Lookup(subjects, s, NO_TOTALS) == Expected(a, at, now, s) {
      LedgerTotals(a.rows, at.hour, now, s);
      LedgerTotals(a.rows, at.day, now, s);
      LedgerTotals(a.rows, at.month, now, s);
      EffectiveCounts(a, at.month, s);
      ColumnsMakeTotals(a, at, now, s);
    }
  }

  lemma NothingFilled()
    ensures forall c :: IsBlank(map[], c)
    ensures forall s :: Lookup(map[], s, NO_TOTALS) == NO_TOTALS
  {
  }

  /** Filling one column leaves the others blank. */
  lemma StaysBlank(subjects: Subjects, filled: Subjects, c: Column, n: string -> int)
    requires forall s :: Lookup(filled, s, NO_TOTALS) == Set(Lookup(subjects, s, NO_TOTALS), c, n(s))
    ensures forall other :: other != c && IsBlank(subjects, other) ==> IsBlank(filled, other)
  {
    forall other | other != c && IsBlank(subjects, other) ensures IsBlank(filled, other) {
      forall s ensures Set(Lookup(filled, s, NO_TOTALS), other, 0) == Lookup(filled, s, NO_TOTALS) {
        assert Set(Lookup(subjects, s, NO_TOTALS), other, 0) == Lookup(subjects, s, NO_TOTALS);
      }
    }
  }

  lemma ColumnsMakeTotals(a: Answers, at: Starts, now: nat, s: string)
    ensures Set(Set(Set(Set(Set(Set(NO_TOTALS,
                HourLedger, GroupTotal(a.rows, s, at.hour, now)),
                DayLedger, GroupTotal(a.rows, s, at.day, now)),
                MonthLedger, GroupTotal(a.rows, s, at.month, now)),
                HourQuota, Counter(a.tokenMinutes, a.accountMinutes, s)),
                DayQuota, Counter(a.tokenHours, a.accountHours, s)),
                MonthQuotaColumn, MonthQuota(Tables(a.tokenMonths, a.accountMonths), s, at.month))
            == Expected(a, at, now, s)
  {
    hide Counter, MonthQuota, GroupTotal;
  }

  // ---- The report -------------------------------------------------------------------------------

  datatype Summary = Summary(subjects: nat, mismatched: nat, hourOnly: nat, dayOnly: nat, monthOnly: nat, mixed: nat)

  predicate IsMismatch(t: Totals) { t.HasMismatch() }
  predicate IsHourOnly(t: Totals) { !t.hour.IsMatch() && t.day.IsMatch() && t.month.IsMatch() }
  predicate IsDayOnly(t: Totals) { t.hour.IsMatch() && !t.day.IsMatch() && t.month.IsMatch() }
  predicate IsMonthOnly(t: Totals) { t.hour.IsMatch() && t.day.IsMatch() && !t.month.IsMatch() }

  ghost function Where(entries: Subjects, p: Totals -> bool): set<string> {
    set x | x in entries && p(entries[x])
  }

  /** The counts of a report: each kind of mismatch is counted right, and the four kinds make up all of them. */
  ghost predicate IsTally(s: Summary, entries: Subjects) {
    && s.subjects == |entries|
    && s.mismatched == |Where(entries, IsMismatch)|
    && s.hourOnly == |Where(entries, IsHourOnly)|
    && s.dayOnly == |Where(entries, IsDayOnly)|
    && s.monthOnly == |Where(entries, IsMonthOnly)|
    && s.mismatched == s.hourOnly + s.dayOnly + s.monthOnly + s.mixed
  }

  function CountEntry(s: Summary, t: Totals): Summary {
    var s := s.(subjects := s.subjects + 1);
    if !t.HasMismatch() then s
    else
      var s := s.(mismatched := s.mismatched + 1);
      match (!t.hour.IsMatch(), !t.day.IsMatch(), !t.month.IsMatch())
      case (true, false, false) => s.(hourOnly := s.hourOnly + 1)
      case (false, true, false) => s.(dayOnly := s.dayOnly + 1)
      case (false, false, true) => s.(monthOnly := s.monthOnly + 1)
      case _ => s.(mixed := s.mixed + 1)
  }

  lemma CountOneMore(s: Summary, entries: Subjects, x: string, t: Totals)
    requires IsTally(s, entries) && x !in entries
    ensures IsTally(CountEntry(s, t), entries[x := t])
  {
    hide Where;
    assert entries[x := t].Keys == entries.Keys + {x};
    WhereOneMore(entries, x, t, IsMismatch);
    WhereOneMore(entries, x, t, IsHourOnly);
    WhereOneMore(entries, x, t, IsDayOnly);
    WhereOneMore(entries, x, t, IsMonthOnly);
  }

  lemma WhereOneMore(entries: Subjects, x: string, t: Totals, p: Totals -> bool)
    requires x !in entries
    ensures |Where(entries[x := t], p)| == |Where(entries, p)| + if p(t) then 1 else 0
  {
    assert Where(entries[x := t], p) == if p(t) then Where(entries, p) + {x} else Where(entries, p);
  }

  /** The audit fails exactly when a charged row since the start of the day or month window has no subject that
      passes the check, or a subject with anything to report does not parse. Else it reports every subject with
      anything to report, each with exactly its ledger and counter values. */
  method Audit(a: Answers, monthStart: nat -> int, now: nat) returns (r: Result<(Subjects, Summary), string>)
    ensures var at := StartsAt(monthStart, now);
            && (r.Success? <==>
                  && SubjectsAreValid(a.rows, Min(at.day, at.month), now)
                  && forall s :: Expected(a, at, now, s).HasAnyValue() ==> ParseSubject(s).Some?)
            && (r.Success? ==>
                  && (forall s :: s in r.value.0 <==> Expected(a, at, now, s).HasAnyValue())
                  && (forall s :: s in r.value.0 ==> r.value.0[s] == Expected(a, at, now, s))
                  && IsTally(r.value.1, r.value.0))
  {
    hide Expected, ParseSubject, IsTally, CountEntry, SubjectsAreValid, StartsAt;
    var at := StartsAt(monthStart, now);
    if !SubjectsAreValid(a.rows, Min(at.day, at.month), now) {
      return Failure("invalid billing_subject");
    }
    var subjects := Collect(a, at, now);
    var entries: Subjects := map[];
    var summary := Summary(0, 0, 0, 0, 0, 0);
    NothingReported();
    var left := subjects.Keys;
    while left != {}
      invariant left <= subjects.Keys
      invariant forall s :: s in entries <==> s in subjects.Keys - left && subjects[s].HasAnyValue()
      invariant forall s :: s in entries ==> entries[s] == subjects[s] && ParseSubject(s).Some?
      invariant IsTally(summary, entries)
      decreases left
    {
      var s :| s in left;
      left := left - {s};
      var totals := subjects[s];
      if !totals.HasAnyValue() {
        continue;
      }
      if ParseSubject(s).None? {
        assert Lookup(subjects, s, NO_TOTALS) == totals;
        return Failure("invalid billing subject: " + s);
      }
      CountOneMore(summary, entries, s, totals);
      summary := CountEntry(summary, totals);
      entries := entries[s := totals];
    }
    forall s ensures s in entries <==> Expected(a, at, now, s).HasAnyValue() {
      assert Lookup(subjects, s, NO_TOTALS) == Expected(a, at, now, s);
    }
    r := Success((entries, summary));
  }

  lemma NothingReported()
    ensures IsTally(Summary(0, 0, 0, 0, 0, 0), map[])
  {
    assert Where(map[], IsMismatch) == {} && Where(map[], IsHourOnly) == {};
    assert Where(map[], IsDayOnly) == {} && Where(map[], IsMonthOnly) == {};
  }

  /** An audit of the tables a rebase has just written, over the same rows, finds no month difference. */
  lemma RebasedMonthsMatch(a: Answers, before: Tables, at: Starts, now: nat, subject: string)
    requires IsRebased(before, Tables(a.tokenMonths, a.accountMonths), a.rows, Groups(a.rows, at.month, now), at.month,
                       now)
    requires forall s :: s in Groups(a.rows, at.month, now) ==> ParseSubject(s).Some?
    ensures Expected(a, at, now, subject).month.IsMatch()
  {
    AuditAfterRebaseIsClean(before, Tables(a.tokenMonths, a.accountMonths), a.rows, at.month, now, subject);
  }

  // ---- A store that is kept well ----------------------------------------------------------------

  /** The time and credits of a charge. */
  type Charge = (int, int)

  function ChargesOf(events: seq<Event>): seq<Charge> {
    if events == [] then []
    else
      var n := |events| - 1;
      var e := events[n];
      ChargesOf(events[..n]) + if e.Charged? && e.credits > 0 then [(e.createdAt as int, e.credits as int)] else []
  }

  function ChargesIn(rows: seq<LogRow>, subject: string): seq<Charge> {
    if rows == [] then []
    else
      var n := |rows| - 1;
      var r := rows[n];
      ChargesIn(rows[..n], subject) +
      if r.billingState == "charged" && r.credits.GetOr(0) > 0 &&
        r.subject == Some(subject) then [(r.createdAt, r.credits.value)] else []
  }

  function SumWithin(charges: seq<Charge>, from: int, to: int): int {
    if charges == [] then 0
    else
      var n := |charges| - 1;
      SumWithin(charges[..n], from, to) + if from <= charges[n].0 <= to then charges[n].1 else 0
  }

  lemma {:induction false} SumConcat(s: seq<Charge>, t: seq<Charge>, from: int, to: int)
    ensures SumWithin(s + t, from, to) == SumWithin(s, from, to) + SumWithin(t, from, to)
  {
    if t == [] {
      assert s + t == s;
    } else {
      var n := |t| - 1;
      assert (s + t)[..|s| + n] == s + t[..n] && (s + t)[|s| + n] == t[n];
      SumConcat(s, t[..n], from, to);
    }
  }

  lemma SumOne(c: Charge, from: int, to: int)
    ensures SumWithin([c], from, to) == if from <= c.0 <= to then c.1 else 0
  {
    assert [c][..0] == [];
  }

  lemma SumWithout(s: seq<Charge>, k: nat, from: int, to: int)
    requires k < |s|
    ensures SumWithin(s, from, to) == SumWithin(s[..k] + s[k + 1..], from, to) + if from <= s[k].0 <= to then s[k].1
            else 0
  {
    hide SumWithin;
    assert s == s[..k] + ([s[k]] + s[k + 1..]);
    SumConcat(s[..k], s[k + 1..], from, to);
    SumConcat(s[..k], [s[k]] + s[k + 1..], from, to);
    SumConcat([s[k]], s[k + 1..], from, to);
    SumOne(s[k], from, to);
  }

  /** The sum does not depend on the order of the charges. */
  lemma {:induction false} SumPermuted(s: seq<Charge>, t: seq<Charge>, from: int, to: int)
    requires multiset(s) == multiset(t)
    ensures SumWithin(s, from, to) == SumWithin(t, from, to)
    decreases |s|
  {
    hide SumWithin;
    assert |multiset(s)| == |s| && |multiset(t)| == |t|;
    if s == [] {
      assert t == [];
    } else {
      var n := |s| - 1;
      assert s[n] in multiset(t);
      var k :| 0 <= k < |t| && t[k] == s[n];
      WithoutOne(s, n);
      WithoutOne(t, k);
      SumWithout(s, n, from, to);
      SumWithout(t, k, from, to);
      SumPermuted(s[..n] + s[n + 1..], t[..k] + t[k + 1..], from, to);
    }
  }

  lemma WithoutOne(s: seq<Charge>, k: nat)
    requires k < |s|
    ensures multiset(s[..k] + s[k + 1..]) == multiset(s) - multiset{s[k]}
  {
    assert s == s[..k] + ([s[k]] + s[k + 1..]);
  }

  lemma {:induction false} LedgerIsSum(events: seq<Event>, from: int, to: int)
    ensures Ledger(events, from, to) == SumWithin(ChargesOf(events), from, to)
  {
    if events != [] {
      var n := |events| - 1;
      var e := events[n];
      LedgerIsSum(events[..n], from, to);
      if e.Charged? && e.credits > 0 {
        SumConcat(ChargesOf(events[..n]), [(e.createdAt as int, e.credits as int)], from, to);
        SumOne((e.createdAt as int, e.credits as int), from, to);
      } else {
        assert ChargesOf(events) == ChargesOf(events[..n]);
      }
    }
  }

  lemma {:induction false} GroupIsSum(rows: seq<LogRow>, subject: string, from: int, to: int)
    ensures GroupTotal(rows, subject, from, to) == SumWithin(ChargesIn(rows, subject), from, to)
  {
    if rows != [] {
      var n := |rows| - 1;
      var r := rows[n];
      GroupIsSum(rows[..n], subject, from, to);
      if r.billingState == "charged" && r.credits.GetOr(0) > 0 && r.subject == Some(subject) {
        SumConcat(ChargesIn(rows[..n], subject), [(r.createdAt, r.credits.value)], from, to);
        SumOne((r.createdAt, r.credits.value), from, to);
      } else {
        assert ChargesIn(rows, subject) == ChargesIn(rows[..n], subject);
      }
    }
  }

  function StoredMonth(a: Answers, subject: string): Option<MonthRow> {
    match ParseSubject(subject)
    case Some(Token(id)) => if id in a.tokenMonths then Some(a.tokenMonths[id]) else None
    case Some(Account(id)) => if id in a.accountMonths then Some(a.accountMonths[id]) else None
    case None => None
  }

  /** The counters of a subject are those that the events leave, and the events settle its charged rows, each once. */
  ghost predicate IsKept(a: Answers, monthStart: nat -> int, now: nat, subject: string, events: seq<Event>) {
    var u := Counted(monthStart, events);
    && multiset(ChargesOf(events)) == multiset(ChargesIn(a.rows, subject))
    && Counter(a.tokenMinutes, a.accountMinutes, subject) == Buckets.SumWhere(u.minutes, HourWindow(now))
    && Counter(a.tokenHours, a.accountHours, subject) == Buckets.SumWhere(u.hours, DayWindow(now))
    && StoredMonth(a, subject) == u.month
  }

  /** The audit of a store whose counters were kept by settlements, clean-ups and reads, in whatever order, finds
      no difference for the subject in any of the three windows. */
  lemma KeptStoreIsClean(a: Answers, monthStart: nat -> int, now: nat, subject: string, events: seq<Event>)
    requires IsMonthly(monthStart) && NoneLaterThan(events, now) && IsKept(a, monthStart, now, subject, events)
    ensures !Expected(a, StartsAt(monthStart, now), now, subject).HasMismatch()
  {
    hide Counted, ChargesOf, ChargesIn, Counter, HourWindow, DayWindow, GroupTotal, Ledger, MonthQuota, IsMonthly,
      NoneLaterThan;
    hide Buckets.SumWhere, Buckets.HourWindowStart, Buckets.DayWindowStart, StoredMonth, MonthUsed;
    var at := StartsAt(monthStart, now);
    BucketsMatchLedger(monthStart, events, now);
    MonthMatchesLedger(monthStart, events, now);
    SettledTotals(a, subject, events, at.hour, now);
    SettledTotals(a, subject, events, at.day, now);
    SettledTotals(a, subject, events, at.month, now);
    MonthIsUsed(a, monthStart, now, subject, Counted(monthStart, events));
  }

  lemma MonthIsUsed(a: Answers, monthStart: nat -> int, now: nat, subject: string, u: Usage)
    requires StoredMonth(a, subject) == u.month
    ensures MonthQuota(Tables(a.tokenMonths, a.accountMonths), subject, monthStart(now)) ==
            MonthUsed(monthStart, u, now)
  {
  }

  lemma SettledTotals(a: Answers, subject: string, events: seq<Event>, from: int, to: int)
    requires multiset(ChargesOf(events)) == multiset(ChargesIn(a.rows, subject))
    ensures GroupTotal(a.rows, subject, from, to) == Ledger(events, from, to)
  {
    LedgerIsSum(events, from, to);
    GroupIsSum(a.rows, subject, from, to);
    SumPermuted(ChargesOf(events), ChargesIn(a.rows, subject), from, to);
  }
}
