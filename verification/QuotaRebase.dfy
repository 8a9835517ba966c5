/** The monthly rebase, which rewrites the quota tables from the ledger, and the audit, which compares the two. */
module QuotaRebase {
  import opened Wrappers
  import opened Sums
  import opened BusinessQuota
  import Sorting
  import Text

  // ---- Billing subjects -------------------------------------------------------------------------

  datatype Subject = Token(id: string) | Account(id: string)

  function Format(s: Subject): string {
    match s
    case Token(id) => "token:" + id
    case Account(id) => "account:" + id
  }

  function ParseSubject(text: string): Option<Subject> {
    if "account:" <= text then Some(Account(text[8..]))
    else if "token:" <= text then Some(Token(text[6..]))
    else None
  }

  /** Formatting and parsing are inverse to each other. */
  lemma SubjectRoundTrip(s: Subject, text: string)
    ensures ParseSubject(Format(s)) == Some(s)
    ensures ParseSubject(text).Some? ==> Format(ParseSubject(text).value) == text
  {
    match s {
      case Token(id) =>
        assert Format(s)[0] == 't';
        assert Format(s)[6..] == id;
      case Account(id) => assert Format(s)[8..] == id;
    }
  }

  /** SQL `LIKE 'prefix%'`, which ignores the case of ASCII letters. */
  predicate LikePrefix(text: string, prefix: string) {
    |prefix| <= |text| && Text.Lower(text[..|prefix|]) == Text.Lower(prefix)
  }

  // ---- The log table ----------------------------------------------------------------------------

  datatype LogRow = LogRow(subject: Option<string>, credits: Option<int>, billingState: string, createdAt: int)

  predicate InWindow(r: LogRow, from: int, to: int) {
    r.billingState == "charged" && r.credits.GetOr(0) > 0 && from <= r.createdAt <= to
  }

  predicate HasLikelySubject(r: LogRow) {
    r.subject.Some? && (LikePrefix(r.subject.value, "token:") || LikePrefix(r.subject.value, "account:"))
  }

  /** The check that precedes both operations. */
  predicate SubjectsAreValid(rows: seq<LogRow>, from: int, to: int) {
    forall r :: r in rows && InWindow(r, from, to) ==> HasLikelySubject(r)
  }

  /** Credits charged to one subject in a window: one group of the `GROUP BY`. */
  function GroupTotal(rows: seq<LogRow>, subject: string, from: int, to: int): nat {
    if rows == [] then 0
    else
      var n := |rows| - 1;
      GroupTotal(rows[..n], subject, from, to) +
      if InWindow(rows[n], from, to) && rows[n].subject == Some(subject) then rows[n].credits.value else 0
  }

  /** Credits charged to anybody in a window. */
  function ChargedTotal(rows: seq<LogRow>, from: int, to: int): nat {
    if rows == [] then 0
    else
      var n := |rows| - 1;
      ChargedTotal(rows[..n], from, to) + if InWindow(rows[n], from, to) then rows[n].credits.value else 0
  }

  /** The subjects that the `GROUP BY` lists. */
  function Groups(rows: seq<LogRow>, from: int, to: int): set<string> {
    set r | r in rows && InWindow(r, from, to) && r.subject.Some? :: r.subject.value
  }

  lemma {:induction false} UnlistedTotalIsZero(rows: seq<LogRow>, subject: string, from: int, to: int)
    requires subject !in Groups(rows, from, to)
    ensures GroupTotal(rows, subject, from, to) == 0
  {
    if rows != [] {
      var n := |rows| - 1;
      assert rows[n] in rows;
      assert Groups(rows[..n], from, to) <= Groups(rows, from, to);
      UnlistedTotalIsZero(rows[..n], subject, from, to);
    }
  }

  // ---- The rebase -------------------------------------------------------------------------------

  type QuotaTable = map<string, MonthRow>

  datatype Tables = Tables(tokens: QuotaTable, accounts: QuotaTable)

  datatype Report = Report(chargedCredits: nat, rebasedSubjects: nat, clearedTokens: nat, clearedAccounts: nat)

  function Cleared(t: QuotaTable, month: int): QuotaTable {
    map k | k in t :: MonthRow(month, 0)
  }

  function TokenText(id: string): string { Format(Token(id)) }

  function AccountText(id: string): string { Format(Account(id)) }

  /** One table once the subjects in `done` have been written over its cleared rows. */
  ghost predicate TableIsRebased(before: QuotaTable, after: QuotaTable, text: string -> string, rows: seq<LogRow>,
                                 done: set<string>, month: int, now: int) {
    && (forall k :: k in after <==> k in before || text(k) in done)
    && (forall k :: k in after ==>
          after[k] == MonthRow(month, if text(k) in done then GroupTotal(rows, text(k), month, now) else 0))
  }

  ghost predicate IsRebased(before: Tables, after: Tables, rows: seq<LogRow>, done: set<string>, month: int, now: int) {
    && TableIsRebased(before.tokens, after.tokens, TokenText, rows, done, month, now)
    && TableIsRebased(before.accounts, after.accounts, AccountText, rows, done, month, now)
  }

  function Rewrite(t: Tables, s: Subject, row: MonthRow): Tables {
    match s
    case Token(id) => t.(tokens := t.tokens[id := row])
    case Account(id) => t.(accounts := t.accounts[id := row])
  }

  lemma WriteRow(before: QuotaTable, t: QuotaTable, text: string -> string, rows: seq<LogRow>, done: set<string>,
                 month: int, now: int, id: string)
    requires TableIsRebased(before, t, text, rows, done, month, now)
    requires forall k :: text(k) == text(id) ==> k == id
    ensures TableIsRebased(before, t[id := MonthRow(month, GroupTotal(rows, text(id), month, now))], text, rows,
                           done + {text(id)}, month, now)
  {
    hide GroupTotal;
  }

  lemma SkipRow(before: QuotaTable, t: QuotaTable, text: string -> string, rows: seq<LogRow>, done: set<string>,
                month: int, now: int, other: string)
    requires TableIsRebased(before, t, text, rows, done, month, now)
    requires forall k :: text(k) != other
    ensures TableIsRebased(before, t, text, rows, done + {other}, month, now)
  {
    hide GroupTotal;
  }

  lemma RewriteOneMore(before: Tables, t: Tables, rows: seq<LogRow>, done: set<string>, month: int, now: int,
                       text: string)
    requires IsRebased(before, t, rows, done, month, now)
    requires ParseSubject(text).Some?
    ensures IsRebased(before, Rewrite(t, ParseSubject(text).value, MonthRow(month, GroupTotal(rows, text, month, now))),
                      rows, done + {text}, month, now)
  {
    hide GroupTotal, Format, ParseSubject, TableIsRebased;
    var s := ParseSubject(text).value;
    SubjectRoundTrip(s, text);
    forall k ensures (TokenText(k) == text <==> s == Token(k)) && (AccountText(k) == text <==> s == Account(k)) {
      SubjectRoundTrip(Token(k), text);
      SubjectRoundTrip(Account(k), text);
    }
    match s
    case Token(id) =>
      WriteRow(before.tokens, t.tokens, TokenText, rows, done, month, now, id);
      SkipRow(before.accounts, t.accounts, AccountText, rows, done, month, now, text);
    case Account(id) =>
      SkipRow(before.tokens, t.tokens, TokenText, rows, done, month, now, text);
      WriteRow(before.accounts, t.accounts, AccountText, rows, done, month, now, id);
  }

  class QuotaStore {
    var tables: Tables
    var rebasedMonth: Option<int>

    /** Rewrites the quota of the current month from the ledger, inside one transaction. It succeeds exactly
        when every charged row of the month names a subject that parses; otherwise nothing changes. */
    method Rebase(rows: seq<LogRow>, monthStart: nat -> int, lockedNow: nat, now: nat, updateMeta: bool)
      returns (r: Result<Report, string>)
      modifies this
      ensures var at := if lockedNow > now then lockedNow else now;
              var month := monthStart(at);
              && (r.Success? <==> forall x :: x in rows && InWindow(x, month, at) ==>
                  x.subject.Some? && ParseSubject(x.subject.value).Some?)
              && (r.Failure? ==> tables == old(tables) && rebasedMonth == old(rebasedMonth))
              && (r.Success? ==>
                    && IsRebased(old(tables), tables, rows, Groups(rows, month, at), month, at)
                    && rebasedMonth == (if updateMeta then Some(month) else old(rebasedMonth))
                    && r.value.chargedCredits == ChargedTotal(rows, month, at)
                    && r.value.rebasedSubjects == |Groups(rows, month, at)|
                    && r.value.clearedTokens == |old(tables).tokens| &&
                      r.value.clearedAccounts == |old(tables).accounts|)
    {
      hide IsRebased, GroupTotal, Groups, ParseSubject, Format, Rewrite, SubjectsAreValid;
      var at := if lockedNow > now then lockedNow else now;
      var month := monthStart(at);
      if !SubjectsAreValid(rows, month, at) {
        InvalidSubjectDoesNotParse(rows, month, at);
        return Failure("invalid billing_subject");
      }
      var rebased := Sorting.InAnyOrder(Groups(rows, month, at));
      var backup := tables;
      var tokenRows, accountRows := |tables.tokens|, |tables.accounts|;
      tables := Tables(Cleared(tables.tokens, month), Cleared(tables.accounts, month));
      ClearingStarts(old(tables), rows, month, at);
      ghost var done: set<string> := {};
      for i := 0 to |rebased|
        invariant forall s :: s in done <==> s in rebased[..i]
        invariant forall s :: s in done ==> ParseSubject(s).Some?
        invariant IsRebased(old(tables), tables, rows, done, month, at)
        invariant backup == old(tables) && rebasedMonth == old(rebasedMonth)
      {
        var text := rebased[i];
        if ParseSubject(text).None? {
          tables := backup;
          ListedSubjectDoesNotParse(rows, month, at, text);
          return Failure("invalid billing subject: " + text);
        }
        RewriteOneMore(old(tables), tables, rows, done, month, at, text);
        tables := Rewrite(tables, ParseSubject(text).value, MonthRow(month, GroupTotal(rows, text, month, at)));
        done := done + {text};
        assert rebased[..i + 1] == rebased[..i] + [text];
      }
      assert rebased[..|rebased|] == rebased;
      assert done == Groups(rows, month, at);
      AllSubjectsParse(rows, month, at);
      if updateMeta {
        rebasedMonth := Some(month);
      }
      r := Success(Report(ChargedTotal(rows, month, at), |rebased|, tokenRows, accountRows));
    }
  }

  lemma ClearingStarts(before: Tables, rows: seq<LogRow>, month: int, now: int)
    ensures IsRebased(before, Tables(Cleared(before.tokens, month), Cleared(before.accounts, month)), rows, {}, month,
                      now)
  {
  }

  lemma InvalidSubjectDoesNotParse(rows: seq<LogRow>, from: int, to: int)
    requires !SubjectsAreValid(rows, from, to)
    ensures exists r :: r in rows && InWindow(r, from, to) && !(r.subject.Some? && ParseSubject(r.subject.value).Some?)
  {
    var r :| r in rows && InWindow(r, from, to) && !HasLikelySubject(r);
  }

  lemma ListedSubjectDoesNotParse(rows: seq<LogRow>, from: int, to: int, text: string)
    requires text in Groups(rows, from, to) && ParseSubject(text).None?
    ensures exists r :: r in rows && InWindow(r, from, to) && !(r.subject.Some? && ParseSubject(r.subject.value).Some?)
  {
    var r :| r in rows && InWindow(r, from, to) && r.subject == Some(text);
  }

  lemma AllSubjectsParse(rows: seq<LogRow>, from: int, to: int)
    requires SubjectsAreValid(rows, from, to)
    requires forall s :: s in Groups(rows, from, to) ==> ParseSubject(s).Some?
    ensures forall r :: r in rows && InWindow(r, from, to) ==> r.subject.Some? && ParseSubject(r.subject.value).Some?
  {
    forall r | r in rows && InWindow(r, from, to) ensures r.subject.Some? && ParseSubject(r.subject.value).Some? {
      assert HasLikelySubject(r);
      assert r.subject.value in Groups(rows, from, to);
    }
  }

  // ---- What a rebase achieves -------------------------------------------------------------------

  /** The month count an audit sees for a subject: rows of an earlier month count nothing. */
  function MonthQuota(t: Tables, subject: string, month: int): nat {
    match ParseSubject(subject)
    case None => 0
    case Some(Token(id)) => if id in t.tokens && t.tokens[id].start >= month then t.tokens[id].count else 0
    case Some(Account(id)) => if id in t.accounts && t.accounts[id].start >= month then t.accounts[id].count else 0
  }

  /** Right after a successful rebase the stored month count of every subject, listed or not, is what the ledger
      charged it in the month: an audit at that instant reports no month difference at all. */
  lemma AuditAfterRebaseIsClean(before: Tables, after: Tables, rows: seq<LogRow>, month: int, now: int, subject: string)
    requires IsRebased(before, after, rows, Groups(rows, month, now), month, now)
    requires forall s :: s in Groups(rows, month, now) ==> ParseSubject(s).Some?
    ensures MonthQuota(after, subject, month) == GroupTotal(rows, subject, month, now)
  {
    hide GroupTotal, Groups, Format;
    SubjectRoundTrip(Token(""), subject);
    if subject !in Groups(rows, month, now) {
      UnlistedTotalIsZero(rows, subject, month, now);
    }
    match ParseSubject(subject)
    case None =>
    case Some(Token(id)) => assert TokenText(id) == subject;
    case Some(Account(id)) => assert AccountText(id) == subject;
  }

  /** A second rebase at the same instant changes no quota row. */
  lemma RebaseIsIdempotent(before: Tables, after: Tables, again: Tables, rows: seq<LogRow>, month: int, now: int)
    requires IsRebased(before, after, rows, Groups(rows, month, now), month, now)
    requires IsRebased(after, again, rows, Groups(rows, month, now), month, now)
    ensures again == after
  {
    hide GroupTotal, Groups, Format;
    assert again.tokens.Keys == after.tokens.Keys && again.accounts.Keys == after.accounts.Keys;
    assert again.tokens == after.tokens && again.accounts == after.accounts;
  }

  // ---- Conservation -----------------------------------------------------------------------------

  ghost function TotalsOf(text: string -> string, rows: seq<LogRow>, month: int, now: int): string -> int {
    id => GroupTotal(rows, text(id), month, now)
  }

  /** Whether a row is charged to a subject of one kind with an id among the given ones. */
  ghost predicate NamesOneOf(r: LogRow, text: string -> string, ids: set<string>) {
    exists id :: id in ids && r.subject == Some(text(id))
  }

  /** The share of the last row: all of it for the one id it names, nothing otherwise. */
  lemma LastRowCountsOnce(text: string -> string, rows: seq<LogRow>, month: int, now: int, ids: set<string>)
    requires rows != []
    requires forall i, j :: text(i) == text(j) ==> i == j
    ensures var n := |rows| - 1;
            SumOver(ids, TotalsOf(text, rows, month, now)) ==
            SumOver(ids, TotalsOf(text, rows[..n], month, now)) +
            if InWindow(rows[n], month, now) && NamesOneOf(rows[n], text, ids) then rows[n].credits.value else 0
  {
    var n := |rows| - 1;
    var f, g := TotalsOf(text, rows[..n], month, now), TotalsOf(text, rows, month, now);
    if InWindow(rows[n], month, now) && NamesOneOf(rows[n], text, ids) {
      var id :| id in ids && rows[n].subject == Some(text(id));
      SumBump(ids, f, g, id, rows[n].credits.value);
    } else {
      SumCongruent(ids, f, g);
    }
  }

  lemma TextsAreInjective()
    ensures forall i, j :: TokenText(i) == TokenText(j) ==> i == j
    ensures forall i, j :: AccountText(i) == AccountText(j) ==> i == j
    ensures forall i, j :: TokenText(i) != AccountText(j)
  {
    hide ParseSubject, Format;
    forall i, j
      ensures TokenText(i) == TokenText(j) ==> i == j
      ensures AccountText(i) == AccountText(j) ==> i == j
      ensures TokenText(i) != AccountText(j)
    {
      SubjectRoundTrip(Token(i), "");
      SubjectRoundTrip(Token(j), "");
      SubjectRoundTrip(Account(i), "");
      SubjectRoundTrip(Account(j), "");
    }
  }

  /** If every charged row names one of the given subjects, their totals add up to the whole. */
  lemma {:induction false} TotalsAddUp(rows: seq<LogRow>, month: int, now: int, tokens: set<string>,
                                       accounts: set<string>)
    requires forall r :: r in rows && InWindow(r, month, now) ==>
             NamesOneOf(r, TokenText, tokens) || NamesOneOf(r, AccountText, accounts)
    ensures SumOver(tokens, TotalsOf(TokenText, rows, month, now)) +
            SumOver(accounts, TotalsOf(AccountText, rows, month, now))
         == ChargedTotal(rows, month, now)
  {
    if rows == [] {
      SumZero(tokens, TotalsOf(TokenText, rows, month, now));
      SumZero(accounts, TotalsOf(AccountText, rows, month, now));
    } else {
      hide InWindow, Format, GroupTotal, TotalsOf;
      var n := |rows| - 1;
      assert rows[n] in rows;
      TextsAreInjective();
      TotalsAddUp(rows[..n], month, now, tokens, accounts);
      LastRowCountsOnce(TokenText, rows, month, now, tokens);
      LastRowCountsOnce(AccountText, rows, month, now, accounts);
    }
  }

  lemma {:induction false} SumZero<K(!new)>(keys: set<K>, f: K -> int)
    requires forall k :: k in keys ==> f(k) == 0
    ensures SumOver(keys, f) == 0
  {
    SumSubset({}, keys, f);
  }

  ghost function CountOf(t: QuotaTable): string -> int {
    id => if id in t then t[id].count else 0
  }

  lemma TableHoldsTotals(before: QuotaTable, after: QuotaTable, text: string -> string, rows: seq<LogRow>, month: int,
                         now: int)
    requires TableIsRebased(before, after, text, rows, Groups(rows, month, now), month, now)
    ensures SumOver(after.Keys, CountOf(after)) == SumOver(after.Keys, TotalsOf(text, rows, month, now))
  {
    hide Groups, GroupTotal;
    forall id | id in after ensures CountOf(after)(id) == TotalsOf(text, rows, month, now)(id) {
      if text(id) !in Groups(rows, month, now) { UnlistedTotalIsZero(rows, text(id), month, now); }
    }
    SumCongruent(after.Keys, CountOf(after), TotalsOf(text, rows, month, now));
  }

  /** The stored month counts of both tables together are the credits the rebase reports as charged. */
  lemma RebaseConservesCredits(before: Tables, after: Tables, rows: seq<LogRow>, month: int, now: int)
    requires IsRebased(before, after, rows, Groups(rows, month, now), month, now)
    requires forall r :: r in rows && InWindow(r, month, now) ==> r.subject.Some? && ParseSubject(r.subject.value).Some?
    ensures SumOver(after.tokens.Keys, CountOf(after.tokens)) + SumOver(after.accounts.Keys, CountOf(after.accounts))
         == ChargedTotal(rows, month, now)
  {
    RowsAreCovered(before, after, rows, month, now);
    hide Groups, InWindow, ParseSubject, TableIsRebased, NamesOneOf;
    TotalsAddUp(rows, month, now, after.tokens.Keys, after.accounts.Keys);
    TableHoldsTotals(before.tokens, after.tokens, TokenText, rows, month, now);
    TableHoldsTotals(before.accounts, after.accounts, AccountText, rows, month, now);
  }

  lemma RowsAreCovered(before: Tables, after: Tables, rows: seq<LogRow>, month: int, now: int)
    requires IsRebased(before, after, rows, Groups(rows, month, now), month, now)
    requires forall r :: r in rows && InWindow(r, month, now) ==> r.subject.Some? && ParseSubject(r.subject.value).Some?
    ensures forall r :: r in rows && InWindow(r, month, now) ==>
              NamesOneOf(r, TokenText, after.tokens.Keys) || NamesOneOf(r, AccountText, after.accounts.Keys)
  {
    forall r | r in rows && InWindow(r, month, now)
      ensures NamesOneOf(r, TokenText, after.tokens.Keys) || NamesOneOf(r, AccountText, after.accounts.Keys)
    {
      var text := r.subject.value;
      assert text in Groups(rows, month, now);
      SubjectRoundTrip(Token(""), text);
      match ParseSubject(text).value
      case Token(id) => assert TokenText(id) == text;
      case Account(id) => assert AccountText(id) == text;
    }
  }

  /** The validity check is weaker than the parser, since `LIKE` ignores case: a subject that passes the check fails
      to parse exactly if its prefix is written in other letters. */
  lemma CheckedSubjectParses(text: string)
    requires LikePrefix(text, "token:") || LikePrefix(text, "account:")
    ensures ParseSubject(text).None? <==>
            (LikePrefix(text, "token:") && text[..6] != "token:") ||
              (LikePrefix(text, "account:") && text[..8] != "account:")
  {
    assert Text.Lower("token:") == "token:" && Text.Lower("account:") == "account:";
    assert "token:"[0] == 't' && "account:"[0] == 'a';
    if LikePrefix(text, "token:") { assert Text.Lower(text[..6])[0] == 't' == Text.LowerChar(text[0]); }
    if LikePrefix(text, "account:") { assert Text.Lower(text[..8])[0] == 'a' == Text.LowerChar(text[0]); }
    if "token:" <= text { assert text[..6] == "token:"; }
    if "account:" <= text { assert text[..8] == "account:"; }
  }

  /** A row that passes the check and makes the rebase fail. */
  lemma CheckedSubjectMayNotParse(credits: int, at: int)
    requires credits > 0
    ensures var row := LogRow(Some("Token:a"), Some(credits), "charged", at);
            SubjectsAreValid([row], at, at) && InWindow(row, at, at) && ParseSubject("Token:a").None?
  {
    assert "Token:a"[..6] == "Token:";
    assert Text.Lower("Token:") == "token:" == Text.Lower("token:");
    assert "Token:a"[0] == 'T';
  }
}
