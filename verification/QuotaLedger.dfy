/** The charged log rows as a ledger: what the hour, day and month windows of the ledger hold, and that the
    counters a settlement updates agree with it. */
module QuotaLedger {
  import opened Wrappers
  import opened Buckets
  import opened BusinessQuota

  /** What happens to the counters of one subject: a charged row is settled, possibly long after it was
      logged, old buckets are dropped, or the monthly count is read. */
  datatype Event = Charged(createdAt: nat, credits: nat) | Dropped(at: nat) | Read(at: nat)

  function TimeOf(e: Event): nat { if e.Charged? then e.createdAt else e.at }

  /** The counters after the events, in the order in which they reached the store. */
  function Counted(monthStart: nat -> int, events: seq<Event>): Usage {
    if events == [] then NO_USAGE
    else
      var n := |events| - 1;
      var u := Counted(monthStart, events[..n]);
      match events[n]
      case Charged(createdAt, credits) => Settle(monthStart, u, createdAt, credits)
      case Dropped(at) => CleanUp(u, at)
      case Read(at) => ReadMonth(monthStart, u, at)
  }

  /** The ledger: charged credits whose row was logged between `from` and `to`. */
  function Ledger(events: seq<Event>, from: int, to: int): nat {
    if events == [] then 0
    else
      var n := |events| - 1;
      Ledger(events[..n], from, to) +
      if events[n].Charged? && from <= events[n].createdAt <= to then events[n].credits else 0
  }

  ghost predicate NoneLaterThan(events: seq<Event>, now: nat) {
    forall e :: e in events ==> TimeOf(e) <= now
  }

  /** A window aligned to its buckets sees a row exactly when it sees the row's bucket. */
  lemma BucketsAreAligned(t: nat, now: nat)
    requires t <= now
    ensures HourWindowStart(now) <= MinuteOf(t) <= MinuteOf(now) <==> HourWindowStart(now) <= t <= now
    ensures DayWindowStart(now) <= HourOf(t) <= HourOf(now) <==> DayWindowStart(now) <= t <= now
  {
    MinuteAlignment(t, MinuteOf(now) / SECS_PER_MINUTE - 59);
    HourAlignment(t, HourOf(now) / SECS_PER_HOUR - 23);
    WindowsAdvance(t, now);
  }

  lemma MinuteAlignment(t: nat, q: int)
    ensures q * SECS_PER_MINUTE <= MinuteOf(t) <==> q * SECS_PER_MINUTE <= t
  {
  }

  lemma HourAlignment(t: nat, q: int)
    ensures q * SECS_PER_HOUR <= HourOf(t) <==> q * SECS_PER_HOUR <= t
  {
  }

  ghost function HourWindow(now: nat): nat -> bool { Within(HourWindowStart(now), MinuteOf(now)) }

  ghost function DayWindow(now: nat): nat -> bool { Within(DayWindowStart(now), HourOf(now)) }

  lemma SettlementMatches(monthStart: nat -> int, u: Usage, t: nat, credits: nat, now: nat)
    requires t <= now
    ensures var u' := Settle(monthStart, u, t, credits);
            && SumWhere(u'.minutes, HourWindow(now)) ==
               SumWhere(u.minutes, HourWindow(now)) + (if HourWindowStart(now) <= t <= now then credits else 0)
            && SumWhere(u'.hours, DayWindow(now)) ==
               SumWhere(u.hours, DayWindow(now)) + (if DayWindowStart(now) <= t <= now then credits else 0)
  {
    hide SumWhere;
    BucketsAreAligned(t, now);
    SumAfterAdd(u.minutes, HourWindow(now), MinuteOf(t), credits);
    SumAfterAdd(u.hours, DayWindow(now), HourOf(t), credits);
  }

  lemma DropMatches(u: Usage, at: nat, now: nat)
    requires at <= now
    ensures SumWhere(CleanUp(u, at).minutes, HourWindow(now)) == SumWhere(u.minutes, HourWindow(now))
    ensures SumWhere(CleanUp(u, at).hours, DayWindow(now)) == SumWhere(u.hours, DayWindow(now))
  {
    hide SumWhere;
    RetentionCoversWindows(at, now);
    SumAfterDrop(u.minutes, HourWindow(now), at - RETENTION_SECS);
    SumAfterDrop(u.hours, DayWindow(now), at - RETENTION_SECS);
  }

  lemma NothingCounted(keep: nat -> bool)
    ensures SumWhere(map[], keep) == 0
  {
    assert Keys(map[], keep) == {};
  }

  /** For every present instant, the minute and hour buckets summed over the audit's windows hold exactly what
      the ledger holds for them, in whatever order rows were settled and buckets were dropped. */
  lemma {:induction false} BucketsMatchLedger(monthStart: nat -> int, events: seq<Event>, now: nat)
    requires NoneLaterThan(events, now)
    ensures var u := Counted(monthStart, events);
            && SumWhere(u.minutes, HourWindow(now)) == Ledger(events, HourWindowStart(now), now)
            && SumWhere(u.hours, DayWindow(now)) == Ledger(events, DayWindowStart(now), now)
  {
    hide SumWhere, HourWindow, DayWindow, Settle, CleanUp, HourWindowStart, DayWindowStart;
    if events == [] {
      NothingCounted(HourWindow(now));
      NothingCounted(DayWindow(now));
    } else {
      var n := |events| - 1;
      BucketsMatchLedger(monthStart, events[..n], now);
      var u := Counted(monthStart, events[..n]);
      assert events[n] in events;
      match events[n]
      case Charged(t, credits) => SettlementMatches(monthStart, u, t, credits, now);
      case Dropped(at) => DropMatches(u, at, now);
      case Read(at) =>
    }
  }

  // ---- The month --------------------------------------------------------------------------------

  /** Months follow one another: every time from the start of a month on, up to a time in it, is in it. */
  ghost predicate IsMonthly(monthStart: nat -> int) {
    && IsCalendar(monthStart)
    && (forall t :: monthStart(t) <= t)
    && (forall t, u :: monthStart(u) <= t <= u ==> monthStart(t) == monthStart(u))
  }

  /** Charged credits of the month that starts at `start`. */
  function MonthLedger(monthStart: nat -> int, events: seq<Event>, start: int): nat {
    if events == [] then 0
    else
      var n := |events| - 1;
      MonthLedger(monthStart, events[..n], start) +
      if events[n].Charged? && monthStart(events[n].createdAt) == start then events[n].credits else 0
  }

  /** The monthly row stands for the latest month that was charged or read, and counts all of that month. */
  lemma {:induction false} MonthRowIsLatest(monthStart: nat -> int, events: seq<Event>, start: int)
    ensures var row := Counted(monthStart, events).month;
            && (row.None? ==> MonthLedger(monthStart, events, start) == 0)
            && (row.Some? && row.value.start == start ==> row.value.count == MonthLedger(monthStart, events, start))
            && (row.Some? && row.value.start < start ==> MonthLedger(monthStart, events, start) == 0)
  {
    if events != [] {
      var n := |events| - 1;
      MonthRowIsLatest(monthStart, events[..n], start);
      if events[n].Read? { MonthRowIsLatest(monthStart, events[..n], monthStart(events[n].at)); }
    }
  }

  lemma {:induction false} MonthLedgerIsLedger(monthStart: nat -> int, events: seq<Event>, now: nat)
    requires IsMonthly(monthStart) && NoneLaterThan(events, now)
    ensures MonthLedger(monthStart, events, monthStart(now)) == Ledger(events, monthStart(now), now)
  {
    if events != [] {
      var n := |events| - 1;
      MonthLedgerIsLedger(monthStart, events[..n], now);
      assert events[n] in events;
      var t := TimeOf(events[n]);
      if monthStart(now) <= t {
        assert monthStart(t) == monthStart(now);
      } else {
        assert monthStart(t) <= t;
      }
    }
  }

  lemma {:induction false} MonthRowIsNotLater(monthStart: nat -> int, events: seq<Event>, now: nat)
    requires IsCalendar(monthStart) && NoneLaterThan(events, now)
    ensures var row := Counted(monthStart, events).month;
            row.Some? ==> row.value.start <= monthStart(now)
  {
    if events != [] {
      var n := |events| - 1;
      MonthRowIsNotLater(monthStart, events[..n], now);
      assert events[n] in events;
    }
  }

  /** The monthly counter agrees with the ledger of the current month, in whatever order rows were settled. */
  lemma MonthMatchesLedger(monthStart: nat -> int, events: seq<Event>, now: nat)
    requires IsMonthly(monthStart) && NoneLaterThan(events, now)
    ensures MonthUsed(monthStart, Counted(monthStart, events), now) == Ledger(events, monthStart(now), now)
  {
    MonthRowIsLatest(monthStart, events, monthStart(now));
    MonthRowIsNotLater(monthStart, events, now);
    MonthLedgerIsLedger(monthStart, events, now);
  }
}
