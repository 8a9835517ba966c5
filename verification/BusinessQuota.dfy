/** The business quota of one billing subject: the admission verdict, the gate in front of a billable request,
    and what every run of gate-then-charge steps keeps. */
module BusinessQuota {
  import opened Wrappers
  import opened Buckets

  const MAX_I64 := 0x7FFF_FFFF_FFFF_FFFF

  datatype Window = Hour | Day | Month

  datatype Verdict = Verdict(allowed: bool, exceeded: Option<Window>,
                             hourlyUsed: int, hourlyLimit: int, dailyUsed: int, dailyLimit: int,
                             monthlyUsed: int, monthlyLimit: int)

  function Max0(x: int): nat {
    if x < 0 then 0 else x
  }

  function Min(a: int, b: int): int {
    if a < b then a else b
  }

  /** 64-bit saturating addition of non-negative counts. */
  function SatAdd(a: int, b: int): int {
    if a + b > MAX_I64 then MAX_I64 else a + b
  }

  predicate Exceeds(used: int, limit: int) {
    Max0(limit) == 0 || Max0(used) > Max0(limit)
  }

  /** A usage counter against its limit; the snapshot clamps both. */
  datatype Count = Count(used: int, limit: int)

  function VerdictOf(h: Count, d: Count, m: Count): Verdict {
    var exceeded := if Exceeds(m.used, m.limit) then Some(Month)
                    else if Exceeds(d.used, d.limit) then Some(Day)
                    else if Exceeds(h.used, h.limit) then Some(Hour)
                    else None;
    Verdict(exceeded.None?, exceeded,
            Min(Max0(h.used), Max0(h.limit)), Max0(h.limit),
            Min(Max0(d.used), Max0(d.limit)), Max0(d.limit),
            Min(Max0(m.used), Max0(m.limit)), Max0(m.limit))
  }

  /** The constructor as written: each window in turn may overwrite the one reported before. */
  method NewVerdict(h: Count, d: Count, m: Count) returns (v: Verdict)
    ensures v == VerdictOf(h, d, m)
  {
    var hourlyLimit, dailyLimit, monthlyLimit := Max0(h.limit), Max0(d.limit), Max0(m.limit);
    var hourlyRaw, dailyRaw, monthlyRaw := Max0(h.used), Max0(d.used), Max0(m.used);
    var exceeded: Option<Window> := None;
    var allowed := true;
    if hourlyLimit == 0 || hourlyRaw > hourlyLimit {
      exceeded, allowed := Some(Hour), false;
    }
    if dailyLimit == 0 || dailyRaw > dailyLimit {
      exceeded, allowed := Some(Day), false;
    }
    if monthlyLimit == 0 || monthlyRaw > monthlyLimit {
      exceeded, allowed := Some(Month), false;
    }
    v := Verdict(allowed, exceeded, Min(hourlyRaw, hourlyLimit), hourlyLimit,
                 Min(dailyRaw, dailyLimit), dailyLimit, Min(monthlyRaw, monthlyLimit), monthlyLimit);
  }

  function EffectiveWindow(v: Verdict): Option<Window> {
    if v.exceeded.Some? then v.exceeded
    else if v.monthlyUsed >= v.monthlyLimit then Some(Month)
    else if v.dailyUsed >= v.dailyLimit then Some(Day)
    else if v.hourlyUsed >= v.hourlyLimit then Some(Hour)
    else None
  }

  function ProjectedWindow(v: Verdict, delta: int): Option<Window> {
    if EffectiveWindow(v).Some? then EffectiveWindow(v)
    else if delta > 0 && SatAdd(v.monthlyUsed, delta) > v.monthlyLimit then Some(Month)
    else if delta > 0 && SatAdd(v.dailyUsed, delta) > v.dailyLimit then Some(Day)
    else if delta > 0 && SatAdd(v.hourlyUsed, delta) > v.hourlyLimit then Some(Hour)
    else None
  }

  predicate QuotaExhaustedNow(v: Verdict) {
    v.hourlyUsed >= v.hourlyLimit || v.dailyUsed >= v.dailyLimit || v.monthlyUsed >= v.monthlyLimit
  }

  predicate QuotaWouldExceed(v: Verdict, delta: int) {
    delta > 0 &&
    (SatAdd(v.hourlyUsed, delta) > v.hourlyLimit || SatAdd(v.dailyUsed, delta) > v.dailyLimit ||
     SatAdd(v.monthlyUsed, delta) > v.monthlyLimit)
  }

  /** The gate: with a reservation it projects, without one it asks whether anything is left. */
  predicate IsBlocked(v: Verdict, reserved: Option<int>) {
    match reserved
    case Some(r) => QuotaWouldExceed(v, r)
    case None => QuotaExhaustedNow(v)
  }

  predicate FitsI64(c: Count) {
    c.limit <= MAX_I64
  }

  /** One window leaves room for `reserved` more credits, or for anything at all if nothing is reserved. The
      saturating addition never finds a limit of the largest 64-bit number exceeded. */
  predicate HasRoom(c: Count, reserved: int) {
    if reserved > 0 then Max0(c.used) + reserved <= c.limit || c.limit == MAX_I64
    else Max0(c.used) < c.limit
  }

  /** A window whose limit and counter are both the largest 64-bit number. */
  predicate IsPegged(c: Count) {
    c.limit == MAX_I64 && c.used >= MAX_I64
  }

  /** A request is admitted exactly when all three windows have room for its reservation. The error report,
      which projects the same amount, agrees with the gate exactly unless all three have room and one of them is
      pegged at the largest 64-bit number: then it names a window although the request is let through. */
  lemma GateIsExact(h: Count, d: Count, m: Count, reserved: Option<int>)
    requires FitsI64(h) && FitsI64(d) && FitsI64(m)
    requires reserved.Some? ==> 0 < reserved.value
    ensures var v := VerdictOf(h, d, m);
            var r := reserved.GetOr(0);
            && (!IsBlocked(v, reserved) <==> HasRoom(h, r) && HasRoom(d, r) && HasRoom(m, r))
            && ((IsBlocked(v, reserved) <==> ProjectedWindow(v, r).Some?) <==>
                !(HasRoom(h, r) && HasRoom(d, r) && HasRoom(m, r) && (IsPegged(h) || IsPegged(d) || IsPegged(m))))
  {
    var v := VerdictOf(h, d, m);
    assert IsBlocked(v, reserved) ==> ProjectedWindow(v, reserved.GetOr(0)).Some?;
  }

  /** A limit of the largest 64-bit number is no limit: a reservation is let through that the exact sum exceeds. */
  lemma PeggedLimitAdmits()
    ensures var c, free := Count(MAX_I64 - 1, MAX_I64), Count(0, 10);
            !IsBlocked(VerdictOf(c, free, free), Some(5)) && c.used + 5 > c.limit
  {
  }

  /** The longest of the given windows. */
  function Longest(month: bool, day: bool, hour: bool): Option<Window> {
    if month then Some(Month) else if day then Some(Day) else if hour then Some(Hour) else None
  }

  /** How urgent a window is: exceeded, full, without room for the reservation, or none of these. */
  function Urgency(c: Count, reserved: nat): nat {
    if Exceeds(c.used, c.limit) then 3 else if !HasRoom(c, 0) then 2 else if !HasRoom(c, reserved) then 1 else 0
  }

  /** The report names the longest of the most urgent windows. */
  lemma MostUrgentIsReported(h: Count, d: Count, m: Count, reserved: nat)
    requires FitsI64(h) && FitsI64(d) && FitsI64(m)
    ensures var (uh, ud, um) := (Urgency(h, reserved), Urgency(d, reserved), Urgency(m, reserved));
            var u := if um >= ud && um >= uh then um else if ud >= uh then ud else uh;
            ProjectedWindow(VerdictOf(h, d, m), reserved) == if u == 0 then None else Longest(um == u, ud == u, uh == u)
  {
  }

  /** No window is more urgent than the longest one without room, and no longer one is as urgent. */
  predicate IsLongestMostUrgent(h: Count, d: Count, m: Count, reserved: nat) {
    var (uh, ud, um) := (Urgency(h, reserved), Urgency(d, reserved), Urgency(m, reserved));
    if !HasRoom(m, reserved) then um >= ud && um >= uh
    else if !HasRoom(d, reserved) then ud > um && ud >= uh
    else if !HasRoom(h, reserved) then uh > um && uh > ud
    else um == 0 && ud == 0 && uh == 0
  }

  /** The reported window is the longest one without room exactly if that one is the longest of the most urgent. */
  lemma LongestWindowIsReported(h: Count, d: Count, m: Count, reserved: nat)
    requires FitsI64(h) && FitsI64(d) && FitsI64(m)
    ensures ProjectedWindow(VerdictOf(h, d, m), reserved) ==
              Longest(!HasRoom(m, reserved), !HasRoom(d, reserved), !HasRoom(h, reserved))
            <==> IsLongestMostUrgent(h, d, m, reserved)
  {
  }

  /** A full hour is reported although the month has no room for the reservation either. */
  lemma ShorterWindowIsReported()
    ensures var (h, d, m) := (Count(3, 3), Count(0, 10), Count(9, 10));
            && IsBlocked(VerdictOf(h, d, m), Some(2)) && !HasRoom(m, 2)
            && ProjectedWindow(VerdictOf(h, d, m), 2) == Some(Hour)
  {
  }

  // ---- The counters of one subject --------------------------------------------------------------

  datatype MonthRow = MonthRow(start: int, count: nat)

  datatype Usage = Usage(minutes: Counters, hours: Counters, month: Option<MonthRow>)

  const NO_USAGE := Usage(map[], map[], None)

  /** The start of the month of a time; later times lie in the same month or a later one. */
  ghost predicate IsCalendar(monthStart: nat -> int) {
    forall a, b :: a <= b ==> monthStart(a) <= monthStart(b)
  }

  /** The upsert of the monthly row: a later month replaces it, an earlier one is ignored. */
  function AddToMonth(row: Option<MonthRow>, start: int, credits: nat): MonthRow {
    match row
    case None => MonthRow(start, credits)
    case Some(r) =>
      if start > r.start then MonthRow(start, credits)
      else if start < r.start then r
      else MonthRow(start, r.count + credits)
  }

  function Settle(monthStart: nat -> int, u: Usage, createdAt: nat, credits: nat): Usage {
    if credits == 0 then u
    else Usage(Add(u.minutes, MinuteOf(createdAt), credits),
               Add(u.hours, HourOf(createdAt), credits),
               Some(AddToMonth(u.month, monthStart(createdAt), credits)))
  }

  function CleanUp(u: Usage, at: nat): Usage {
    u.(minutes := DropBefore(u.minutes, at - RETENTION_SECS), hours := DropBefore(u.hours, at - RETENTION_SECS))
  }

  /** Reading the monthly count replaces the row of an earlier month. */
  function ReadMonth(monthStart: nat -> int, u: Usage, at: nat): Usage {
    if u.month.Some? && u.month.value.start < monthStart(at) then u.(month := Some(MonthRow(monthStart(at), 0))) else u
  }

  ghost function HourUsed(u: Usage, now: nat): nat {
    SumWhere(u.minutes, From(HourWindowStart(now)))
  }

  ghost function DayUsed(u: Usage, now: nat): nat {
    SumWhere(u.hours, From(DayWindowStart(now)))
  }

  function MonthUsed(monthStart: nat -> int, u: Usage, now: nat): nat {
    if u.month.Some? && u.month.value.start >= monthStart(now) then u.month.value.count else 0
  }

  /** What a subject has used in each window. */
  datatype Used = Used(hour: nat, day: nat, month: nat)

  ghost function UsedAt(monthStart: nat -> int, u: Usage, now: nat): Used {
    Used(HourUsed(u, now), DayUsed(u, now), MonthUsed(monthStart, u, now))
  }

  ghost predicate AtMost(a: Used, b: Used, more: int) {
    a.hour <= b.hour + more && a.day <= b.day + more && a.month <= b.month + more
  }

  /** The passing of time only lowers the counters. */
  lemma UsageFades(monthStart: nat -> int, u: Usage, earlier: nat, later: nat)
    requires IsCalendar(monthStart) && earlier <= later
    ensures AtMost(UsedAt(monthStart, u, later), UsedAt(monthStart, u, earlier), 0)
  {
    WindowsAdvance(earlier, later);
    SumNarrower(u.minutes, From(HourWindowStart(later)), From(HourWindowStart(earlier)));
    SumNarrower(u.hours, From(DayWindowStart(later)), From(DayWindowStart(earlier)));
  }

  /** A settlement adds its credits once to each window; to the month unless a later month is stored. */
  lemma SettlementCounts(monthStart: nat -> int, u: Usage, at: nat, credits: nat)
    ensures AtMost(UsedAt(monthStart, Settle(monthStart, u, at, credits), at), UsedAt(monthStart, u, at), credits)
    ensures HourUsed(Settle(monthStart, u, at, credits), at) == HourUsed(u, at) + credits
    ensures DayUsed(Settle(monthStart, u, at, credits), at) == DayUsed(u, at) + credits
    ensures (u.month.Some? ==> u.month.value.start <= monthStart(at)) ==>
              UsedAt(monthStart, Settle(monthStart, u, at, credits), at) ==
              Used(HourUsed(u, at) + credits, DayUsed(u, at) + credits, MonthUsed(monthStart, u, at) + credits)
  {
    SumAfterAdd(u.minutes, From(HourWindowStart(at)), MinuteOf(at), credits);
    SumAfterAdd(u.hours, From(DayWindowStart(at)), HourOf(at), credits);
  }

  /** How long credits count: those of the last 59 minutes count in the hour and those of the last 23 hours in the day,
      those of an hour or a day ago no longer do; in between the clock's minutes and hours decide. */
  lemma WindowsInSeconds(monthStart: nat -> int, u: Usage, t: nat, credits: nat, now: nat)
    requires t <= now
    ensures var after := HourUsed(Settle(monthStart, u, t, credits), now);
            && (now - t <= 3540 ==> after == HourUsed(u, now) + credits)
            && (now - t >= 3600 ==> after == HourUsed(u, now))
            && after == HourUsed(u, now) + if now / 60 - t / 60 < 60 then credits else 0
    ensures var after := DayUsed(Settle(monthStart, u, t, credits), now);
            && (now - t <= 82800 ==> after == DayUsed(u, now) + credits)
            && (now - t >= 86400 ==> after == DayUsed(u, now))
            && after == DayUsed(u, now) + if now / 3600 - t / 3600 < 24 then credits else 0
  {
    BucketsInSeconds(t, now);
    hide MinuteOf, HourOf, HourWindowStart, DayWindowStart, SumWhere;
    SumAfterAdd(u.minutes, From(HourWindowStart(now)), MinuteOf(t), credits);
    SumAfterAdd(u.hours, From(DayWindowStart(now)), HourOf(t), credits);
  }

  /** Credits of this month count in the month, unless the stored row is of a later one; those of an earlier month do
      not. */
  lemma MonthCounts(monthStart: nat -> int, u: Usage, t: nat, credits: nat, now: nat)
    requires IsCalendar(monthStart) && t <= now && (u.month.Some? ==> u.month.value.start <= monthStart(t))
    ensures MonthUsed(monthStart, Settle(monthStart, u, t, credits), now) ==
            MonthUsed(monthStart, u, now) + if monthStart(t) == monthStart(now) then credits else 0
  {
  }

  /** The write that a read performs changes no counter. */
  lemma ReadingIsHarmless(monthStart: nat -> int, u: Usage, at: nat, now: nat)
    requires IsCalendar(monthStart) && at <= now
    ensures UsedAt(monthStart, ReadMonth(monthStart, u, at), now) == UsedAt(monthStart, u, now)
  {
  }

  /** A clean-up leaves no bucket older than 48 hours. */
  lemma CleanUpDropsOld(u: Usage, at: nat)
    ensures forall k :: k in CleanUp(u, at).minutes <==> k in u.minutes && k >= at - 172800
    ensures forall k :: k in CleanUp(u, at).hours <==> k in u.hours && k >= at - 172800
  {
  }

  lemma CleanUpIsHarmless(monthStart: nat -> int, u: Usage, at: nat, now: nat)
    requires at <= now
    ensures UsedAt(monthStart, CleanUp(u, at), now) == UsedAt(monthStart, u, now)
  {
    RetentionCoversWindows(at, now);
    SumAfterDrop(u.minutes, From(HourWindowStart(now)), at - RETENTION_SECS);
    SumAfterDrop(u.hours, From(DayWindowStart(now)), at - RETENTION_SECS);
  }

  // ---- Runs -------------------------------------------------------------------------------------

  datatype Limits = Limits(hourly: int, daily: int, monthly: int)

  /** A request is gated, forwarded and, if it was admitted and costs anything, charged, all under the
      subject's lock; a clean-up may come in between. */
  datatype Step =
    | Request(gateAt: nat, settleAt: nat, reserved: Option<int>, charged: nat)
    | Cleaning(at: nat)

  function StartOf(s: Step): nat { if s.Request? then s.gateAt else s.at }

  function EndOf(s: Step): nat { if s.Request? then s.settleAt else s.at }

  ghost predicate IsAdmitted(monthStart: nat -> int, limits: Limits, u: Usage, s: Step)
    requires s.Request?
  {
    var used := UsedAt(monthStart, u, s.gateAt);
    !IsBlocked(VerdictOf(Count(used.hour, limits.hourly), Count(used.day, limits.daily),
                         Count(used.month, limits.monthly)), s.reserved)
  }

  ghost function After(monthStart: nat -> int, limits: Limits, u: Usage, s: Step): Usage {
    match s
    case Request(_, settleAt, _, charged) =>
      if IsAdmitted(monthStart, limits, u, s) then Settle(monthStart, u, settleAt, charged) else u
    case Cleaning(at) => CleanUp(u, at)
  }

  ghost function RunOf(monthStart: nat -> int, limits: Limits, steps: seq<Step>): Usage {
    if steps == [] then NO_USAGE
    else
      var n := |steps| - 1;
      After(monthStart, limits, RunOf(monthStart, limits, steps[..n]), steps[n])
  }

  /** The clock never goes back, and a reservation, where there is one, is positive. */
  ghost predicate IsRun(steps: seq<Step>) {
    && (forall i :: 0 <= i < |steps| ==> StartOf(steps[i]) <= EndOf(steps[i]))
    && (forall i :: 0 < i < |steps| ==> EndOf(steps[i - 1]) <= StartOf(steps[i]))
    && (forall i :: 0 <= i < |steps| && steps[i].Request? && steps[i].reserved.Some? ==> 0 < steps[i].reserved.value)
  }

  function LastTime(steps: seq<Step>): nat {
    if steps == [] then 0 else EndOf(steps[|steps| - 1])
  }

  /** By how much the last charge of a run exceeded its reservation. */
  ghost function Overshoot(monthStart: nat -> int, limits: Limits, steps: seq<Step>): nat {
    if steps == [] then 0
    else
      var n := |steps| - 1;
      var s := steps[n];
      if s.Request? && s.charged > 0 && IsAdmitted(monthStart, limits, RunOf(monthStart, limits, steps[..n]), s) then
        Max0(s.charged - s.reserved.GetOr(0))
      else Overshoot(monthStart, limits, steps[..n])
  }

  /** A counter is within its limit, give or take the overshoot; the largest 64-bit limit counts as none. */
  predicate IsWithin(used: int, limit: int, overshoot: nat) {
    used <= Max0(limit) + overshoot || limit == MAX_I64
  }

  predicate AllWithin(used: Used, limits: Limits, overshoot: nat) {
    IsWithin(used.hour, limits.hourly, overshoot) && IsWithin(used.day, limits.daily, overshoot) &&
      IsWithin(used.month, limits.monthly, overshoot)
  }

  predicate LimitsFit(limits: Limits) {
    limits.hourly <= MAX_I64 && limits.daily <= MAX_I64 && limits.monthly <= MAX_I64
  }

  lemma AdmissionLeavesRoom(monthStart: nat -> int, limits: Limits, u: Usage, s: Step)
    requires IsCalendar(monthStart) && LimitsFit(limits) && s.Request? && s.gateAt <= s.settleAt
    requires s.reserved.Some? ==> 0 < s.reserved.value
    requires IsAdmitted(monthStart, limits, u, s)
    ensures AllWithin(UsedAt(monthStart, Settle(monthStart, u, s.settleAt, s.charged), s.settleAt), limits,
                      Max0(s.charged - s.reserved.GetOr(0)))
  {
    hide HourUsed, DayUsed, MonthUsed, Settle, VerdictOf, IsBlocked;
    var used := UsedAt(monthStart, u, s.gateAt);
    GateIsExact(Count(used.hour, limits.hourly), Count(used.day, limits.daily), Count(used.month, limits.monthly),
                s.reserved);
    UsageFades(monthStart, u, s.gateAt, s.settleAt);
    SettlementCounts(monthStart, u, s.settleAt, s.charged);
  }

  /** Whatever the requests, the reservations and the charges: at every later time each of the three counters
      is at most its limit plus what the last charged request cost beyond its own reservation. */
  lemma {:induction false} RunStaysWithinLimits(monthStart: nat -> int, limits: Limits, steps: seq<Step>, now: nat)
    requires IsCalendar(monthStart) && LimitsFit(limits) && IsRun(steps) && LastTime(steps) <= now
    ensures AllWithin(UsedAt(monthStart, RunOf(monthStart, limits, steps), now), limits,
                      Overshoot(monthStart, limits, steps))
  {
    hide IsAdmitted, UsedAt, Settle, CleanUp;
    if steps == [] {
      NothingUsed(monthStart, now);
    } else {
      var n := |steps| - 1;
      var u, s := RunOf(monthStart, limits, steps[..n]), steps[n];
      if s.Request? && IsAdmitted(monthStart, limits, u, s) && s.charged > 0 {
        AdmissionLeavesRoom(monthStart, limits, u, s);
        FadesWithin(monthStart, Settle(monthStart, u, s.settleAt, s.charged), s.settleAt, now, limits,
                    Max0(s.charged - s.reserved.GetOr(0)));
      } else {
        assert LastTime(steps[..n]) <= now;
        RunStaysWithinLimits(monthStart, limits, steps[..n], now);
        if s.Cleaning? {
          CleanUpIsHarmless(monthStart, u, s.at, now);
        } else {
          SettleNothing(monthStart, u, s.settleAt);
        }
      }
    }
  }

  /** What the admitted requests of a run were charged, by when they were settled. */
  ghost function Charged(monthStart: nat -> int, limits: Limits, steps: seq<Step>, counts: nat -> bool): nat {
    if steps == [] then 0
    else
      var n := |steps| - 1;
      var s, rest := steps[n], Charged(monthStart, limits, steps[..n], counts);
      if s.Request? && counts(s.settleAt) && IsAdmitted(monthStart, limits, RunOf(monthStart, limits, steps[..n]), s)
      then rest + s.charged else rest
  }

  ghost function InMonthOf(monthStart: nat -> int, now: nat): nat -> bool {
    (t: nat) => monthStart(t) == monthStart(now)
  }

  /** After every run the hour counter holds all that was charged in the last 59 minutes, and nothing charged an hour
      ago or earlier; the day counter all of the last 23 hours, and nothing of a day ago or earlier. */
  lemma {:induction false} RecentChargesAreCounted(monthStart: nat -> int, limits: Limits, steps: seq<Step>, now: nat)
    requires IsRun(steps) && LastTime(steps) <= now
    ensures var u := RunOf(monthStart, limits, steps);
            && Charged(monthStart, limits, steps, From(now - 3540)) <= HourUsed(u, now)
                 <= Charged(monthStart, limits, steps, From(now - 3599))
            && Charged(monthStart, limits, steps, From(now - 82800)) <= DayUsed(u, now)
                 <= Charged(monthStart, limits, steps, From(now - 86399))
  {
    hide IsAdmitted, HourUsed, DayUsed, Settle, CleanUp, MonthUsed;
    if steps == [] {
      NothingUsed(monthStart, now);
    } else {
      var n := |steps| - 1;
      var u, s := RunOf(monthStart, limits, steps[..n]), steps[n];
      assert LastTime(steps[..n]) <= now;
      RecentChargesAreCounted(monthStart, limits, steps[..n], now);
      if s.Cleaning? {
        CleanUpIsHarmless(monthStart, u, s.at, now);
      } else {
        WindowsInSeconds(monthStart, u, s.settleAt, s.charged, now);
      }
    }
  }

  /** The month counter holds exactly what was charged in the current month. */
  lemma {:induction false} MonthChargesAreCounted(monthStart: nat -> int, limits: Limits, steps: seq<Step>, now: nat)
    requires IsCalendar(monthStart) && IsRun(steps) && LastTime(steps) <= now
    ensures var u := RunOf(monthStart, limits, steps);
            && MonthUsed(monthStart, u, now) == Charged(monthStart, limits, steps, InMonthOf(monthStart, now))
            && (u.month.Some? ==> u.month.value.start <= monthStart(LastTime(steps)))
  {
    hide IsAdmitted;
    if steps != [] {
      var n := |steps| - 1;
      var u, s := RunOf(monthStart, limits, steps[..n]), steps[n];
      assert LastTime(steps[..n]) <= EndOf(s) <= now;
      MonthChargesAreCounted(monthStart, limits, steps[..n], now);
      if s.Request? { MonthCounts(monthStart, u, s.settleAt, s.charged, now); }
    }
  }

  /** So a request is turned away if what was charged in the last 59 minutes, or in the last 23 hours, or in this month
      leaves no room for its reservation, unless that limit is the largest 64-bit number. */
  lemma RecentChargesBlock(monthStart: nat -> int, limits: Limits, steps: seq<Step>, s: Step)
    requires IsCalendar(monthStart) && LimitsFit(limits) && IsRun(steps)
    requires s.Request? && LastTime(steps) <= s.gateAt && (s.reserved.Some? ==> 0 < s.reserved.value)
    requires var lastHour := Charged(monthStart, limits, steps, From(s.gateAt - 3540));
             var lastDay := Charged(monthStart, limits, steps, From(s.gateAt - 82800));
             var thisMonth := Charged(monthStart, limits, steps, InMonthOf(monthStart, s.gateAt));
             var wanted := s.reserved.GetOr(1);
             || (limits.hourly != MAX_I64 && lastHour + wanted > limits.hourly)
             || (limits.daily != MAX_I64 && lastDay + wanted > limits.daily)
             || (limits.monthly != MAX_I64 && thisMonth + wanted > limits.monthly)
    ensures !IsAdmitted(monthStart, limits, RunOf(monthStart, limits, steps), s)
  {
    hide HourUsed, DayUsed, MonthUsed, VerdictOf, IsBlocked, Charged, RunOf, IsRun;
    RecentChargesAreCounted(monthStart, limits, steps, s.gateAt);
    MonthChargesAreCounted(monthStart, limits, steps, s.gateAt);
    var used := UsedAt(monthStart, RunOf(monthStart, limits, steps), s.gateAt);
    GateIsExact(Count(used.hour, limits.hourly), Count(used.day, limits.daily), Count(used.month, limits.monthly),
                s.reserved);
  }

  lemma NothingUsed(monthStart: nat -> int, now: nat)
    ensures UsedAt(monthStart, NO_USAGE, now) == Used(0, 0, 0)
  {
    assert Keys(map[], From(HourWindowStart(now))) == {} && Keys(map[], From(DayWindowStart(now))) == {};
  }

  lemma SettleNothing(monthStart: nat -> int, u: Usage, at: nat)
    ensures Settle(monthStart, u, at, 0) == u
  {
  }

  lemma FadesWithin(monthStart: nat -> int, u: Usage, earlier: nat, later: nat, limits: Limits, overshoot: nat)
    requires IsCalendar(monthStart) && earlier <= later
    requires AllWithin(UsedAt(monthStart, u, earlier), limits, overshoot)
    ensures AllWithin(UsedAt(monthStart, u, later), limits, overshoot)
  {
    UsageFades(monthStart, u, earlier, later);
  }

  /** If no charge exceeds its reservation, no counter ever passes its limit. */
  lemma {:induction false} HonestChargesKeepTheLimit(monthStart: nat -> int, limits: Limits, steps: seq<Step>, now: nat)
    requires IsCalendar(monthStart) && LimitsFit(limits) && IsRun(steps) && LastTime(steps) <= now
    requires forall i :: 0 <= i < |steps| && steps[i].Request? ==> steps[i].charged <= steps[i].reserved.GetOr(0)
    ensures AllWithin(UsedAt(monthStart, RunOf(monthStart, limits, steps), now), limits, 0)
  {
    RunStaysWithinLimits(monthStart, limits, steps, now);
    NoOvershoot(monthStart, limits, steps);
  }

  lemma {:induction false} NoOvershoot(monthStart: nat -> int, limits: Limits, steps: seq<Step>)
    requires forall i :: 0 <= i < |steps| && steps[i].Request? ==> steps[i].charged <= steps[i].reserved.GetOr(0)
    ensures Overshoot(monthStart, limits, steps) == 0
  {
    if steps != [] { NoOvershoot(monthStart, limits, steps[..|steps| - 1]); }
  }

  // ---- The store --------------------------------------------------------------------------------

  class SubjectUsage {
    var minutes: Counters
    var hours: Counters
    var month: Option<MonthRow>
    var lastPruned: nat

    function View(): Usage
      reads this
    {
      Usage(minutes, hours, month)
    }

    constructor ()
      ensures View() == NO_USAGE && lastPruned == 0
    {
      minutes, hours, month, lastPruned := map[], map[], None, 0;
    }

    /** Applies one pending charge to the three counters. */
    method ApplyCharge(monthStart: nat -> int, createdAt: nat, credits: nat)
      modifies this`minutes, this`hours, this`month
      ensures View() == Settle(monthStart, old(View()), createdAt, credits)
    {
      if credits == 0 {
        return;
      }
      var minuteBucket := createdAt - createdAt % SECS_PER_MINUTE;
      var hourBucket := createdAt - createdAt % SECS_PER_HOUR;
      minutes := Add(minutes, minuteBucket, credits);
      hours := Add(hours, hourBucket, credits);
      month := Some(AddToMonth(month, monthStart(createdAt), credits));
    }

    /** The monthly count; a row of an earlier month is replaced on the way. */
    method FetchMonthlyCount(monthStart: nat -> int, now: nat) returns (count: nat)
      modifies this`month
      ensures View() == ReadMonth(monthStart, old(View()), now)
      ensures count == MonthUsed(monthStart, old(View()), now)
    {
      if month.None? {
        return 0;
      }
      if month.value.start < monthStart(now) {
        month := Some(MonthRow(monthStart(now), 0));
        return 0;
      }
      count := month.value.count;
    }

    /** Deletes old buckets, at most once in ten minutes. */
    method MaybeCleanup(now: nat)
      modifies this`minutes, this`hours, this`lastPruned
      ensures View() == if now - old(lastPruned) < 600 then old(View()) else CleanUp(old(View()), now)
      ensures lastPruned == if now - old(lastPruned) < 600 then old(lastPruned) else now
    {
      if now - lastPruned >= 600 {
        lastPruned := now;
        minutes := DropBefore(minutes, now - RETENTION_SECS);
        hours := DropBefore(hours, now - RETENTION_SECS);
      }
    }
  }
}
