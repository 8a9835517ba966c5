/** Credit counters kept per minute and per hour, and the windows that are summed over them. Times are
    seconds since the Unix epoch. */
module Buckets {
  import opened Sums

  const SECS_PER_MINUTE := 60
  const SECS_PER_HOUR := 3600
  const RETENTION_SECS := 2 * 24 * 3600

  /** The credits counted at each bucket start. */
  type Counters = map<nat, nat>

  function MinuteOf(t: nat): nat { t - t % SECS_PER_MINUTE }

  function HourOf(t: nat): nat { t - t % SECS_PER_HOUR }

  /** The last 60 minute buckets. */
  function HourWindowStart(now: nat): int { MinuteOf(now) - 59 * SECS_PER_MINUTE }

  /** The last 24 hour buckets. */
  function DayWindowStart(now: nat): int { HourOf(now) - 23 * SECS_PER_HOUR }

  function At(b: Counters, k: nat): nat {
    if k in b then b[k] else 0
  }

  /** The upsert of a settlement. */
  function Add(b: Counters, k: nat, credits: nat): Counters {
    b[k := At(b, k) + credits]
  }

  /** The periodic deletion of old buckets. */
  function DropBefore(b: Counters, threshold: int): Counters {
    map k | k in b && k >= threshold :: b[k]
  }

  ghost function CountAt(b: Counters): nat -> int {
    (k: nat) => At(b, k)
  }

  ghost function Keys(b: Counters, keep: nat -> bool): set<nat> {
    set k | k in b && keep(k)
  }

  ghost function SumWhere(b: Counters, keep: nat -> bool): nat {
    SumSubset({}, Keys(b, keep), CountAt(b));
    SumOver(Keys(b, keep), CountAt(b))
  }

  ghost function From(lo: int): nat -> bool { k => k >= lo }

  ghost function Within(lo: int, hi: int): nat -> bool { k => lo <= k <= hi }

  /** One settlement raises exactly the windows its bucket lies in. */
  lemma SumAfterAdd(b: Counters, keep: nat -> bool, k: nat, credits: nat)
    ensures SumWhere(Add(b, k, credits), keep) == SumWhere(b, keep) + if keep(k) then credits else 0
  {
    var c := Add(b, k, credits);
    var old_, new_ := Keys(b, keep), Keys(c, keep);
    if keep(k) {
      assert new_ == old_ + {k};
      assert new_ - {k} == old_ - {k};
      SumExtract(new_, CountAt(c), k);
      SumCongruent(old_ - {k}, CountAt(b), CountAt(c));
      if k in old_ {
        SumExtract(old_, CountAt(b), k);
      } else {
        assert old_ - {k} == old_;
      }
    } else {
      assert new_ == old_;
      SumCongruent(old_, CountAt(b), CountAt(c));
    }
  }

  /** Deleting buckets outside a window does not change its sum, and never raises any sum. */
  lemma SumAfterDrop(b: Counters, keep: nat -> bool, threshold: int)
    ensures SumWhere(DropBefore(b, threshold), keep) <= SumWhere(b, keep)
    ensures (forall k :: k in b && keep(k) ==> k >= threshold) ==>
            SumWhere(DropBefore(b, threshold), keep) == SumWhere(b, keep)
  {
    var c := DropBefore(b, threshold);
    SumSubset(Keys(c, keep), Keys(b, keep), CountAt(b));
    SumCongruent(Keys(c, keep), CountAt(b), CountAt(c));
  }

  /** A narrower window holds less. */
  lemma SumNarrower(b: Counters, narrow: nat -> bool, wide: nat -> bool)
    requires forall k :: narrow(k) ==> wide(k)
    ensures SumWhere(b, narrow) <= SumWhere(b, wide)
  {
    SumSubset(Keys(b, narrow), Keys(b, wide), CountAt(b));
  }

  /** As time passes the windows move forward. */
  lemma WindowsAdvance(earlier: nat, later: nat)
    requires earlier <= later
    ensures MinuteOf(earlier) <= MinuteOf(later) && HourOf(earlier) <= HourOf(later)
    ensures HourWindowStart(earlier) <= HourWindowStart(later)
    ensures DayWindowStart(earlier) <= DayWindowStart(later)
  {
  }

  /** Whether a bucket lies in a window, in seconds. */
  lemma BucketsInSeconds(t: nat, now: nat)
    requires t <= now
    ensures MinuteOf(t) >= HourWindowStart(now) <==> now / 60 - t / 60 < 60
    ensures HourOf(t) >= DayWindowStart(now) <==> now / 3600 - t / 3600 < 24
    ensures now - t <= 3540 ==> now / 60 - t / 60 < 60
    ensures now - t >= 3600 ==> now / 60 - t / 60 >= 60
    ensures now - t <= 82800 ==> now / 3600 - t / 3600 < 24
    ensures now - t >= 86400 ==> now / 3600 - t / 3600 >= 24
  {
  }

  /** No window reaches back to a bucket that a clean-up deletes. */
  lemma RetentionCoversWindows(cleanedAt: nat, now: nat)
    requires cleanedAt <= now
    ensures cleanedAt - RETENTION_SECS <= DayWindowStart(now) <= HourWindowStart(now)
  {
  }
}
