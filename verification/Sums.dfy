/** Sums over finite sets, independent of the order in which a set is traversed. */
module Sums {

  ghost function SumOver<K(!new)>(keys: set<K>, f: K -> int): int {
    if keys == {} then 0
    else
      var k :| k in keys;
      f(k) + SumOver(keys - {k}, f)
  }

  /** Any element may be split off first. */
  lemma {:induction false} SumExtract<K(!new)>(keys: set<K>, f: K -> int, k: K)
    requires k in keys
    ensures SumOver(keys, f) == f(k) + SumOver(keys - {k}, f)
    decreases |keys|
  {
    var c :| c in keys && SumOver(keys, f) == f(c) + SumOver(keys - {c}, f);
    if c != k {
      SumExtract(keys - {c}, f, k);
      SumExtract(keys - {k}, f, c);
      assert keys - {c} - {k} == keys - {k} - {c};
    }
  }

  lemma {:induction false} SumCongruent<K(!new)>(keys: set<K>, f: K -> int, g: K -> int)
    requires forall k :: k in keys ==> f(k) == g(k)
    ensures SumOver(keys, f) == SumOver(keys, g)
    decreases |keys|
  {
    if keys != {} {
      var k :| k in keys;
      SumExtract(keys, f, k);
      SumExtract(keys, g, k);
      SumCongruent(keys - {k}, f, g);
    }
  }

  lemma {:induction false} SumMonotone<K(!new)>(keys: set<K>, f: K -> int, g: K -> int)
    requires forall k :: k in keys ==> f(k) <= g(k)
    ensures SumOver(keys, f) <= SumOver(keys, g)
    decreases |keys|
  {
    if keys != {} {
      var k :| k in keys;
      SumExtract(keys, f, k);
      SumExtract(keys, g, k);
      SumMonotone(keys - {k}, f, g);
    }
  }

  /** Dropping keys on which a non-negative function vanishes, or any keys at all, never raises the sum. */
  lemma {:induction false} SumSubset<K(!new)>(small: set<K>, large: set<K>, f: K -> int)
    requires small <= large
    requires forall k :: k in large ==> 0 <= f(k)
    ensures 0 <= SumOver(small, f) <= SumOver(large, f)
    ensures (forall k :: k in large - small ==> f(k) == 0) ==> SumOver(small, f) == SumOver(large, f)
    decreases |large|
  {
    if large != {} {
      var k :| k in large;
      SumExtract(large, f, k);
      SumSubset(small - {k}, large - {k}, f);
      if k in small {
        SumExtract(small, f, k);
      } else {
        assert small - {k} == small;
      }
    }
  }

  /** Raising the function at one key by `d` raises the sum by `d`. */
  lemma SumBump<K(!new)>(keys: set<K>, f: K -> int, g: K -> int, k: K, d: int)
    requires k in keys
    requires g(k) == f(k) + d
    requires forall x :: x in keys && x != k ==> g(x) == f(x)
    ensures SumOver(keys, g) == SumOver(keys, f) + d
  {
    SumExtract(keys, f, k);
    SumExtract(keys, g, k);
    SumCongruent(keys - {k}, f, g);
  }
}
