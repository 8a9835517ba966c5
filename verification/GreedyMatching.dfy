/** Matching of numbered requests to items, where each request in turn takes the earliest acceptable
    item that is still free. `accepts(i, f)` says that request `i` may be matched to item `f`. */
module GreedyMatching {

  type Matching<F> = map<nat, F>

  ghost predicate IsMatching<F>(accepts: (nat, F) -> bool, m: Matching<F>) {
    && (forall i :: i in m ==> accepts(i, m[i]))
    && (forall i, j :: i in m && j in m && i != j ==> m[i] != m[j])
  }

  /** Request `i` accepts `f` and no request before it took it. */
  ghost predicate Free<F>(accepts: (nat, F) -> bool, m: Matching<F>, i: nat, f: F) {
    accepts(i, f) && forall j :: j in m && j < i ==> m[j] != f
  }

  /** The matching of the first `n` requests in which each in turn takes its earliest free item. */
  ghost predicate IsGreedy<F(!new)>(accepts: (nat, F) -> bool, earlier: (F, F) -> bool, n: nat, g: Matching<F>) {
    && IsMatching(accepts, g)
    && Below(n, g)
    && (forall i, f :: i in g && Free(accepts, g, i, f) && f != g[i] ==> earlier(g[i], f))
    && (forall i, f :: 0 <= i < n && i !in g ==> !Free(accepts, g, i, f))
  }

  /** A later request that shares an item with an earlier one accepts whatever the earlier one accepts
      after that item. */
  ghost predicate Exchangeable<F(!new)>(accepts: (nat, F) -> bool, earlier: (F, F) -> bool) {
    forall i, j, f, f' :: i < j && accepts(i, f) && accepts(j, f) && accepts(i, f') && earlier(f, f') ==> accepts(j, f')
  }

  ghost predicate Below<F>(n: nat, m: Matching<F>) {
    forall k :: k in m ==> k < n
  }

  ghost predicate AgreeBelow<F>(n: nat, a: Matching<F>, b: Matching<F>) {
    forall k: nat :: k < n ==> (k in a <==> k in b) && (k in a ==> a[k] == b[k])
  }

  /** A matching that agrees with the greedy one below `i` can be changed, losing nothing, to agree
      at `i` as well. */
  lemma Exchange<F(!new)>(accepts: (nat, F) -> bool, earlier: (F, F) -> bool, n: nat, g: Matching<F>,
                          i: nat, m: Matching<F>) returns (m': Matching<F>)
    requires Exchangeable(accepts, earlier) && i < n
    requires IsGreedy(accepts, earlier, n, g) && IsMatching(accepts, m) && AgreeBelow(i, m, g) && Below(n, m)
    ensures IsMatching(accepts, m') && |m'| >= |m| && AgreeBelow(i + 1, m', g) && Below(n, m')
  {
    hide IsGreedy, Exchangeable, IsMatching, AgreeBelow, Below;
    GreedyTakes(accepts, earlier, n, g, i, m);
    m' := m;
    if i in g {
      var f := g[i];
      if j: nat :| j in m && m[j] == f && j != i {
        assert i < j;
        if i in m {
          // Request i held another item; request j, which comes later, can take that one instead.
          TakesOver(accepts, earlier, m, i, j, f);
          m' := Swap(accepts, m, i, j);
        } else {
          m' := Reassign(accepts, m, i, j);
        }
      } else {
        m' := Assign(accepts, m, i, f);
      }
    }
    AgreesFurther(n, g, i, m, m');
  }

  lemma AgreesFurther<F>(n: nat, g: Matching<F>, i: nat, m: Matching<F>, m': Matching<F>)
    requires i < n && AgreeBelow(i, m, g) && Below(n, m)
    requires (i in m' <==> i in g) && (i in g ==> m'[i] == g[i]) && m'.Keys <= m.Keys + {i}
    requires forall k :: k in m && k < i ==> k in m' && m'[k] == m[k]
    ensures AgreeBelow(i + 1, m', g) && Below(n, m')
  {
    assert forall k :: k in m' ==> k in m || k == i;
  }

  /** The greedy matching serves request `i` if the other one does, with an item that is no later. */
  lemma GreedyTakes<F(!new)>(accepts: (nat, F) -> bool, earlier: (F, F) -> bool, n: nat, g: Matching<F>, i: nat,
                             m: Matching<F>)
    requires IsGreedy(accepts, earlier, n, g) && IsMatching(accepts, m) && AgreeBelow(i, m, g) && i < n
    ensures i in m ==> i in g && accepts(i, m[i]) && (m[i] != g[i] ==> earlier(g[i], m[i]))
    ensures forall j :: i in m && j in m && j != i ==> m[j] != m[i]
    ensures i in g ==> accepts(i, g[i]) && forall j :: j in m && j < i ==> m[j] != g[i]
    ensures Below(n, g)
  {
    if i in m {
      assert Free(accepts, g, i, m[i]);
    }
  }

  lemma TakesOver<F(!new)>(accepts: (nat, F) -> bool, earlier: (F, F) -> bool, m: Matching<F>, i: nat, j: nat, f: F)
    requires Exchangeable(accepts, earlier) && IsMatching(accepts, m)
    requires i < j && i in m && j in m && m[j] == f && accepts(i, f) && earlier(f, m[i])
    ensures accepts(j, m[i])
  {
  }

  lemma Swap<F(!new)>(accepts: (nat, F) -> bool, m: Matching<F>, i: nat, j: nat) returns (m': Matching<F>)
    requires IsMatching(accepts, m) && i in m && j in m && i != j
    requires accepts(i, m[j]) && accepts(j, m[i])
    ensures IsMatching(accepts, m') && m'.Keys == m.Keys && |m'| == |m|
    ensures m'[i] == m[j] && m'[j] == m[i]
    ensures forall k :: k in m && k != i && k != j ==> m'[k] == m[k]
  {
    m' := map k | k in m :: if k == i then m[j] else if k == j then m[i] else m[k];
    assert m'.Keys == m.Keys;
  }

  lemma Reassign<F(!new)>(accepts: (nat, F) -> bool, m: Matching<F>, i: nat, j: nat) returns (m': Matching<F>)
    requires IsMatching(accepts, m) && i !in m && j in m && accepts(i, m[j])
    ensures IsMatching(accepts, m') && m'.Keys == m.Keys - {j} + {i} && |m'| == |m|
    ensures m'[i] == m[j]
    ensures forall k :: k in m && k != j ==> m'[k] == m[k]
  {
    m' := map k | k in m.Keys - {j} + {i} :: if k == i then m[j] else m[k];
    assert m'.Keys == m.Keys - {j} + {i};
  }

  lemma Assign<F(!new)>(accepts: (nat, F) -> bool, m: Matching<F>, i: nat, f: F) returns (m': Matching<F>)
    requires IsMatching(accepts, m) && accepts(i, f)
    requires forall k :: k in m && k != i ==> m[k] != f
    ensures IsMatching(accepts, m') && m'.Keys == m.Keys + {i} && |m'| >= |m|
    ensures m'[i] == f
    ensures forall k :: k in m && k != i ==> m'[k] == m[k]
  {
    m' := m[i := f];
    assert m'.Keys == m.Keys + {i};
    if i in m { assert m.Keys + {i} == m.Keys; }
    assert |m'.Keys| == |m'| && |m.Keys| == |m|;
  }

  lemma {:induction false} ExchangeBelow<F(!new)>(accepts: (nat, F) -> bool, earlier: (F, F) -> bool, n: nat,
                                                  g: Matching<F>,
                                                 k: nat, m: Matching<F>) returns (m': Matching<F>)
    requires Exchangeable(accepts, earlier) && k <= n
    requires IsGreedy(accepts, earlier, n, g) && IsMatching(accepts, m) && Below(n, m)
    ensures IsMatching(accepts, m') && |m'| >= |m| && AgreeBelow(k, m', g) && Below(n, m')
  {
    m' := m;
    if k > 0 {
      m' := ExchangeBelow(accepts, earlier, n, g, k - 1, m);
      m' := Exchange(accepts, earlier, n, g, k - 1, m');
    }
  }

  /** No matching of the first `n` requests is larger than the greedy one. */
  lemma GreedyIsMaximum<F(!new)>(accepts: (nat, F) -> bool, earlier: (F, F) -> bool, n: nat, g: Matching<F>,
                                 m: Matching<F>)
    requires Exchangeable(accepts, earlier)
    requires IsGreedy(accepts, earlier, n, g)
    requires IsMatching(accepts, m) && Below(n, m)
    ensures |m| <= |g|
  {
    var m' := ExchangeBelow(accepts, earlier, n, g, n, m);
    assert m'.Keys == g.Keys;
  }

  // ---- Building the greedy matching one request at a time ---------------------------------------

  lemma NothingTaken<F(!new)>(accepts: (nat, F) -> bool, earlier: (F, F) -> bool)
    ensures IsGreedy(accepts, earlier, 0, map[])
  {
  }

  lemma Take<F(!new)>(accepts: (nat, F) -> bool, earlier: (F, F) -> bool, i: nat, g: Matching<F>, f: F)
    requires IsGreedy(accepts, earlier, i, g)
    requires Free(accepts, g, i, f)
    requires forall f' :: Free(accepts, g, i, f') && f' != f ==> earlier(f, f')
    ensures IsGreedy(accepts, earlier, i + 1, g[i := f]) && |g[i := f]| == |g| + 1
  {
    var g' := g[i := f];
    assert i !in g && g'.Keys == g.Keys + {i};
    forall k: nat, f' ensures k <= i ==> (Free(accepts, g', k, f') <==> Free(accepts, g, k, f')) {
    }
  }

  lemma Skip<F(!new)>(accepts: (nat, F) -> bool, earlier: (F, F) -> bool, i: nat, g: Matching<F>)
    requires IsGreedy(accepts, earlier, i, g)
    requires forall f :: !Free(accepts, g, i, f)
    ensures IsGreedy(accepts, earlier, i + 1, g)
  {
  }
}
