/** Weighted selection: every positive selectable endpoint owns an interval as long as its weight, and a point of
    the whole length picks the owner. */
module ForwardProxySelection {
  import opened Wrappers
  import opened ForwardProxyTypes
  import opened ForwardProxyProvenance
  import opened ForwardProxyWeights

  /** A pseudo-random number, as derived from the selection counter. */
  type Unit = u: real | 0.0 <= u <= 1.0 witness 0.0

  predicate IsCandidate(e: Endpoint, rt: RuntimeMap) {
    e.IsSelectable() && e.key in rt && rt[e.key].weight > 0.0
  }

  /** The positive selectable endpoints, in list order. */
  function Candidates(eps: seq<Endpoint>, rt: RuntimeMap): (r: seq<Endpoint>)
    ensures forall e :: e in r <==> e in eps && IsCandidate(e, rt)
  {
    if eps == [] then []
    else
      var n := |eps| - 1;
      var r := Candidates(eps[..n], rt);
      if IsCandidate(eps[n], rt) then r + [eps[n]] else r
  }

  /** Where the interval of candidate `n` begins. */
  function Start(cs: seq<Endpoint>, rt: RuntimeMap, n: nat): real
    requires n <= |cs|
  {
    if n == 0 then 0.0 else Start(cs, rt, n - 1) + WeightOf(rt, cs[n - 1].key)
  }

  function Total(cs: seq<Endpoint>, rt: RuntimeMap): real { Start(cs, rt, |cs|) }

  /** Candidate `i` owns the point `x`. The first interval is closed at 0. */
  predicate OwnsPoint(cs: seq<Endpoint>, rt: RuntimeMap, x: real, i: nat) {
    i < |cs| && (i == 0 || Start(cs, rt, i) < x) && x <= Start(cs, rt, i + 1)
  }

  /** Candidate `i` owns the point at `u` of the whole length. */
  predicate Owns(cs: seq<Endpoint>, rt: RuntimeMap, u: real, i: nat) {
    OwnsPoint(cs, rt, u * Total(cs, rt), i)
  }

  method CollectCandidates(eps: seq<Endpoint>, rt: RuntimeMap)
    returns (candidates: seq<(Endpoint, real)>, totalWeight: real)
    ensures ArePairs(candidates, Candidates(eps, rt), rt) && totalWeight == Total(Candidates(eps, rt), rt)
  {
    hide ArePairs, Start, Candidates;
    candidates, totalWeight := [], 0.0;
    NoPairs(eps, rt);
    for n := 0 to |eps|
      invariant ArePairs(candidates, Candidates(eps[..n], rt), rt) && totalWeight == Total(Candidates(eps[..n], rt), rt)
    {
      PairOneMore(eps, n, rt, candidates);
      if eps[n].IsSelectable() && eps[n].key in rt && rt[eps[n].key].weight > 0.0 {
        var weight := rt[eps[n].key].weight;
        totalWeight := totalWeight + weight;
        candidates := candidates + [(eps[n], weight)];
      }
    }
    assert eps[..|eps|] == eps;
  }

  lemma NoPairs(eps: seq<Endpoint>, rt: RuntimeMap)
    ensures ArePairs([], Candidates(eps[..0], rt), rt) && Total(Candidates(eps[..0], rt), rt) == 0.0
  {
  }

  lemma PairOneMore(eps: seq<Endpoint>, n: nat, rt: RuntimeMap, pairs: seq<(Endpoint, real)>)
    requires n < |eps| && ArePairs(pairs, Candidates(eps[..n], rt), rt)
    ensures var cs, more := Candidates(eps[..n], rt), Candidates(eps[..n + 1], rt);
            if IsCandidate(eps[n], rt) then
              && ArePairs(pairs + [(eps[n], rt[eps[n].key].weight)], more, rt)
              && Total(more, rt) == Total(cs, rt) + rt[eps[n].key].weight
            else more == cs
  {
    assert eps[..n + 1][..n] == eps[..n] && eps[..n + 1][n] == eps[n];
    var cs := Candidates(eps[..n], rt);
    StartStays(cs, eps[n], rt, |cs|);
  }

  method PickByWeight(eps: seq<Endpoint>, rt: RuntimeMap, u: Unit) returns (picked: Option<Endpoint>)
    ensures var cs := Candidates(eps, rt);
            if cs == [] then picked == None
            else exists i: nat :: Owns(cs, rt, u, i) && picked == Some(cs[i])
  {
    hide Candidates, Start;
    var candidates, totalWeight := CollectCandidates(eps, rt);
    if candidates == [] {
      return None;
    }
    PointIsWithin(eps, rt, u, totalWeight);
    var owner := PickAt(candidates, Candidates(eps, rt), rt, u * totalWeight);
    ghost var i: nat :| OwnsPoint(Candidates(eps, rt), rt, u * totalWeight, i) && owner == Candidates(eps, rt)[i];
    assert Owns(Candidates(eps, rt), rt, u, i);
    picked := Some(owner);
  }

  /** The walk along the intervals. The last one ends where the whole length does, so it never runs out. */
  method PickAt(candidates: seq<(Endpoint, real)>, ghost cs: seq<Endpoint>, rt: RuntimeMap, point: real)
    returns (picked: Endpoint)
    requires ArePairs(candidates, cs, rt) && candidates != [] && point <= Total(cs, rt)
    ensures exists i: nat :: OwnsPoint(cs, rt, point, i) && picked == cs[i]
  {
    var threshold := point;
    picked := candidates[0].0;
    for n := 0 to |candidates|
      invariant threshold == point - Start(cs, rt, n)
      invariant n > 0 ==> threshold > 0.0
    {
      picked := candidates[n].0;
      var weight := candidates[n].1;
      if threshold <= weight {
        assert OwnsPoint(cs, rt, point, n);
        return;
      }
      threshold := threshold - weight;
    }
  }

  predicate ArePairs(pairs: seq<(Endpoint, real)>, cs: seq<Endpoint>, rt: RuntimeMap) {
    |pairs| == |cs| && forall i :: 0 <= i < |cs| ==> pairs[i] == (cs[i], WeightOf(rt, cs[i].key))
  }

  lemma {:induction false} StartStays(cs: seq<Endpoint>, e: Endpoint, rt: RuntimeMap, n: nat)
    requires n <= |cs|
    ensures Start(cs + [e], rt, n) == Start(cs, rt, n)
  {
    if n > 0 { StartStays(cs, e, rt, n - 1); }
  }

  lemma PointIsWithin(eps: seq<Endpoint>, rt: RuntimeMap, u: Unit, total: real)
    requires total == Total(Candidates(eps, rt), rt)
    ensures u * total <= total
  {
    var cs := Candidates(eps, rt);
    assert forall e :: e in cs ==> WeightOf(rt, e.key) > 0.0;
    hide Candidates;
    StartGrows(cs, rt, 0, |cs|);
    Shrinks(u, total);
  }

  lemma Shrinks(u: Unit, total: real)
    requires total >= 0.0
    ensures u * total <= total
  {
  }

  lemma {:induction false} StartGrows(cs: seq<Endpoint>, rt: RuntimeMap, m: nat, n: nat)
    requires m <= n <= |cs| && forall e :: e in cs ==> WeightOf(rt, e.key) > 0.0
    ensures Start(cs, rt, m) <= Start(cs, rt, n) && (m < n ==> Start(cs, rt, m) < Start(cs, rt, n))
    decreases n
  {
    if m < n {
      StartGrows(cs, rt, m, n - 1);
      assert cs[n - 1] in cs;
    }
  }

  /** Every point has one owner. */
  lemma OwnerIsUnique(eps: seq<Endpoint>, rt: RuntimeMap, u: Unit, i: nat, j: nat)
    requires Owns(Candidates(eps, rt), rt, u, i) && Owns(Candidates(eps, rt), rt, u, j)
    ensures i == j
  {
    var cs := Candidates(eps, rt);
    assert forall e :: e in cs ==> WeightOf(rt, e.key) > 0.0;
    if i < j { StartGrows(cs, rt, i + 1, j); }
    if j < i { StartGrows(cs, rt, j + 1, i); }
  }

  /** A candidate is picked by exactly the points between its bounds; their distance is its share of the weight. */
  lemma ShareIsProportional(eps: seq<Endpoint>, rt: RuntimeMap, u: Unit, i: nat)
    requires i < |Candidates(eps, rt)|
    ensures var cs := Candidates(eps, rt);
            && Total(cs, rt) > 0.0
            && var low, high := Start(cs, rt, i) / Total(cs, rt), Start(cs, rt, i + 1) / Total(cs, rt);
               && high - low == WeightOf(rt, cs[i].key) / Total(cs, rt) > 0.0
               && 0.0 <= low && high <= 1.0
               && (Owns(cs, rt, u, i) <==> (i == 0 || low < u) && u <= high)
  {
    hide Start, Candidates, WeightOf;
    var cs := Candidates(eps, rt);
    IntervalWithin(eps, rt, i);
    Interval(Start(cs, rt, i), WeightOf(rt, cs[i].key), Total(cs, rt), u);
  }

  lemma IntervalWithin(eps: seq<Endpoint>, rt: RuntimeMap, i: nat)
    requires i < |Candidates(eps, rt)|
    ensures var cs := Candidates(eps, rt);
            && 0.0 <= Start(cs, rt, i)
            && Start(cs, rt, i + 1) == Start(cs, rt, i) + WeightOf(rt, cs[i].key) <= Total(cs, rt)
            && WeightOf(rt, cs[i].key) > 0.0
  {
    var cs := Candidates(eps, rt);
    assert cs[i] in cs;
    assert forall e :: e in cs ==> WeightOf(rt, e.key) > 0.0;
    StartGrows(cs, rt, 0, i);
    StartGrows(cs, rt, i + 1, |cs|);
  }

  lemma Interval(low: real, w: real, total: real, u: real)
    requires 0.0 <= low && 0.0 < w && low + w <= total
    ensures low < u * total <==> low / total < u
    ensures u * total <= low + w <==> u <= (low + w) / total
    ensures 0.0 <= low / total && (low + w) / total <= 1.0
    ensures (low + w) / total - low / total == w / total > 0.0
  {
    Scaled(low, total, u);
    Scaled(low + w, total, u);
    Difference(low, w, total);
  }

  lemma Scaled(x: real, total: real, u: real)
    requires total > 0.0 && 0.0 <= x <= total
    ensures x < u * total <==> x / total < u
    ensures u * total <= x <==> u <= x / total
    ensures 0.0 <= x / total <= 1.0
  {
    var q := x / total;
    assert q * total == x;
    Monotone(q, u, total);
    Monotone(u, q, total);
    Monotone(q, 1.0, total);
    Monotone(1.0, q, total);
    Monotone(q, 0.0, total);
  }

  lemma Monotone(a: real, b: real, total: real)
    requires total > 0.0
    ensures a < b <==> a * total < b * total
  {
    assert (b - a) * total == b * total - a * total;
    assert b - a > 0.0 ==> (b - a) * total > 0.0;
    assert b - a <= 0.0 ==> (b - a) * total <= 0.0;
  }

  lemma Difference(x: real, w: real, total: real)
    requires total > 0.0 && w > 0.0
    ensures (x + w) / total - x / total == w / total > 0.0
  {
    assert (x + w) / total == x / total + w / total;
    assert (w / total) * total == w;
    Monotone(0.0, w / total, total);
  }
}
