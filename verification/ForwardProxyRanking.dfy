/** Ranking the endpoints for a subject: the best scores first, the direct route only after every other. */
module ForwardProxyRanking {
  import opened Wrappers
  import opened Sorting
  import opened ForwardProxyTypes
  import opened ForwardProxyProvenance
  import opened ForwardProxyWeights
  import opened ForwardProxySelection

  predicate IsEligible(e: Endpoint, rt: RuntimeMap, exclude: set<string>, allowDirect: bool) {
    && e.IsSelectable()
    && (allowDirect || !e.IsDirect())
    && e.key !in exclude
    && e.key in rt && rt[e.key].available
  }

  function Eligible(eps: seq<Endpoint>, rt: RuntimeMap, exclude: set<string>, allowDirect: bool): (r: seq<Endpoint>)
    ensures forall e :: e in r <==> e in eps && IsEligible(e, rt, exclude, allowDirect)
  {
    if eps == [] then []
    else
      var n := |eps| - 1;
      var r := Eligible(eps[..n], rt, exclude, allowDirect);
      if IsEligible(eps[n], rt, exclude, allowDirect) then r + [eps[n]] else r
  }

  function LatencyTerm(ema: Option<real>): real {
    if ema.None? then 0.0 else Min(ema.value / 1000.0, 1.5)
  }

  /** The score of an endpoint; `jitter` is derived from the subject and the key. */
  function Score(rt: RuntimeMap, jitter: string -> Unit, e: Endpoint): real {
    if e.key !in rt then 0.0
    else
      rt[e.key].weight + rt[e.key].successEma * 4.0 - LatencyTerm(rt[e.key].latencyEmaMs)
        - (if e.IsDirect() then 50.0 else 0.0) + jitter(e.key) * 0.05
  }

  function Better(rt: RuntimeMap, jitter: string -> Unit): (Endpoint, Endpoint) -> bool {
    (a, b) => Score(rt, jitter, a) >= Score(rt, jitter, b)
  }

  function RankCandidates(eps: seq<Endpoint>, rt: RuntimeMap, jitter: string -> Unit, exclude: set<string>,
                          allowDirect: bool, limit: nat)
    : seq<Endpoint>
  {
    var candidates := SortBy(Better(rt, jitter), Eligible(eps, rt, exclude, allowDirect));
    if |candidates| <= Shown(limit) then candidates else candidates[..Shown(limit)]
  }

  function Shown(limit: nat): nat { if limit < 1 then 1 else limit }

  lemma {:induction false} EligibleIsDistinct(eps: seq<Endpoint>, rt: RuntimeMap, exclude: set<string>,
                                              allowDirect: bool)
    requires DistinctKeys(eps)
    ensures DistinctKeys(Eligible(eps, rt, exclude, allowDirect))
  {
    if eps != [] {
      var n := |eps| - 1;
      assert forall i :: 0 <= i < n ==> eps[..n][i] == eps[i];
      EligibleIsDistinct(eps[..n], rt, exclude, allowDirect);
      forall e | e in Eligible(eps[..n], rt, exclude, allowDirect) ensures e.key != eps[n].key {
        var i :| 0 <= i < n && eps[..n][i] == e;
      }
    }
  }

  /** The ranking is the true top of the eligible endpoints by score: as many as asked for or there are, without
      duplicates, in descending order, and none left out that scores higher. */
  lemma RankingIsTop(eps: seq<Endpoint>, rt: RuntimeMap, jitter: string -> Unit, exclude: set<string>,
                     allowDirect: bool, limit: nat)
    requires DistinctKeys(eps)
    ensures var ranked, eligible := RankCandidates(eps, rt, jitter, exclude, allowDirect, limit),
            Eligible(eps, rt, exclude, allowDirect);
            && |ranked| == (if |eligible| <= Shown(limit) then |eligible| else Shown(limit))
            && Distinct(ranked)
            && (forall e :: e in ranked ==> e in eps && IsEligible(e, rt, exclude, allowDirect))
            && (forall i, j :: 0 <= i < j < |ranked| ==> Score(rt, jitter, ranked[i]) >= Score(rt, jitter, ranked[j]))
            && (forall e, r :: e in eligible && e !in ranked && r in ranked ==>
                Score(rt, jitter, r) >= Score(rt, jitter, e))
  {
    hide Score, IsEligible, Eligible, DistinctKeys, Shown;
    var eligible := Eligible(eps, rt, exclude, allowDirect);
    var candidates := SortBy(Better(rt, jitter), eligible);
    EligibleIsDistinct(eps, rt, exclude, allowDirect);
    DistinctKeysAreDistinct(eligible);
    BetterIsPreorder(rt, jitter);
    SortByKeeps(Better(rt, jitter), eligible);
    TopOfSorted(rt, jitter, candidates, Shown(limit));
    hide SortBy;
    assert |candidates| <= Shown(limit) || |candidates[..Shown(limit)]| == Shown(limit);
  }

  lemma DistinctKeysAreDistinct(eps: seq<Endpoint>)
    requires DistinctKeys(eps)
    ensures Distinct(eps)
  {
  }

  lemma BetterIsPreorder(rt: RuntimeMap, jitter: string -> Unit)
    ensures TotalPreorder(Better(rt, jitter))
  {
  }

  lemma TopOfSorted(rt: RuntimeMap, jitter: string -> Unit, s: seq<Endpoint>, shown: nat)
    requires Sorted(Better(rt, jitter), s)
    ensures forall i, j :: 0 <= i < j < |s| ==> Score(rt, jitter, s[i]) >= Score(rt, jitter, s[j])
    ensures shown < |s| ==> forall e, r :: e in s && e !in s[..shown] && r in s[..shown] ==>
            Score(rt, jitter, r) >= Score(rt, jitter, e)
  {
    hide Score;
    forall i, j | 0 <= i < j < |s| ensures Score(rt, jitter, s[i]) >= Score(rt, jitter, s[j]) {
      assert Better(rt, jitter)(s[i], s[j]);
    }
    if shown < |s| {
      forall e, r | e in s && e !in s[..shown] && r in s[..shown] ensures Score(rt, jitter, r) >= Score(rt, jitter, e) {
        var j :| 0 <= j < |s| && s[j] == e;
        var i :| 0 <= i < shown && s[..shown][i] == r;
        assert forall m :: 0 <= m < shown ==> s[..shown][m] == s[m];
      }
    }
  }

  /** What a latency average takes off a score. */
  function LatencyCost(r: Runtime): real {
    if Latency(r) <= 1500.0 then Latency(r) / 1000.0 else 1.5
  }

  /** A score gains as much as the weight does, four times as much as the success average, and loses one for every
      second of latency up to one and a half. */
  lemma ScoreFollowsHealth(a: RuntimeMap, b: RuntimeMap, jitter: string -> Unit, e: Endpoint)
    requires e.key in a && e.key in b
    ensures Score(b, jitter, e) - Score(a, jitter, e) ==
            (b[e.key].weight - a[e.key].weight) + 4.0 * (b[e.key].successEma - a[e.key].successEma)
              - (LatencyCost(b[e.key]) - LatencyCost(a[e.key]))
    ensures a[e.key].weight <= b[e.key].weight && a[e.key].successEma <= b[e.key].successEma &&
            Latency(b[e.key]) <= Latency(a[e.key])
            ==> Score(a, jitter, e) <= Score(b, jitter, e)
  {
    LatencyTermIsCost(a[e.key]);
    LatencyTermIsCost(b[e.key]);
    hide LatencyTerm, LatencyCost;
    LatencyCostGrows(b[e.key], a[e.key]);
  }

  lemma LatencyTermIsCost(r: Runtime)
    ensures LatencyTerm(r.latencyEmaMs) == LatencyCost(r)
  {
  }

  lemma LatencyCostGrows(a: Runtime, b: Runtime)
    ensures Latency(a) <= Latency(b) ==> LatencyCost(a) <= LatencyCost(b)
  {
  }

  /** The subject decides only between endpoints whose health differs by less than 0.05. */
  lemma HealthDecidesScores(rt: RuntimeMap, jitter: string -> Unit, e: Endpoint, f: Endpoint)
    requires e.key in rt && f.key in rt && (e.IsDirect() <==> f.IsDirect())
    requires var (a, b) := (rt[e.key], rt[f.key]);
             a.weight + 4.0 * a.successEma - LatencyCost(a) > b.weight + 4.0 * b.successEma - LatencyCost(b) + 0.05
    ensures Score(rt, jitter, e) > Score(rt, jitter, f)
  {
    LatencyTermIsCost(rt[e.key]);
    LatencyTermIsCost(rt[f.key]);
    hide LatencyTerm, LatencyCost;
    assert 0.0 <= jitter(e.key) <= 1.0 && 0.0 <= jitter(f.key) <= 1.0;
  }

  /** Eligible are the available endpoints that have a route, or are direct where that is allowed, and are not
      excluded. */
  lemma EligibleExactly(eps: seq<Endpoint>, rt: RuntimeMap, exclude: set<string>, allowDirect: bool, e: Endpoint)
    ensures e in Eligible(eps, rt, exclude, allowDirect) <==>
            && e in eps && e.key in rt && rt[e.key].available && e.key !in exclude
            && (if e.protocol.Direct? then allowDirect else e.endpointUrl.Some?)
  {
  }

  /** Health within bounds keeps every direct score below every other. */
  lemma DirectScoresBelow(eps: seq<Endpoint>, rt: RuntimeMap, jitter: string -> Unit, direct: Endpoint, e: Endpoint)
    requires ValidRuntime(eps, rt) && direct.key in rt && e.key in rt && direct.IsDirect() && !e.IsDirect()
    ensures Score(rt, jitter, direct) <= -33.95 && -13.5 <= Score(rt, jitter, e)
  {
    assert rt[direct.key].Valid() && rt[e.key].Valid();
    hide ValidRuntime;
    assert 0.0 <= jitter(direct.key) <= 1.0 && 0.0 <= jitter(e.key) <= 1.0;
  }

  /** The direct route is offered only after every eligible endpoint that is not direct. */
  lemma DirectComesLast(eps: seq<Endpoint>, rt: RuntimeMap, jitter: string -> Unit, exclude: set<string>,
                        allowDirect: bool, limit: nat,
                        at: nat, e: Endpoint)
    requires ValidEndpoints(eps) && ValidRuntime(eps, rt)
    requires var ranked := RankCandidates(eps, rt, jitter, exclude, allowDirect, limit);
             at < |ranked| && ranked[at].IsDirect()
    requires e in eps && IsEligible(e, rt, exclude, allowDirect) && !e.IsDirect()
    ensures e in RankCandidates(eps, rt, jitter, exclude, allowDirect, limit)[..at]
  {
    hide RankCandidates, Score, ValidRuntime, Eligible;
    RankingIsTop(eps, rt, jitter, exclude, allowDirect, limit);
    var ranked := RankCandidates(eps, rt, jitter, exclude, allowDirect, limit);
    assert ranked[at] in ranked;
    DirectScoresBelow(eps, rt, jitter, ranked[at], e);
    EligibleHas(eps, rt, exclude, allowDirect, e);
    var i :| 0 <= i < |ranked| && ranked[i] == e;
    assert i < at;
    assert ranked[..at][i] == e;
  }

  /** A ranking: the true top of the eligible endpoints, with the direct route behind all others. */
  ghost predicate IsRanking(ranked: seq<Endpoint>, eps: seq<Endpoint>, rt: RuntimeMap, jitter: string -> Unit,
                            exclude: set<string>, allowDirect: bool, limit: nat) {
    var eligible := Eligible(eps, rt, exclude, allowDirect);
    var shown := if limit == 0 then 1 else limit;
    && |ranked| == (if |eligible| <= shown then |eligible| else shown)
    && Distinct(ranked)
    && (forall e :: e in ranked ==> e in eps && IsEligible(e, rt, exclude, allowDirect))
    && (forall i, j :: 0 <= i < j < |ranked| ==> Score(rt, jitter, ranked[i]) >= Score(rt, jitter, ranked[j]))
    && (forall e, r :: e in eligible && e !in ranked && r in ranked ==> Score(rt, jitter, r) >= Score(rt, jitter, e))
    && (forall at, e :: 0 <= at < |ranked| && ranked[at].IsDirect() && e in eligible && !e.IsDirect() ==>
        e in ranked[..at])
  }

  lemma RankingIsRanking(eps: seq<Endpoint>, rt: RuntimeMap, jitter: string -> Unit, exclude: set<string>,
                         allowDirect: bool, limit: nat)
    requires ValidEndpoints(eps) && ValidRuntime(eps, rt)
    ensures IsRanking(RankCandidates(eps, rt, jitter, exclude, allowDirect, limit), eps, rt, jitter, exclude,
                      allowDirect,
                      limit)
  {
    hide RankCandidates, Score, ValidRuntime, IsEligible, IsTidy, ByKey;
    RankingIsTop(eps, rt, jitter, exclude, allowDirect, limit);
    var ranked := RankCandidates(eps, rt, jitter, exclude, allowDirect, limit);
    forall at, e | 0 <= at < |ranked| && ranked[at].IsDirect() && e in Eligible(eps, rt, exclude, allowDirect) &&
      !e.IsDirect()
      ensures e in ranked[..at]
    {
      DirectComesLast(eps, rt, jitter, exclude, allowDirect, limit, at, e);
    }
  }

  lemma EligibleHas(eps: seq<Endpoint>, rt: RuntimeMap, exclude: set<string>, allowDirect: bool, e: Endpoint)
    requires e in eps && IsEligible(e, rt, exclude, allowDirect)
    ensures e in Eligible(eps, rt, exclude, allowDirect)
  {
  }
}
