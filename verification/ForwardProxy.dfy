/** The forward-proxy manager: its endpoint list, the runtime health of every endpoint, the selection counter and
    the probe state. */
module ForwardProxy {
  import opened Wrappers
  import opened ForwardProxyTypes
  import opened ForwardProxyProvenance
  import opened ForwardProxyRebuild
  import opened ForwardProxyIncremental
  import opened ForwardProxyUpdates
  import opened ForwardProxyWeights
  import opened ForwardProxySelection
  import opened ForwardProxyRanking
  import opened ForwardProxyProbe

  // ---- Runtime entries after the list has changed -----------------------------------------------

  /** The entry of an endpoint: a known one keeps its health, a new one starts with the default. */
  function EntryFor(e: Endpoint, rt: RuntimeMap): Runtime {
    if e.key in rt then
      rt[e.key].(displayName := e.displayName, source := e.source, kind := e.protocol.Name(),
                 endpointUrl := RouteText(e),
                 available := e.IsSelectable(), lastError := Unavailability(e))
    else DefaultRuntime(e)
  }

  /** Every endpoint has its entry, and the entries of other keys are kept. */
  predicate IsSynced(eps: seq<Endpoint>, rt: RuntimeMap, after: RuntimeMap) {
    && after.Keys == rt.Keys + Keys(eps)
    && (forall i :: 0 <= i < |eps| ==> eps[i].key in after && after[eps[i].key] == EntryFor(eps[i], rt))
    && (forall k :: k in rt && k !in Keys(eps) ==> after[k] == rt[k])
  }

  method SyncEntries(eps: seq<Endpoint>, rt: RuntimeMap) returns (after: RuntimeMap)
    requires ValidEndpoints(eps)
    ensures IsSynced(eps, rt, after)
  {
    hide IsSynced, DistinctKeys, IsTidy;
    after := rt;
    NothingSynced(eps, rt);
    for n := 0 to |eps|
      invariant IsSynced(eps[..n], rt, after)
    {
      var e := eps[n];
      SyncOneMore(eps, n, rt, after);
      if e.key in after {
        var entry := after[e.key];
        entry := entry.(displayName := e.displayName, source := e.source, kind := e.protocol.Name());
        entry := entry.(endpointUrl := RouteText(e), available := e.IsSelectable(), lastError := Unavailability(e));
        after := after[e.key := entry];
      } else {
        after := after[e.key := DefaultRuntime(e)];
      }
    }
    assert eps[..|eps|] == eps;
  }

  lemma NothingSynced(eps: seq<Endpoint>, rt: RuntimeMap)
    ensures IsSynced(eps[..0], rt, rt)
  {
  }

  lemma SyncOneMore(eps: seq<Endpoint>, n: nat, rt: RuntimeMap, after: RuntimeMap)
    requires n < |eps| && DistinctKeys(eps) && IsSynced(eps[..n], rt, after)
    ensures EntryFor(eps[n], after) == EntryFor(eps[n], rt)
    ensures IsSynced(eps[..n + 1], rt, after[eps[n].key := EntryFor(eps[n], rt)])
  {
    hide EntryFor, IsSynced, DistinctKeys, Keys, ByKey;
    PrefixStep(eps, n);
    AppendByKey(eps[..n], eps[n]);
    SyncAppended(eps[..n], eps[n], rt, after);
  }

  lemma SyncAppended(before: seq<Endpoint>, e: Endpoint, rt: RuntimeMap, after: RuntimeMap)
    requires IsSynced(before, rt, after) && e.key !in Keys(before) && Keys(before + [e]) == Keys(before) + {e.key}
    ensures EntryFor(e, after) == EntryFor(e, rt)
    ensures IsSynced(before + [e], rt, after[e.key := EntryFor(e, rt)])
  {
    hide EntryFor;
    assert e.key in after <==> e.key in rt;
    SameEntry(e, after, rt);
    var more := before + [e];
    assert forall i :: 0 <= i < |before| ==> more[i] == before[i] && before[i].key in Keys(before);
    hide Keys;
  }

  lemma SameEntry(e: Endpoint, a: RuntimeMap, b: RuntimeMap)
    requires e.key in a <==> e.key in b
    requires e.key in a ==> a[e.key] == b[e.key]
    ensures EntryFor(e, a) == EntryFor(e, b)
  {
  }

  /** The runtime map after the list has changed: entries synced, then repaired. */
  ghost predicate IsRefreshed(eps: seq<Endpoint>, rt: RuntimeMap, after: RuntimeMap) {
    exists synced: RuntimeMap :: IsSynced(eps, rt, synced) && IsRepaired(eps, synced, after)
  }

  lemma SyncedAndRepaired(eps: seq<Endpoint>, rt: RuntimeMap, synced: RuntimeMap, after: RuntimeMap)
    requires IsSynced(eps, rt, synced) && IsRepaired(eps, synced, after)
    ensures IsRefreshed(eps, rt, after)
  {
  }

  lemma RefreshIsValid(eps: seq<Endpoint>, before: seq<Endpoint>, rt: RuntimeMap, after: RuntimeMap)
    requires ValidRuntime(before, rt) && IsRefreshed(eps, rt, after)
    ensures ValidRuntime(eps, after) && rt.Keys <= after.Keys
    ensures HasPositive(eps, after) || Selectable(eps, after) == {}
    ensures forall k :: k in rt ==> after[k].weight >= rt[k].weight && SameHealth(rt[k], after[k])
  {
    hide Selectable, HasPositive, EntryFor, IsRepaired;
    var synced: RuntimeMap :| IsSynced(eps, rt, synced) && IsRepaired(eps, synced, after);
    forall k | k in synced
      ensures synced[k].proxyKey == k && synced[k].Valid()
      ensures k in rt ==> synced[k].weight == rt[k].weight && SameHealth(rt[k], synced[k])
    {
      if k in Keys(eps) {
        var i :| 0 <= i < |eps| && eps[i].key == k;
        EntryIsValid(eps[i], rt);
      }
    }
    RepairRestores(eps, synced, after);
  }

  lemma EntryIsValid(e: Endpoint, rt: RuntimeMap)
    requires e.key in rt ==> rt[e.key].proxyKey == e.key && rt[e.key].Valid()
    ensures EntryFor(e, rt).proxyKey == e.key && EntryFor(e, rt).Valid()
    ensures e.key in rt ==> EntryFor(e, rt).weight == rt[e.key].weight && SameHealth(rt[e.key], EntryFor(e, rt))
  {
  }

  /** What an entry shows after a refresh: an endpoint is available exactly if it is direct or has a resolved URL, and
      an unavailable one says what it lacks. One that had no entry starts at 0.8, or 1 for the direct route, with a
      success average of 0.65 and nothing else measured. */
  lemma EntriesAfterRefresh(eps: seq<Endpoint>, rt: RuntimeMap, after: RuntimeMap, e: Endpoint)
    requires IsRefreshed(eps, rt, after) && e in eps
    ensures ShowsRoute(e, after)
    ensures after[e.key].lastError == if after[e.key].available then None else Some("xray_missing")
    ensures after[e.key].displayName == e.displayName && after[e.key].source == e.source
    ensures after[e.key].endpointUrl == if e.endpointUrl.Some? then e.endpointUrl else e.rawUrl
    ensures e.key !in rt ==>
              && after[e.key].weight == (if e.key == DIRECT_KEY then 1.0 else 0.8) && after[e.key].successEma == 0.65
              && after[e.key].latencyEmaMs == None && after[e.key].consecutiveFailures == 0
  {
    var synced: RuntimeMap :| IsSynced(eps, rt, synced) && IsRepaired(eps, synced, after);
    hide IsRepaired, HasPositive, Selectable;
    var i :| 0 <= i < |eps| && eps[i] == e;
    RepairRestores(eps, synced, after);
    assert synced[e.key] == EntryFor(eps[i], rt);
  }

  // ---- Small searches ---------------------------------------------------------------------------

  /** The endpoints whose keys are not among the previous ones. */
  function NewEndpoints(eps: seq<Endpoint>, previous: set<string>): (r: seq<Endpoint>)
    ensures forall e :: e in r <==> e in eps && e.key !in previous
  {
    if eps == [] then []
    else
      var n := |eps| - 1;
      var r := NewEndpoints(eps[..n], previous);
      if eps[n].key !in previous then r + [eps[n]] else r
  }

  function FirstWhere(eps: seq<Endpoint>, p: Endpoint -> bool): (r: Option<Endpoint>)
    ensures r.None? <==> forall e :: e in eps ==> !p(e)
    ensures r.Some? ==> r.value in eps && p(r.value)
  {
    if eps == [] then None else if p(eps[0]) then Some(eps[0]) else FirstWhere(eps[1..], p)
  }

  /** What is selected when no endpoint can be: the direct route, any selectable endpoint, the first, or direct. */
  function Fallback(eps: seq<Endpoint>): Endpoint {
    var direct := FirstWhere(eps, (e: Endpoint) => e.protocol.Direct?);
    if direct.Some? then direct.value
    else
      var selectable := FirstWhere(eps, (e: Endpoint) => e.IsSelectable());
      if selectable.Some? then selectable.value else if eps != [] then eps[0] else DirectEndpoint()
  }

  predicate IsLastRow(rows: seq<StoredRuntime>, i: nat) {
    i < |rows| && forall j :: i < j < |rows| ==> rows[j].proxyKey != rows[i].proxyKey
  }

  /** Rows by key; a later row for a key wins. */
  method CollectRows(rows: seq<StoredRuntime>) returns (rt: RuntimeMap)
    ensures ValidRuntime([], rt)
    ensures forall k :: k in rt <==> exists i :: 0 <= i < |rows| && rows[i].proxyKey == k
    ensures forall i: nat :: IsLastRow(rows, i) ==> rows[i].proxyKey in rt && rt[rows[i].proxyKey] == Restore(rows[i])
  {
    hide IsCollected;
    rt := map[];
    NothingCollected(rows);
    for n := 0 to |rows|
      invariant IsCollected(rows, n, rt)
    {
      CollectOneMore(rows, n, rt);
      rt := rt[rows[n].proxyKey := Restore(rows[n])];
    }
    CollectedIsValid(rows, rt);
    CollectedKeys(rows, rt);
    CollectedLast(rows, rt);
  }

  /** The last of the first `n` rows that has the key. */
  function LastRow(rows: seq<StoredRuntime>, n: nat, k: string): (r: Option<nat>)
    requires n <= |rows|
    ensures r.Some? ==> r.value < n && rows[r.value].proxyKey == k
    ensures forall j :: (if r.Some? then r.value + 1 else 0) <= j < n ==> rows[j].proxyKey != k
  {
    if n == 0 then None else if rows[n - 1].proxyKey == k then Some(n - 1) else LastRow(rows, n - 1, k)
  }

  /** The keys of the first `n` rows, each with the health of its last row. */
  ghost predicate IsCollected(rows: seq<StoredRuntime>, n: nat, rt: RuntimeMap)
    requires n <= |rows|
  {
    forall k :: (k in rt <==> LastRow(rows, n, k).Some?) &&
                (k in rt ==> rt[k] == Restore(rows[LastRow(rows, n, k).value]))
  }

  lemma NothingCollected(rows: seq<StoredRuntime>)
    ensures IsCollected(rows, 0, map[])
  {
  }

  lemma CollectOneMore(rows: seq<StoredRuntime>, n: nat, rt: RuntimeMap)
    requires n < |rows| && IsCollected(rows, n, rt)
    ensures IsCollected(rows, n + 1, rt[rows[n].proxyKey := Restore(rows[n])])
  {
    hide Restore;
  }

  lemma CollectedIsValid(rows: seq<StoredRuntime>, rt: RuntimeMap)
    requires IsCollected(rows, |rows|, rt)
    ensures ValidRuntime([], rt)
  {
    hide Restore, LastRow, IsCollected;
    forall k | k in rt ensures rt[k].proxyKey == k && rt[k].Valid() {
      CollectedEntry(rows, rt, k);
    }
  }

  lemma CollectedEntry(rows: seq<StoredRuntime>, rt: RuntimeMap, k: string)
    requires IsCollected(rows, |rows|, rt)
    ensures k in rt <==> LastRow(rows, |rows|, k).Some?
    ensures k in rt ==> rt[k] == Restore(rows[LastRow(rows, |rows|, k).value])
  {
    hide Restore, LastRow;
  }

  lemma CollectedKeys(rows: seq<StoredRuntime>, rt: RuntimeMap)
    requires IsCollected(rows, |rows|, rt)
    ensures forall k :: k in rt <==> exists i :: 0 <= i < |rows| && rows[i].proxyKey == k
  {
    hide Restore, LastRow, IsCollected;
    forall k ensures k in rt <==> exists i :: 0 <= i < |rows| && rows[i].proxyKey == k {
      CollectedEntry(rows, rt, k);
    }
  }

  lemma CollectedLast(rows: seq<StoredRuntime>, rt: RuntimeMap)
    requires IsCollected(rows, |rows|, rt)
    ensures forall i: nat :: IsLastRow(rows, i) ==> rows[i].proxyKey in rt && rt[rows[i].proxyKey] == Restore(rows[i])
  {
    hide Restore, LastRow, IsCollected;
    forall i: nat | IsLastRow(rows, i) ensures rows[i].proxyKey in rt && rt[rows[i].proxyKey] == Restore(rows[i]) {
      CollectedEntry(rows, rt, rows[i].proxyKey);
    }
  }

  predicate HasSelectable(eps: seq<Endpoint>) {
    exists i :: 0 <= i < |eps| && eps[i].IsSelectable()
  }

  lemma RouteIsSelectable(eps: seq<Endpoint>)
    ensures (exists e :: e in eps && (e.protocol.Direct? || e.endpointUrl.Some?)) <==> HasSelectable(eps)
  {
    if HasSelectable(eps) {
      var i :| 0 <= i < |eps| && eps[i].IsSelectable();
      assert eps[i] in eps;
    }
  }

  /** With a selectable endpoint and the runtime repaired there is a candidate to select. */
  lemma SomeCandidate(eps: seq<Endpoint>, rt: RuntimeMap)
    requires ValidRuntime(eps, rt) && (HasPositive(eps, rt) || Selectable(eps, rt) == {})
    ensures Candidates(eps, rt) == [] <==> !HasSelectable(eps)
  {
    if HasSelectable(eps) {
      var i :| 0 <= i < |eps| && eps[i].IsSelectable();
      assert eps[i].key in Keys(eps);
      assert eps[i].key in Selectable(eps, rt);
      var k :| k in Selectable(eps, rt) && rt[k].weight > 0.0;
      var j :| 0 <= j < |eps| && eps[j].IsSelectable() && eps[j].key == k;
      assert eps[j] in eps && IsCandidate(eps[j], rt);
      assert eps[j] in Candidates(eps, rt);
    }
    if Candidates(eps, rt) != [] {
      var e := Candidates(eps, rt)[0];
      assert e in Candidates(eps, rt);
    }
  }

  // ---- The manager ------------------------------------------------------------------------------

  class ForwardProxyManager {
    const unit: nat -> Unit
    var settings: Settings
    var endpoints: seq<Endpoint>
    var runtime: RuntimeMap
    var selectionCounter: nat
    var requestsSinceProbe: nat
    var probeInFlight: bool
    var lastProbeAt: int
    var lastSubscriptionRefreshAt: Option<int>

    /** Distinct tidy endpoints, a runtime entry within bounds for each of them, and counters of 64 bits. */
    ghost predicate Valid()
      reads this
    {
      && ValidEndpoints(endpoints)
      && ValidRuntime(endpoints, runtime)
      && selectionCounter <= U64_MAX && requestsSinceProbe <= U64_MAX
    }

    ghost function Provenance(): Provenance
      reads this
      requires Valid()
    {
      ProvenanceOf(ByKey(endpoints))
    }

    function Probe(): ProbeState
      reads this
    {
      ProbeState(requestsSinceProbe, probeInFlight, lastProbeAt)
    }

    constructor (settings: Settings, rows: seq<StoredRuntime>, unit: nat -> Unit, now: int)
      ensures Valid()
      ensures Provenance() == ListedProvenance(settings, {})
      ensures Probe() == ProbeState(0, false, now - PROBE_INTERVAL_SECS)
      ensures HasPositive(endpoints, runtime) || Selectable(endpoints, runtime) == {}
      ensures forall i: nat :: IsLastRow(rows, i) ==>
                && rows[i].proxyKey in runtime && SameHealth(Restore(rows[i]), runtime[rows[i].proxyKey])
                && runtime[rows[i].proxyKey].weight >= Restore(rows[i]).weight
    {
      hide IsLastRow, ValidRuntime, IsRebuilt, IsRefreshed, ListedProvenance, HasPositive, Selectable, ValidEndpoints,
        ProvenanceOf;
      var rt := CollectRows(rows);
      this.settings, this.unit := settings, unit;
      this.endpoints, this.runtime := [], rt;
      this.selectionCounter, this.requestsSinceProbe := 0, 0;
      this.probeInFlight, this.lastProbeAt := false, now - PROBE_INTERVAL_SECS;
      this.lastSubscriptionRefreshAt := None;
      new;
      NoEndpointsAreValid();
      this.RebuildEndpoints([]);
      RebuiltFromNothing(endpoints, this.settings);
      RefreshIsValid(endpoints, [], rt, runtime);
    }

    method RebuildEndpoints(subscriptionEndpoints: seq<Endpoint>)
      requires Valid() && AreListings(subscriptionEndpoints) && NoneManual(subscriptionEndpoints)
      modifies this`endpoints, this`runtime
      ensures Valid()
      ensures IsRebuilt(endpoints, settings, subscriptionEndpoints)
      ensures IsRefreshed(endpoints, old(runtime), runtime)
    {
      hide IsRebuilt, ValidRuntime, ValidEndpoints, IsSynced, IsRepaired, IsRefreshed, AreListings, NoneManual,
        HasPositive, Selectable;
      ghost var before, rt := endpoints, runtime;
      endpoints := RebuildList(settings, subscriptionEndpoints);
      RebuiltIsValid(endpoints, settings, subscriptionEndpoints);
      var synced := SyncEntries(endpoints, runtime);
      runtime := EnsureNonZeroWeight(endpoints, synced);
      SyncedAndRepaired(endpoints, rt, synced, runtime);
      RefreshIsValid(endpoints, before, rt, runtime);
    }

    method ApplySettings(settings: Settings)
      requires Valid()
      modifies this`settings, this`endpoints, this`runtime
      ensures Valid() && this.settings == settings
      ensures IsRebuilt(endpoints, settings, []) && Provenance() == ListedProvenance(settings, {})
      ensures IsRefreshed(endpoints, old(runtime), runtime)
    {
      hide ValidRuntime, IsRebuilt, IsRefreshed, ListedProvenance, ValidEndpoints, ProvenanceOf;
      this.settings := settings;
      RebuildEndpoints([]);
      RebuiltFromNothing(endpoints, this.settings);
    }

    method UpdateSettingsOnly(settings: Settings)
      requires Valid()
      modifies this`settings
      ensures Valid() && this.settings == settings
    {
      this.settings := settings;
    }

    method ApplySubscriptionRefresh(lists: map<string, seq<Line>>, now: int)
      requires Valid()
      modifies this`endpoints, this`runtime, this`lastSubscriptionRefreshAt
      ensures Valid() && lastSubscriptionRefreshAt == Some(now)
      ensures exists subs :: AreFetched(subs, lists) && IsRebuilt(endpoints, settings, subs)
      ensures Provenance() == ListedProvenance(settings, LinksOfLists(lists))
      ensures IsRefreshed(endpoints, old(runtime), runtime)
    {
      hide ValidRuntime, IsRebuilt, IsRefreshed, ListedProvenance, ValidEndpoints, ProvenanceOf, AreFetched,
        AreListings, NoneManual;
      var subs := CollectListings(lists);
      FetchedAreListings(subs, lists);
      RebuildEndpoints(subs);
      RebuiltFromLists(endpoints, settings, subs, lists);
      lastSubscriptionRefreshAt := Some(now);
    }

    method ApplyIncrementalSettings(settings: Settings, fetched: map<string, seq<Line>>, now: int)
      returns (added: seq<Endpoint>)
      requires Valid()
      modifies this`settings, this`endpoints, this`runtime, this`lastSubscriptionRefreshAt
      ensures Valid() && this.settings == settings
      ensures old(Valid()) && IsUpdated(old(endpoints), settings, fetched, endpoints)
      ensures IsRefreshed(endpoints, old(runtime), runtime)
      ensures added == NewEndpoints(endpoints, Keys(old(endpoints)))
      ensures lastSubscriptionRefreshAt == if fetched != map[] then Some(now) else old(lastSubscriptionRefreshAt)
    {
      hide IsUpdated, ValidRuntime, ValidEndpoints, IsSynced, IsRepaired, IsRefreshed, NewEndpoints, Keys, HasPositive,
        Selectable;
      ghost var before, rt := endpoints, runtime;
      var previousKeys := Keys(endpoints);
      this.settings := settings;
      var merged := UpdateList(endpoints, settings, fetched);
      UpdatedIsValid(endpoints, settings, fetched, merged);
      if fetched != map[] {
        lastSubscriptionRefreshAt := Some(now);
      }
      endpoints := merged;
      var synced := SyncEntries(endpoints, runtime);
      runtime := EnsureNonZeroWeight(endpoints, synced);
      SyncedAndRepaired(endpoints, rt, synced, runtime);
      RefreshIsValid(endpoints, before, rt, runtime);
      added := NewEndpoints(endpoints, previousKeys);
    }

    /** The relays' turn: endpoints get whatever routes could be set up, and the entries follow, without a repair. */
    method ResolveRoutes(route: string -> Option<string>, relayed: string -> bool)
      requires Valid()
      modifies this`endpoints, this`runtime
      ensures Valid() && IsResolved(old(endpoints), endpoints)
      ensures forall i :: 0 <= i < |endpoints| && !endpoints[i].IsDirect() ==>
                endpoints[i].endpointUrl == route(endpoints[i].key) &&
                  endpoints[i].usesLocalRelay == relayed(endpoints[i].key)
      ensures IsShown(endpoints, old(runtime), runtime) && KeepsWeights(old(runtime), runtime)
      ensures forall e :: e in endpoints ==> ShowsRoute(e, runtime)
    {
      hide ValidRuntime, ValidEndpoints, IsShown, KeepsWeights;
      ghost var before, rt := endpoints, runtime;
      endpoints := Resolved(endpoints, route, relayed);
      ResolvedKeepsProvenance(before, endpoints);
      NothingShown(endpoints, rt);
      for n := 0 to |endpoints|
        modifies this`runtime
        invariant IsShown(endpoints[..n], rt, runtime)
      {
        var e := endpoints[n];
        ShowOneMore(before, endpoints, n, rt, runtime);
        runtime := runtime[e.key := runtime[e.key].(
          source := e.source, kind := e.protocol.Name(), endpointUrl := RouteText(e), available := e.IsSelectable(),
          lastError := Unavailability(e))];
      }
      assert endpoints[..|endpoints|] == endpoints;
      ShownIsValid(before, endpoints, rt, runtime);
      ShownIsAvailable(endpoints, rt, runtime);
    }

    method NoteRequest()
      requires Valid()
      modifies this`requestsSinceProbe
      ensures Valid() && Probe() == Next(old(Probe()), Noted)
    {
      if requestsSinceProbe < U64_MAX {
        requestsSinceProbe := requestsSinceProbe + 1;
      }
    }

    /** Selects the endpoint whose interval holds the point drawn for this call. If any endpoint is selectable, the
        one selected is selectable and of positive weight; else it is the first one, or the direct route. */
    method SelectProxy() returns (selected: Endpoint)
      requires Valid()
      modifies this`selectionCounter, this`requestsSinceProbe, this`runtime
      ensures Valid()
      ensures selectionCounter == (old(selectionCounter) + 1) % (U64_MAX + 1)
      ensures Probe() == Next(old(Probe()), Noted)
      ensures IsRepaired(endpoints, old(runtime), runtime)
      ensures var cs := Candidates(endpoints, runtime);
              if HasSelectable(endpoints) then exists i: nat ::
                  Owns(cs, runtime, unit(selectionCounter), i) && selected == cs[i]
              else selected == if endpoints != [] then endpoints[0] else DirectEndpoint()
      ensures HasSelectable(endpoints) ==> selected in endpoints && IsCandidate(selected, runtime)
      ensures (exists e :: e in endpoints && (e.protocol.Direct? || e.endpointUrl.Some?)) ==>
                && selected in endpoints && (selected.protocol.Direct? || selected.endpointUrl.Some?)
                && selected.key in runtime && runtime[selected.key].weight > 0.0
    {
      hide ValidRuntime, IsRepaired, Owns, HasPositive, Selectable, SelectableKeys, HasSelectable, ValidEndpoints;
      selectionCounter := (selectionCounter + 1) % (U64_MAX + 1);
      NoteRequest();
      ghost var rt := runtime;
      runtime := EnsureNonZeroWeight(endpoints, runtime);
      RepairRestores(endpoints, rt, runtime);
      SomeCandidate(endpoints, runtime);
      RouteIsSelectable(endpoints);
      var picked := PickByWeight(endpoints, runtime, unit(selectionCounter));
      if picked.None? {
        return Fallback(endpoints);
      }
      OwnerIsCandidate(Candidates(endpoints, runtime), runtime, unit(selectionCounter), picked.value);
      selected := picked.value;
    }

    method RecordAttempt(proxyKey: string, success: bool, latencyMs: Option<real>, failureKind: Option<string>)
      requires Valid()
      modifies this`runtime
      ensures Valid() && IsAttempt(endpoints, old(runtime), proxyKey, success, latencyMs, failureKind, runtime)
    {
      if proxyKey !in Keys(endpoints) || proxyKey !in runtime {
        return;
      }
      ghost var rt := runtime;
      var entry := RecordOutcome(runtime[proxyKey], success, latencyMs, failureKind);
      runtime := EnsureNonZeroWeight(endpoints, runtime[proxyKey := entry]);
      AttemptKeepsRuntimeValid(endpoints, rt, proxyKey, success, latencyMs, failureKind, runtime);
    }

    function ShouldProbePenalizedProxy(now: int): bool
      reads this
    {
      Starts(Probe(), MayStart(now, Penalized(endpoints, runtime) != {}))
    }

    method MarkProbeStarted(now: int) returns (selected: Option<Endpoint>)
      requires Valid()
      modifies this`requestsSinceProbe, this`probeInFlight, this`lastProbeAt
      ensures Valid()
      ensures Probe() == Next(old(Probe()), MayStart(now, Penalized(endpoints, runtime) != {}))
      ensures selected.Some? <==> old(ShouldProbePenalizedProxy(now))
      ensures selected.Some? ==> IsProbeChoice(endpoints, runtime, selected.value)
    {
      hide ValidRuntime, ValidEndpoints, Penalized, IsHeaviest, IsProbeChoice, FirstWhere;
      if !ShouldProbePenalizedProxy(now) {
        return None;
      }
      var key := HeaviestPenalized(endpoints, runtime);
      selected := FirstWhere(endpoints, (e: Endpoint) => e.key == key);
      ProbeChoiceFound(endpoints, runtime, key, selected);
      probeInFlight := true;
      requestsSinceProbe := 0;
      lastProbeAt := now;
    }

    method MarkProbeFinished(now: int)
      requires Valid()
      modifies this`probeInFlight, this`lastProbeAt
      ensures Valid() && Probe() == Next(old(Probe()), Finished(now))
    {
      probeInFlight := false;
      lastProbeAt := now;
    }

    function RankCandidatesForSubject(jitter: string -> Unit, exclude: set<string>, allowDirect: bool,
                                      limit: nat): (ranked: seq<Endpoint>)
      requires Valid()
      reads this
      ensures IsRanking(ranked, endpoints, runtime, jitter, exclude, allowDirect, limit)
    {
      RankingIsRanking(endpoints, runtime, jitter, exclude, allowDirect, limit);
      RankCandidates(endpoints, runtime, jitter, exclude, allowDirect, limit)
    }
  }

  function Resolved(eps: seq<Endpoint>, route: string -> Option<string>, relayed: string -> bool): (r: seq<Endpoint>)
    ensures IsResolved(eps, r)
    ensures forall i :: 0 <= i < |r| && !r[i].IsDirect() ==>
            r[i].endpointUrl == route(r[i].key) && r[i].usesLocalRelay == relayed(r[i].key)
  {
    seq(|eps|, i requires 0 <= i < |eps| =>
      if eps[i].IsDirect() then eps[i] else eps[i].(endpointUrl := route(eps[i].key),
                                                    usesLocalRelay := relayed(eps[i].key)))
  }

  /** The entry of an endpoint whose route has been resolved anew; its weight and measured health stay. */
  function Shown(e: Endpoint, r: Runtime): Runtime {
    r.(source := e.source, kind := e.protocol.Name(), endpointUrl := RouteText(e), available := e.IsSelectable(),
       lastError := Unavailability(e))
  }

  /** Every endpoint's entry shows its route, and the entries of other keys are kept. */
  predicate IsShown(eps: seq<Endpoint>, rt: RuntimeMap, after: RuntimeMap) {
    && after.Keys == rt.Keys
    && (forall i :: 0 <= i < |eps| ==> eps[i].key in rt && after[eps[i].key] == Shown(eps[i], rt[eps[i].key]))
    && (forall k :: k in rt && k !in Keys(eps) ==> after[k] == rt[k])
  }

  /** The endpoint is shown as available exactly if it is direct or has a resolved URL. */
  predicate ShowsRoute(e: Endpoint, rt: RuntimeMap) {
    e.key in rt && (rt[e.key].available <==> e.protocol.Direct? || e.endpointUrl.Some?)
  }

  lemma ShownIsAvailable(eps: seq<Endpoint>, rt: RuntimeMap, after: RuntimeMap)
    requires IsShown(eps, rt, after)
    ensures forall e :: e in eps ==> ShowsRoute(e, after)
  {
  }

  lemma NothingShown(eps: seq<Endpoint>, rt: RuntimeMap)
    ensures IsShown(eps[..0], rt, rt)
  {
  }

  lemma ShowOneMore(before: seq<Endpoint>, eps: seq<Endpoint>, n: nat, rt: RuntimeMap, now: RuntimeMap)
    requires n < |eps| && ValidEndpoints(eps) && ValidRuntime(before, rt) && Keys(eps) == Keys(before) &&
             IsShown(eps[..n], rt, now)
    ensures eps[n].key in now
    ensures IsShown(eps[..n + 1], rt, now[eps[n].key := Shown(eps[n], now[eps[n].key])])
  {
    hide IsTidy, ByKey, Shown;
    var e, prefix := eps[n], eps[..n];
    PrefixStep(eps, n);
    AppendedKeys(prefix, e);
    assert e.key in Keys(eps);
    assert forall i :: 0 <= i < n ==> eps[..n + 1][i] == prefix[i] && prefix[i].key in Keys(prefix);
  }

  lemma ShownIsValid(before: seq<Endpoint>, eps: seq<Endpoint>, rt: RuntimeMap, after: RuntimeMap)
    requires ValidRuntime(before, rt) && Keys(eps) == Keys(before) && IsShown(eps, rt, after)
    ensures ValidRuntime(eps, after) && KeepsWeights(rt, after)
  {
    forall k | k in after ensures after[k].proxyKey == k && after[k].Valid() && after[k].weight == rt[k].weight &&
      SameHealth(rt[k], after[k]) {
      if k in Keys(eps) {
        var i :| 0 <= i < |eps| && eps[i].key == k;
      }
    }
  }

  /** A run that leaves a stale listing: a subscription lists a key; a save drops the subscription and fails before
      it updates the list; the next save adds the subscription again and fetches it, and it lists nothing any more.
      The listing is still there, where replacing the old listings by the fetched ones would leave none. */
  method StaleListingStays(source: string, line: Entry, unit: nat -> Unit, now: int)
    returns (manager: ForwardProxyManager)
    ensures fresh(manager) && manager.Valid()
    ensures var settings, fetched, listed := Settings([], [source], false), map[source := []],
            {Link(source, line.normalized)};
            && manager.settings == settings
            && manager.Provenance() == Provenance({}, listed, false)
            && ListedProvenance(settings, ReplacedLinks(listed, DesiredSources(settings), fetched)) ==
              Provenance({}, {}, false)
  {
    hide IsUpdatedRoute, ValidRuntime, IsRefreshed, ValidEndpoints, IsRebuilt, HasPositive, Selectable;
    var with, without := Settings([], [source], false), Settings([], [], false);
    ghost var listed := {Link(source, line.normalized)};
    manager := new ForwardProxyManager(with, [], unit, now);
    manager.ApplySubscriptionRefresh(map[source := [Some(line)]], now);
    OneLineLinks(source, line);
    assert manager.Provenance().links == listed;
    manager.UpdateSettingsOnly(without);
    manager.UpdateSettingsOnly(with);
    ghost var was := manager.endpoints;
    var added := manager.ApplyIncrementalSettings(with, map[source := []], now);
    ListingIsRetained(was, source, line, manager.endpoints);
  }

  lemma ListingIsRetained(was: seq<Endpoint>, source: string, line: Entry, eps: seq<Endpoint>)
    requires ValidEndpoints(was) && Links(ByKey(was)) == {Link(source, line.normalized)}
    requires IsUpdated(was, Settings([], [source], false), map[source := []], eps)
    ensures var settings, fetched, listed := Settings([], [source], false), map[source := []],
            {Link(source, line.normalized)};
            && ProvenanceOf(ByKey(eps)) == Provenance({}, listed, false)
            && ListedProvenance(settings, ReplacedLinks(listed, DesiredSources(settings), fetched)) ==
              Provenance({}, {}, false)
  {
    hide ByKey, Tidy, IsUpdatedRoute;
    var settings, listed := Settings([], [source], false), {Link(source, line.normalized)};
    OneLineLinks(source, line);
    assert LineKeys([]) == {} && source in DesiredSources(settings);
    assert LinksFrom(listed, DesiredSources(settings)) == listed &&
      LinksFrom(listed, DesiredSources(settings) - {source}) == {};
    hide LinksFrom, LinksOfLists, LineKeys, DesiredSources;
  }

  lemma OneLineLinks(source: string, line: Entry)
    ensures LinksOfLists(map[source := [Some(line)]]) == {Link(source, line.normalized)}
    ensures LinksOfLists(map[source := []]) == {}
  {
    var lines: seq<Line> := [Some(line)];
    assert lines[0].Some? && LineKeys(lines) == {line.normalized};
    assert LinksOfLists(map[source := lines]) == {Link(source, line.normalized)};
  }

  lemma NoEndpointsAreValid()
    ensures ValidEndpoints([])
  {
  }

  lemma RebuiltFromNothing(eps: seq<Endpoint>, settings: Settings)
    requires IsRebuilt(eps, settings, [])
    ensures ValidEndpoints(eps) && ProvenanceOf(ByKey(eps)) == ListedProvenance(settings, {})
  {
    assert ListedLinks([]) == {};
  }

  lemma RebuiltFromLists(eps: seq<Endpoint>, settings: Settings, subs: seq<Endpoint>, lists: map<string, seq<Line>>)
    requires IsRebuilt(eps, settings, subs) && AreFetched(subs, lists)
    ensures ValidEndpoints(eps) && ProvenanceOf(ByKey(eps)) == ListedProvenance(settings, LinksOfLists(lists))
  {
  }

  lemma RebuiltIsValid(eps: seq<Endpoint>, settings: Settings, subs: seq<Endpoint>)
    requires IsRebuilt(eps, settings, subs)
    ensures ValidEndpoints(eps)
  {
  }

  lemma UpdatedIsValid(was: seq<Endpoint>, settings: Settings, fetched: map<string, seq<Line>>, eps: seq<Endpoint>)
    requires ValidEndpoints(was) && IsUpdated(was, settings, fetched, eps)
    ensures ValidEndpoints(eps)
  {
  }

  lemma FetchedAreListings(subs: seq<Endpoint>, lists: map<string, seq<Line>>)
    requires AreFetched(subs, lists)
    ensures AreListings(subs) && NoneManual(subs)
  {
    forall i | 0 <= i < |subs| ensures Tidy(subs[i]) && !subs[i].IsDirect() && !subs[i].usesLocalRelay &&
      !subs[i].manualPresent {
      assert IsFetched(subs[i], lists);
      var s :| s in lists && IsMadeOf(subs[i], lists[s], Some(s));
      var j: nat :| IsFirst(lists[s], j) && subs[i] == MakeEndpoint(lists[s][j].value, Some(s));
    }
  }

  lemma OwnerIsCandidate(cs: seq<Endpoint>, rt: RuntimeMap, u: Unit, e: Endpoint)
    requires exists i: nat :: Owns(cs, rt, u, i) && e == cs[i]
    ensures e in cs
  {
  }

  lemma ProbeChoiceFound(eps: seq<Endpoint>, rt: RuntimeMap, key: string, found: Option<Endpoint>)
    requires ValidEndpoints(eps) && IsHeaviest(rt, Penalized(eps, rt), key)
    requires found == FirstWhere(eps, (e: Endpoint) => e.key == key)
    ensures found.Some? && IsProbeChoice(eps, rt, found.value)
  {
    hide IsTidy, ByKey;
    var i :| 0 <= i < |eps| && eps[i].IsSelectable() && eps[i].key == key;
    assert eps[i] in eps;
    var j :| 0 <= j < |eps| && eps[j] == found.value;
    assert i == j;
  }
}
