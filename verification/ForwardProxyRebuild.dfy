/** A full rebuild of the endpoint list: manual endpoints first, then the subscriptions', duplicates merged. */
module ForwardProxyRebuild {
  import opened Wrappers
  import opened Sorting
  import opened ForwardProxyTypes
  import opened ForwardProxyProvenance

  // ---- Merging listings -------------------------------------------------------------------------

  /** The endpoints listed so far, each later listing of a key absorbed by the first. */
  function Merged(inputs: seq<Endpoint>): Directory {
    if inputs == [] then map[]
    else
      var d, e := Merged(inputs[..|inputs| - 1]), inputs[|inputs| - 1];
      d[e.key := if e.key in d then d[e.key].AbsorbDuplicate(e) else e]
  }

  predicate ArePositions(positions: map<string, nat>, eps: seq<Endpoint>) {
    && positions.Keys == Keys(eps)
    && forall k :: k in positions ==> positions[k] < |eps| && eps[positions[k]].key == k
  }

  method MergeListings(inputs: seq<Endpoint>) returns (merged: seq<Endpoint>)
    ensures DistinctKeys(merged) && ByKey(merged) == Merged(inputs)
  {
    hide ByKey, Merged, ArePositions, DistinctKeys;
    NothingMerged(inputs);
    merged := [];
    var positions: map<string, nat> := map[];
    for n := 0 to |inputs|
      invariant DistinctKeys(merged) && ByKey(merged) == Merged(inputs[..n]) && ArePositions(positions, merged)
    {
      var e := inputs[n];
      MergeStep(inputs, n, merged, positions);
      if e.key in positions {
        var index := positions[e.key];
        merged := merged[index := merged[index].AbsorbDuplicate(e)];
      } else {
        positions := positions[e.key := |merged|];
        merged := merged + [e];
      }
    }
    assert inputs[..|inputs|] == inputs;
  }

  lemma NothingMerged(inputs: seq<Endpoint>)
    ensures DistinctKeys([]) && ByKey([]) == Merged(inputs[..0]) && ArePositions(map[], [])
  {
  }

  lemma MergeStep(inputs: seq<Endpoint>, n: nat, merged: seq<Endpoint>, positions: map<string, nat>)
    requires n < |inputs| && DistinctKeys(merged) && ByKey(merged) == Merged(inputs[..n]) &&
             ArePositions(positions, merged)
    ensures var e := inputs[n];
            if e.key in positions then
              var at := positions[e.key];
              && at < |merged|
              && var after := merged[at := merged[at].AbsorbDuplicate(e)];
                 DistinctKeys(after) && ByKey(after) == Merged(inputs[..n + 1]) && ArePositions(positions, after)
            else
              var after := merged + [e];
              DistinctKeys(after) && ByKey(after) == Merged(inputs[..n + 1]) &&
                ArePositions(positions[e.key := |merged|], after)
  {
    hide ByKey, DistinctKeys, ArePositions;
    var e := inputs[n];
    MergedOneMore(inputs, n);
    hide Merged;
    ByKeyLooksUp(merged);
    PositionsStep(positions, merged, e);
    if e.key in positions {
      var at := positions[e.key];
      OverwriteByKey(merged, at, merged[at].AbsorbDuplicate(e));
      assert merged[at] == ByKey(merged)[e.key];
    } else {
      AppendByKey(merged, e);
      assert e.key !in ByKey(merged);
    }
  }

  lemma MergedOneMore(inputs: seq<Endpoint>, n: nat)
    requires n < |inputs|
    ensures var d, e := Merged(inputs[..n]), inputs[n];
            Merged(inputs[..n + 1]) == d[e.key := if e.key in d then d[e.key].AbsorbDuplicate(e) else e]
  {
    var more := inputs[..n + 1];
    assert more[..n] == inputs[..n] && more[n] == inputs[n];
  }

  lemma PositionsStep(positions: map<string, nat>, eps: seq<Endpoint>, e: Endpoint)
    requires ArePositions(positions, eps)
    ensures positions.Keys == Keys(eps)
    ensures e.key in positions ==>
              var at := positions[e.key];
              at < |eps| && eps[at].key == e.key && forall x: Endpoint :: x.key == e.key ==>
                ArePositions(positions, eps[at := x])
    ensures e.key !in positions ==> ArePositions(positions[e.key := |eps|], eps + [e])
  {
    if e.key in positions {
      var at := positions[e.key];
      forall x: Endpoint | x.key == e.key ensures ArePositions(positions, eps[at := x]) {
        SameKeys(eps, eps[at := x]);
      }
    } else {
      var more := eps + [e];
      assert more[|eps|] == e && forall i :: 0 <= i < |eps| ==> more[i] == eps[i];
    }
  }

  // ---- What a merge means -----------------------------------------------------------------------

  /** Endpoints as the lists produce them. */
  predicate AreListings(inputs: seq<Endpoint>) {
    forall i :: 0 <= i < |inputs| ==> Tidy(inputs[i]) && !inputs[i].IsDirect() && !inputs[i].usesLocalRelay
  }

  function ListedManually(inputs: seq<Endpoint>): set<string> {
    set i | 0 <= i < |inputs| && inputs[i].manualPresent :: inputs[i].key
  }

  function ListedLinks(inputs: seq<Endpoint>): set<Link> {
    set i, s | 0 <= i < |inputs| && s in inputs[i].subscriptionSources :: Link(s, inputs[i].key)
  }

  /** Merging loses no listing and invents none, whatever the order of the listings. */
  lemma {:induction false} MergedProvenance(inputs: seq<Endpoint>)
    requires AreListings(inputs)
    ensures IsTidy(Merged(inputs)) && DIRECT_KEY !in Merged(inputs)
    ensures ManualKeys(Merged(inputs)) == ListedManually(inputs) && Links(Merged(inputs)) == ListedLinks(inputs)
  {
    hide Tidy;
    if inputs != [] {
      var n := |inputs| - 1;
      var d, e := Merged(inputs[..n]), inputs[n];
      MergedProvenance(inputs[..n]);
      ListedOneMore(inputs);
      if e.key in d {
        AbsorbedIsTidy(d[e.key], e);
        Put(d, d[e.key].AbsorbDuplicate(e));
        LinksSplit(d[e.key].subscriptionSources, e.subscriptionSources, e.key);
        LinksWithin(d, e.key);
      } else {
        Put(d, e);
      }
      DirectOnly(e);
    }
  }

  lemma DirectOnly(e: Endpoint)
    requires Tidy(e)
    ensures e.IsDirect() <==> e.key == DIRECT_KEY
  {
  }

  lemma AbsorbedIsTidy(e: Endpoint, other: Endpoint)
    requires Tidy(e) && Tidy(other) && e.key == other.key && e.key != DIRECT_KEY
    ensures Tidy(e.AbsorbDuplicate(other))
  {
  }

  lemma LinksSplit(a: set<string>, b: set<string>, key: string)
    ensures LinksTo(a + b, key) == LinksTo(a, key) + LinksTo(b, key)
  {
  }

  lemma LinksWithin(d: Directory, k: string)
    requires k in d
    ensures LinksTo(d[k].subscriptionSources, k) <= Links(d)
  {
  }

  lemma ListedOneMore(inputs: seq<Endpoint>)
    requires inputs != []
    ensures var n := |inputs| - 1;
            && ListedManually(inputs) == ListedManually(inputs[..n]) +
              (if inputs[n].manualPresent then {inputs[n].key} else {})
            && ListedLinks(inputs) == ListedLinks(inputs[..n]) + LinksTo(inputs[n].subscriptionSources, inputs[n].key)
  {
    var n := |inputs| - 1;
    var d := inputs[..n];
    assert forall i :: 0 <= i < n ==> inputs[i] == d[i];
    forall l | l in ListedLinks(inputs) ensures l in ListedLinks(d) +
      LinksTo(inputs[n].subscriptionSources, inputs[n].key) {
      var i, s :| 0 <= i < |inputs| && s in inputs[i].subscriptionSources && l == Link(s, inputs[i].key);
      if i < n { assert s in d[i].subscriptionSources; }
    }
  }

  /** How an endpoint is reached and shown. */
  datatype Route = Route(displayName: string, protocol: Protocol, endpointUrl: Option<string>, rawUrl: Option<string>,
                         relayed: bool)

  function RouteOf(e: Endpoint): Route {
    Route(e.displayName, e.protocol, e.endpointUrl, e.rawUrl, e.usesLocalRelay)
  }

  function EntryRoute(e: Entry): Route { RouteOf(ManualEndpoint(e)) }

  /** No manual listing follows a subscription's listing of the same key. */
  predicate ManualFirst(inputs: seq<Endpoint>) {
    forall i, j :: 0 <= i < j < |inputs| && inputs[i].key == inputs[j].key && inputs[j].manualPresent ==>
      inputs[i].manualPresent
  }

  predicate IsFirstListing(inputs: seq<Endpoint>, i: nat, key: string) {
    && i < |inputs| && inputs[i].key == key
    && forall j :: 0 <= j < i ==> inputs[j].key != key
  }

  /** Every key is reached as its first listing says. */
  lemma {:induction false} FirstListingRoutes(inputs: seq<Endpoint>, i: nat, key: string)
    requires AreListings(inputs) && ManualFirst(inputs) && IsFirstListing(inputs, i, key)
    ensures key in Merged(inputs) && RouteOf(Merged(inputs)[key]) == RouteOf(inputs[i])
    ensures Merged(inputs)[key].manualPresent ==> inputs[i].manualPresent
  {
    var n := |inputs| - 1;
    var before := inputs[..n];
    if i < n {
      assert before[i] == inputs[i];
      FirstListingRoutes(before, i, key);
      if inputs[n].key == key { assert inputs[n].manualPresent ==> inputs[i].manualPresent; }
      AbsorbsManual(inputs, i, key);
    } else {
      NotListed(before, key);
    }
  }

  lemma AbsorbsManual(inputs: seq<Endpoint>, i: nat, key: string)
    requires AreListings(inputs) && IsFirstListing(inputs, i, key) && i < |inputs| - 1
    ensures var d := Merged(inputs[..|inputs| - 1]); key in d && (inputs[i].manualPresent ==> d[key].manualPresent)
  {
    var before := inputs[..|inputs| - 1];
    MergedProvenance(before);
    assert before[i] == inputs[i];
    MergedHas(before, i);
    assert inputs[i].manualPresent ==> key in ListedManually(before);
  }

  lemma {:induction false} MergedHas(inputs: seq<Endpoint>, i: nat)
    requires i < |inputs|
    ensures inputs[i].key in Merged(inputs)
  {
    var n := |inputs| - 1;
    if i < n { MergedHas(inputs[..n], i); }
  }

  lemma {:induction false} NotListed(inputs: seq<Endpoint>, key: string)
    requires forall j :: 0 <= j < |inputs| ==> inputs[j].key != key
    ensures key !in Merged(inputs)
  {
    if inputs != [] { NotListed(inputs[..|inputs| - 1], key); }
  }

  // ---- The direct route -------------------------------------------------------------------------

  function WithDirect(merged: seq<Endpoint>, settings: Settings): seq<Endpoint> {
    var offered := if settings.insertDirect then merged + [DirectEndpoint()] else merged;
    if offered == [] && settings.proxyUrls == [] && settings.subscriptionUrls == [] then [DirectEndpoint()] else offered
  }

  /** The provenance that settings and subscription listings call for. */
  function ListedProvenance(settings: Settings, links: set<Link>): Provenance {
    var manual := LineKeys(settings.proxyUrls);
    var nothing := manual == {} && links == {} && settings.proxyUrls == [] && settings.subscriptionUrls == [];
    Provenance(manual, links, settings.insertDirect || nothing)
  }

  lemma WithDirectProvenance(merged: seq<Endpoint>, settings: Settings)
    requires ValidEndpoints(merged) && DIRECT_KEY !in ByKey(merged) &&
             ManualKeys(ByKey(merged)) == LineKeys(settings.proxyUrls)
    ensures var eps := WithDirect(merged, settings);
            && ValidEndpoints(eps)
            && ProvenanceOf(ByKey(eps)) == ListedProvenance(settings, Links(ByKey(merged)))
            && forall k :: k in ByKey(eps) && k != DIRECT_KEY ==>
              k in ByKey(merged) && ByKey(eps)[k] == ByKey(merged)[k]
  {
    hide ByKey, Tidy, ValidEndpoints;
    EmptyMeansUnlisted(merged);
    DirectAppended(merged);
    OnlyDirect();
    assert [] + [DirectEndpoint()] == [DirectEndpoint()];
  }

  lemma EmptyMeansUnlisted(merged: seq<Endpoint>)
    requires ValidEndpoints(merged) && DIRECT_KEY !in ByKey(merged)
    ensures merged == [] <==> ManualKeys(ByKey(merged)) == {} && Links(ByKey(merged)) == {}
  {
    hide ByKey, Tidy;
    var d := ByKey(merged);
    ByKeyLooksUp(merged);
    ProvenanceDetermines(d);
    if merged == [] {
      assert d.Keys == {};
    } else {
      assert merged[0].key in d.Keys;
    }
  }

  lemma OnlyDirect()
    ensures ValidEndpoints([]) && ByKey([]) == map[]
  {
  }

  lemma DirectAppended(merged: seq<Endpoint>)
    requires ValidEndpoints(merged) && DIRECT_KEY !in ByKey(merged)
    ensures var eps := merged + [DirectEndpoint()];
            && ValidEndpoints(eps)
            && ManualKeys(ByKey(eps)) == ManualKeys(ByKey(merged)) && Links(ByKey(eps)) == Links(ByKey(merged))
            && ByKey(eps) == ByKey(merged)[DIRECT_KEY := DirectEndpoint()]
  {
    var e := DirectEndpoint();
    ByKeyLooksUp(merged);
    AppendByKey(merged, e);
    Put(ByKey(merged), e);
  }

  // ---- The rebuild ------------------------------------------------------------------------------

  /** What the fetched subscriptions list. */
  function LinksOfLists(lists: map<string, seq<Line>>): set<Link> {
    set s, k | s in lists && k in LineKeys(lists[s]) :: Link(s, k)
  }

  ghost predicate IsFetched(e: Endpoint, lists: map<string, seq<Line>>) {
    exists s :: s in lists && IsMadeOf(e, lists[s], Some(s))
  }

  /** Endpoints that are the listings of the given subscriptions. */
  ghost predicate AreFetched(eps: seq<Endpoint>, lists: map<string, seq<Line>>) {
    && (forall i :: 0 <= i < |eps| ==> IsFetched(eps[i], lists))
    && ListedLinks(eps) == LinksOfLists(lists)
  }

  method CollectListings(lists: map<string, seq<Line>>) returns (eps: seq<Endpoint>)
    ensures AreFetched(eps, lists)
  {
    hide AreFetched;
    var order := InAnyOrder(lists.Keys);
    eps := [];
    ghost var done: map<string, seq<Line>> := map[];
    NothingFetched();
    for n := 0 to |order|
      invariant done == lists - (set i | n <= i < |order| :: order[i])
      invariant AreFetched(eps, done)
    {
      var source := order[n];
      var more := NormalizeEndpoints(lists[source], Some(source));
      OrderStep(lists, order, n);
      FetchedOneMore(eps, done, source, lists[source], more);
      eps, done := eps + more, done[source := lists[source]];
    }
    assert done == lists;
  }

  lemma NothingFetched()
    ensures AreFetched([], map[])
  {
  }

  lemma OrderStep<T>(m: map<string, T>, order: seq<string>, n: nat)
    requires n < |order| && Distinct(order) && forall x :: x in order <==> x in m
    ensures var left, left' := (set i | n <= i < |order| :: order[i]), (set i | n + 1 <= i < |order| :: order[i]);
            order[n] in m && order[n] !in m - left && m - left' == (m - left)[order[n] := m[order[n]]]
  {
    assert order[n] in order;
    forall k | k in m && k !in (set i | n + 1 <= i < |order| :: order[i]) && k != order[n]
      ensures k !in (set i | n <= i < |order| :: order[i])
    {
    }
  }

  lemma FetchedOneMore(eps: seq<Endpoint>, done: map<string, seq<Line>>, source: string, lines: seq<Line>,
                       more: seq<Endpoint>)
    requires AreFetched(eps, done) && source !in done && AreEndpointsOf(more, lines, Some(source))
    ensures AreFetched(eps + more, done[source := lines])
  {
    var all, lists := eps + more, done[source := lines];
    ListingLinks(more, lines, source);
    ListedConcat(eps, more);
    forall i | 0 <= i < |all| ensures IsFetched(all[i], lists) {
      if i < |eps| {
        assert IsFetched(eps[i], done);
        var s :| s in done && IsMadeOf(eps[i], done[s], Some(s));
        assert s in lists && lists[s] == done[s];
      } else {
        assert IsMadeOf(more[i - |eps|], lists[source], Some(source));
      }
    }
    forall l | l in LinksOfLists(lists) ensures l in ListedLinks(all) {
      if l.source != source { assert l in LinksOfLists(done); }
    }
    forall l | l in LinksOfLists(done) ensures l in LinksOfLists(lists) {
      assert lists[l.source] == done[l.source];
    }
  }

  lemma ListedConcat(a: seq<Endpoint>, b: seq<Endpoint>)
    ensures ListedLinks(a + b) == ListedLinks(a) + ListedLinks(b)
    ensures ListedManually(a + b) == ListedManually(a) + ListedManually(b)
  {
    var c := a + b;
    forall l | l in ListedLinks(a) ensures l in ListedLinks(c) {
      var i, s :| 0 <= i < |a| && s in a[i].subscriptionSources && l == Link(s, a[i].key);
      assert s in c[i].subscriptionSources;
    }
    forall l | l in ListedLinks(b) ensures l in ListedLinks(c) {
      var i, s :| 0 <= i < |b| && s in b[i].subscriptionSources && l == Link(s, b[i].key);
      assert s in c[|a| + i].subscriptionSources;
    }
    forall k | k in ListedManually(b) ensures k in ListedManually(c) {
      var i :| 0 <= i < |b| && b[i].manualPresent && b[i].key == k;
      assert c[|a| + i].manualPresent;
    }
    forall k | k in ListedManually(a) ensures k in ListedManually(c) {
      var i :| 0 <= i < |a| && a[i].manualPresent && a[i].key == k;
      assert c[i].manualPresent;
    }
  }

  lemma ListingLinks(eps: seq<Endpoint>, lines: seq<Line>, source: string)
    requires AreEndpointsOf(eps, lines, Some(source))
    ensures ListedLinks(eps) == (set k | k in LineKeys(lines) :: Link(source, k))
  {
    forall i | 0 <= i < |eps| ensures eps[i].subscriptionSources == {source} {
      assert IsMadeOf(eps[i], lines, Some(source));
    }
    forall k | k in LineKeys(lines) ensures Link(source, k) in ListedLinks(eps) {
      var i :| 0 <= i < |eps| && eps[i].key == k;
      assert source in eps[i].subscriptionSources;
    }
  }

  /** An entry of a list, reached as its first line says. */
  ghost predicate IsRoutedBy(e: Endpoint, lines: seq<Line>) {
    exists i: nat :: IsFirst(lines, i) && lines[i].value.normalized == e.key && RouteOf(e) == EntryRoute(lines[i].value)
  }

  /** The endpoint list that the settings and the subscriptions' listings call for: its provenance, and for each
      key the route of its manual line or else of its first listing. */
  ghost predicate IsRebuilt(eps: seq<Endpoint>, settings: Settings, subs: seq<Endpoint>) {
    && ValidEndpoints(eps)
    && ProvenanceOf(ByKey(eps)) == ListedProvenance(settings, ListedLinks(subs))
    && forall k :: k in ByKey(eps) && k != DIRECT_KEY ==>
         if k in LineKeys(settings.proxyUrls) then IsRoutedBy(ByKey(eps)[k], settings.proxyUrls)
         else exists i: nat :: IsFirstListing(subs, i, k) && RouteOf(ByKey(eps)[k]) == RouteOf(subs[i])
  }

  predicate NoneManual(eps: seq<Endpoint>) {
    forall i :: 0 <= i < |eps| ==> !eps[i].manualPresent
  }

  /** Direct is offered exactly if it is asked for, or nothing at all is configured or listed. So nothing is offered
      exactly if something is configured, but no line parses, nothing is listed and Direct is not asked for. */
  lemma DirectIsOffered(eps: seq<Endpoint>, settings: Settings, subs: seq<Endpoint>)
    requires AreListings(subs) && NoneManual(subs) && IsRebuilt(eps, settings, subs)
    ensures (exists e :: e in eps && e.protocol.Direct?) <==>
            settings.insertDirect || (settings.proxyUrls == [] && settings.subscriptionUrls == [] && subs == [])
    ensures eps == [] <==>
            && !settings.insertDirect && subs == [] && (settings.proxyUrls != [] || settings.subscriptionUrls != [])
            && forall i :: 0 <= i < |settings.proxyUrls| ==> settings.proxyUrls[i].None?
  {
    hide ByKey, IsTidy, AreListings, NoneManual, LineKeys, ListedLinks;
    OfferedAtAll(eps);
    ListedAtAll(subs);
    ParsedAtAll(settings.proxyUrls);
  }

  lemma OfferedAtAll(eps: seq<Endpoint>)
    requires ValidEndpoints(eps)
    ensures (exists e :: e in eps && e.protocol.Direct?) <==> ProvenanceOf(ByKey(eps)).direct
    ensures eps == [] <==> ProvenanceOf(ByKey(eps)) == Provenance({}, {}, false)
  {
    var d := ByKey(eps);
    ByKeyLooksUp(eps);
    ProvenanceDetermines(d);
    hide ByKey;
    if e :| e in eps && e.protocol.Direct? { assert e.key in d && Tidy(d[e.key]); }
    if DIRECT_KEY in d {
      var i :| 0 <= i < |eps| && eps[i].key == DIRECT_KEY;
      assert Tidy(d[DIRECT_KEY]) && eps[i] in eps;
    }
    if eps != [] {
      assert eps[0].key in d.Keys;
    } else {
      NothingProvided(d);
    }
  }

  lemma NothingProvided(d: Directory)
    requires d.Keys == {}
    ensures ProvenanceOf(d) == Provenance({}, {}, false)
  {
  }

  lemma ListedAtAll(subs: seq<Endpoint>)
    requires AreListings(subs) && NoneManual(subs)
    ensures ListedLinks(subs) == {} <==> subs == []
  {
    if subs != [] {
      assert Tidy(subs[0]) && !subs[0].manualPresent;
      var s :| s in subs[0].subscriptionSources;
      assert Link(s, subs[0].key) in ListedLinks(subs);
    }
  }

  lemma ParsedAtAll(lines: seq<Line>)
    ensures LineKeys(lines) == {} <==> forall i :: 0 <= i < |lines| ==> lines[i].None?
  {
    if i :| 0 <= i < |lines| && lines[i].Some? { assert lines[i].value.normalized in LineKeys(lines); }
  }

  method RebuildList(settings: Settings, subs: seq<Endpoint>) returns (eps: seq<Endpoint>)
    requires AreListings(subs) && NoneManual(subs)
    ensures IsRebuilt(eps, settings, subs)
  {
    hide IsRebuilt, Merged, WithDirect, AreListings, NoneManual, AreEndpointsOf, ByKey, DistinctKeys;
    var manual := NormalizeEndpoints(settings.proxyUrls, None);
    var merged := MergeListings(manual + subs);
    RebuildIsRebuilt(settings, manual, subs, merged);
    eps := WithDirect(merged, settings);
  }

  lemma RebuildIsRebuilt(settings: Settings, manual: seq<Endpoint>, subs: seq<Endpoint>, merged: seq<Endpoint>)
    requires AreListings(subs) && NoneManual(subs) && AreEndpointsOf(manual, settings.proxyUrls, None)
    requires DistinctKeys(merged) && ByKey(merged) == Merged(manual + subs)
    ensures IsRebuilt(WithDirect(merged, settings), settings, subs)
  {
    hide AreEndpointsOf, NoneManual, AreListings, Merged, Tidy, ByKey, WithDirect, RouteOf, DistinctKeys;
    var inputs, lines, eps := manual + subs, settings.proxyUrls, WithDirect(merged, settings);
    ManualListings(manual, lines);
    NothingManual(subs);
    ListedConcat(manual, subs);
    InputsAreListings(manual, subs);
    MergedProvenance(inputs);
    WithDirectProvenance(merged, settings);
    forall k | k in ByKey(eps) && k != DIRECT_KEY
      ensures if k in LineKeys(lines) then IsRoutedBy(ByKey(eps)[k], lines)
              else exists i: nat :: IsFirstListing(subs, i, k) && RouteOf(ByKey(eps)[k]) == RouteOf(subs[i])
    {
      RebuiltRoute(lines, manual, subs, k);
    }
  }

  lemma ManualListings(manual: seq<Endpoint>, lines: seq<Line>)
    requires AreEndpointsOf(manual, lines, None)
    ensures AreListings(manual) && ListedManually(manual) == LineKeys(lines) && ListedLinks(manual) == {}
    ensures forall i :: 0 <= i < |manual| ==> manual[i].manualPresent && IsRoutedBy(manual[i], lines)
  {
    forall i | 0 <= i < |manual| ensures manual[i].manualPresent && Tidy(manual[i]) && !manual[i].IsDirect() &&
      !manual[i].usesLocalRelay
      ensures manual[i].subscriptionSources == {} && IsRoutedBy(manual[i], lines)
    {
      assert IsMadeOf(manual[i], lines, None);
      var j: nat :| IsFirst(lines, j) && manual[i] == MakeEndpoint(lines[j].value, None);
      assert RouteOf(manual[i]) == EntryRoute(lines[j].value);
    }
    assert ListedManually(manual) == Keys(manual);
  }

  lemma NothingManual(subs: seq<Endpoint>)
    requires NoneManual(subs)
    ensures ListedManually(subs) == {}
  {
  }

  lemma InputsAreListings(manual: seq<Endpoint>, subs: seq<Endpoint>)
    requires AreListings(manual) && AreListings(subs) && NoneManual(subs)
    requires forall i :: 0 <= i < |manual| ==> manual[i].manualPresent
    ensures AreListings(manual + subs) && ManualFirst(manual + subs)
  {
    hide Tidy;
    var inputs := manual + subs;
    assert forall i :: 0 <= i < |inputs| ==> inputs[i] == if i < |manual| then manual[i] else subs[i - |manual|];
  }

  lemma RebuiltRoute(lines: seq<Line>, manual: seq<Endpoint>, subs: seq<Endpoint>, k: string)
    requires AreListings(manual + subs) && ManualFirst(manual + subs) && k in Merged(manual + subs)
    requires ListedManually(manual) == LineKeys(lines)
    requires forall i :: 0 <= i < |manual| ==> manual[i].manualPresent && IsRoutedBy(manual[i], lines)
    ensures var e := Merged(manual + subs)[k];
            if k in LineKeys(lines) then forall x: Endpoint :: x.key == k && RouteOf(x) == RouteOf(e) ==>
              IsRoutedBy(x, lines)
            else exists i: nat :: IsFirstListing(subs, i, k) && RouteOf(e) == RouteOf(subs[i])
    ensures Merged(manual + subs)[k].key == k
  {
    var inputs := manual + subs;
    MergedProvenance(inputs);
    hide AreListings, Merged, IsTidy, RouteOf, EntryRoute;
    MergedKeyIsListed(inputs, k);
    var i := FirstOf(inputs, k);
    FirstListingRoutes(inputs, i, k);
    if i < |manual| {
      assert inputs[i] == manual[i];
      assert k in ListedManually(manual);
      var j: nat :| IsFirst(lines, j) && lines[j].value.normalized == manual[i].key &&
        RouteOf(manual[i]) == EntryRoute(lines[j].value);
    } else {
      assert forall j :: 0 <= j < |manual| ==> inputs[j] == manual[j];
      assert k !in ListedManually(manual);
      assert forall j :: 0 <= j < |subs| ==> inputs[|manual| + j] == subs[j];
      assert IsFirstListing(subs, i - |manual|, k);
    }
  }

  lemma MergedKeyIsListed(inputs: seq<Endpoint>, k: string)
    requires k in Merged(inputs)
    ensures exists i :: 0 <= i < |inputs| && inputs[i].key == k
  {
    if forall i :: 0 <= i < |inputs| ==> inputs[i].key != k { NotListed(inputs, k); }
  }

  function FirstOf(inputs: seq<Endpoint>, k: string): (i: nat)
    requires exists j :: 0 <= j < |inputs| && inputs[j].key == k
    ensures IsFirstListing(inputs, i, k)
  {
    if inputs[0].key == k then 0
    else
      var j :| 0 <= j < |inputs| && inputs[j].key == k;
      assert inputs[1..][j - 1].key == k;
      var r := FirstOf(inputs[1..], k);
      assert forall m :: 1 <= m < |inputs| ==> inputs[m] == inputs[1..][m - 1];
      r + 1
  }
}
