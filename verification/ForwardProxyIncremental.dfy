/** The incremental form of a settings change: the current endpoints are relisted, manual endpoints overlaid and
    freshly fetched subscriptions merged in, so that a surviving endpoint keeps its resolved route. */
module ForwardProxyIncremental {
  import opened Wrappers
  import opened Sorting
  import opened ForwardProxyTypes
  import opened ForwardProxyProvenance
  import opened ForwardProxyRebuild

  // ---- Relisting the current endpoints ----------------------------------------------------------

  predicate Survives(e: Endpoint, manual: set<string>, desired: set<string>) {
    !e.IsDirect() && (e.key in manual || e.subscriptionSources * desired != {})
  }

  function Relisted(e: Endpoint, manual: set<string>, desired: set<string>): Endpoint {
    e.(manualPresent := e.key in manual, subscriptionSources := e.subscriptionSources * desired).RefreshSource()
  }

  function Retained(d: Directory, manual: set<string>, desired: set<string>): Directory {
    map k | k in d && Survives(d[k], manual, desired) :: Relisted(d[k], manual, desired)
  }

  method RetainListed(endpoints: seq<Endpoint>, manual: set<string>, desired: set<string>)
    returns (merged: seq<Endpoint>, seen: set<string>)
    requires DistinctKeys(endpoints)
    ensures DistinctKeys(merged) && ByKey(merged) == Retained(ByKey(endpoints), manual, desired) && seen == Keys(merged)
  {
    hide ByKey, Retained, Survives, DistinctKeys;
    merged, seen := [], {};
    NothingRetained(endpoints, manual, desired);
    for n := 0 to |endpoints|
      invariant DistinctKeys(endpoints[..n]) && DistinctKeys(merged) && seen == Keys(merged)
      invariant ByKey(merged) == Retained(ByKey(endpoints[..n]), manual, desired)
    {
      var e := endpoints[n];
      RetainStep(endpoints, n, manual, desired, merged);
      if !e.IsDirect() {
        e := e.(manualPresent := e.key in manual, subscriptionSources := e.subscriptionSources * desired);
        if e.manualPresent || e.IsSubscriptionBacked() {
          e := e.RefreshSource();
          if e.key !in seen {
            seen, merged := seen + {e.key}, merged + [e];
          }
        }
      }
    }
    assert endpoints[..|endpoints|] == endpoints;
  }

  lemma NothingRetained(endpoints: seq<Endpoint>, manual: set<string>, desired: set<string>)
    ensures DistinctKeys(endpoints[..0]) && DistinctKeys([])
    ensures ByKey([]) == Retained(ByKey(endpoints[..0]), manual, desired)
  {
    assert endpoints[..0] == [];
  }

  lemma RetainStep(endpoints: seq<Endpoint>, n: nat, manual: set<string>, desired: set<string>, merged: seq<Endpoint>)
    requires n < |endpoints| && DistinctKeys(endpoints) && DistinctKeys(endpoints[..n]) && DistinctKeys(merged)
    requires ByKey(merged) == Retained(ByKey(endpoints[..n]), manual, desired)
    ensures DistinctKeys(endpoints[..n + 1])
    ensures var e := endpoints[n];
            if Survives(e, manual, desired) then
              var more := merged + [Relisted(e, manual, desired)];
              && e.key !in Keys(merged) && DistinctKeys(more)
              && ByKey(more) == Retained(ByKey(endpoints[..n + 1]), manual, desired)
              && Keys(more) == Keys(merged) + {e.key}
            else ByKey(merged) == Retained(ByKey(endpoints[..n + 1]), manual, desired)
    ensures Survives(endpoints[n], manual, desired) <==>
            !endpoints[n].IsDirect() && (endpoints[n].key in manual || endpoints[n].subscriptionSources * desired != {})
  {
    hide ByKey, DistinctKeys, Retained, Survives;
    var before, e := endpoints[..n], endpoints[n];
    PrefixStep(endpoints, n);
    AppendByKey(before, e);
    ByKeyLooksUp(before);
    ByKeyLooksUp(merged);
    RetainOneMore(ByKey(before), e, manual, desired);
    SurvivesMeans(e, manual, desired);
    if Survives(e, manual, desired) {
      AppendByKey(merged, Relisted(e, manual, desired));
    }
  }

  lemma PrefixStep(eps: seq<Endpoint>, n: nat)
    requires n < |eps| && DistinctKeys(eps)
    ensures DistinctKeys(eps[..n]) && eps[n].key !in Keys(eps[..n]) && eps[..n + 1] == eps[..n] + [eps[n]]
  {
    assert forall i :: 0 <= i < n ==> eps[..n][i] == eps[i];
  }

  lemma RetainOneMore(d: Directory, e: Endpoint, manual: set<string>, desired: set<string>)
    requires e.key !in d
    ensures e.key !in Retained(d, manual, desired)
    ensures Retained(d[e.key := e], manual, desired) ==
            if Survives(e, manual, desired) then Retained(d, manual, desired)[e.key := Relisted(e, manual, desired)]
            else Retained(d, manual, desired)
  {
  }

  lemma SurvivesMeans(e: Endpoint, manual: set<string>, desired: set<string>)
    ensures Survives(e, manual, desired) <==>
              !e.IsDirect() && (e.key in manual || e.subscriptionSources * desired != {})
  {
  }

  // ---- Overlaying the manual endpoints ----------------------------------------------------------

  /** A manual line renames a known endpoint; its resolved route stays. */
  function Overlay(e: Endpoint, line: Endpoint): Endpoint {
    e.(manualPresent := true, displayName := line.displayName, protocol := line.protocol,
       rawUrl := line.rawUrl).RefreshSource()
  }

  /** Merges a listing into a directory: known keys are updated, the others added. */
  function Merge(d: Directory, listing: Directory, update: (Endpoint, Endpoint) -> Endpoint): Directory {
    map k | k in d.Keys + listing.Keys ::
      if k in listing then (if k in d then update(d[k], listing[k]) else listing[k]) else d[k]
  }


  function IndexOfKey(eps: seq<Endpoint>, key: string): (i: Option<nat>)
    ensures i.Some? ==> i.value < |eps| && eps[i.value].key == key
    ensures i.None? <==> key !in Keys(eps)
  {
    if eps == [] then None
    else if eps[0].key == key then Some(0)
    else
      var r := IndexOfKey(eps[1..], key);
      TailKeys(eps);
      if r.Some? then Some(r.value + 1) else None
  }

  lemma TailKeys(eps: seq<Endpoint>)
    requires eps != []
    ensures Keys(eps) == {eps[0].key} + Keys(eps[1..])
  {
    forall k | k in Keys(eps[1..]) ensures k in Keys(eps) {
      var i :| 0 <= i < |eps[1..]| && eps[1..][i].key == k;
      assert eps[i + 1].key == k;
    }
    forall k | k in Keys(eps) && k != eps[0].key ensures k in Keys(eps[1..]) {
      var i :| 0 <= i < |eps| && eps[i].key == k;
      assert eps[1..][i - 1].key == k;
    }
  }

  /** Writing `update(known, e)` over a known endpoint, or adding `e`, is one more key merged. */
  lemma MergeOneMore(d: Directory, listing: Directory, e: Endpoint, update: (Endpoint, Endpoint) -> Endpoint)
    requires e.key !in listing
    ensures e.key in Merge(d, listing, update) <==> e.key in d
    ensures e.key in d ==> Merge(d, listing, update)[e.key] == d[e.key]
    ensures Merge(d, listing[e.key := e], update) ==
            Merge(d, listing, update)[e.key := if e.key in d then update(d[e.key], e) else e]
  {
  }

  /** One step of both merging loops. */
  lemma UpsertStep(merged: seq<Endpoint>, d: Directory, listing: Directory, e: Endpoint,
                   update: (Endpoint, Endpoint) -> Endpoint)
    requires DistinctKeys(merged) && ByKey(merged) == Merge(d, listing, update) && e.key !in listing
    requires forall x, y :: update(x, y).key == x.key
    ensures var at := IndexOfKey(merged, e.key);
            if at.Some? then
              var more := merged[at.value := update(merged[at.value], e)];
              && DistinctKeys(more) && ByKey(more) == Merge(d, listing[e.key := e], update)
              && Keys(more) == Keys(merged)
            else
              var more := merged + [e];
              && DistinctKeys(more) && ByKey(more) == Merge(d, listing[e.key := e], update)
              && e.key !in Keys(merged) && Keys(more) == Keys(merged) + {e.key}
  {
    hide ByKey, Merge, DistinctKeys;
    var at := IndexOfKey(merged, e.key);
    ByKeyLooksUp(merged);
    MergeOneMore(d, listing, e, update);
    if at.Some? {
      OverwriteByKey(merged, at.value, update(merged[at.value], e));
      assert merged[at.value] == ByKey(merged)[e.key];
    } else {
      AppendByKey(merged, e);
    }
  }

  method MergeManual(before: seq<Endpoint>, seenBefore: set<string>, manual: Directory)
    returns (merged: seq<Endpoint>, seen: set<string>)
    requires DistinctKeys(before) && seenBefore == Keys(before)
    requires forall k :: k in manual ==> manual[k].key == k
    ensures DistinctKeys(merged) && seen == Keys(merged)
    ensures ByKey(merged) == Merge(ByKey(before), manual, Overlay)
  {
    hide ByKey, Merge, DistinctKeys, IndexOfKey, Keys;
    var order := InAnyOrder(manual.Keys);
    merged, seen := before, seenBefore;
    ghost var done: Directory := map[];
    MergeNothing(ByKey(before), Overlay);
    for n := 0 to |order|
      invariant done == manual - (set i | n <= i < |order| :: order[i])
      invariant DistinctKeys(merged) && seen == Keys(merged)
      invariant ByKey(merged) == Merge(ByKey(before), done, Overlay)
    {
      var key := order[n];
      OrderStep(manual, order, n);
      UpsertStep(merged, ByKey(before), done, manual[key], Overlay);
      var existing := IndexOfKey(merged, key);
      if existing.Some? {
        merged := merged[existing.value := Overlay(merged[existing.value], manual[key])];
      } else if key !in seen {
        seen, merged := seen + {key}, merged + [manual[key]];
      }
      done := done[key := manual[key]];
    }
    assert done == manual;
  }

  lemma MergeNothing(d: Directory, update: (Endpoint, Endpoint) -> Endpoint)
    ensures Merge(d, map[], update) == d
  {
  }

  // ---- Merging freshly fetched subscriptions ----------------------------------------------------

  function AddSources(e: Endpoint, sources: set<string>): Endpoint {
    e.(subscriptionSources := e.subscriptionSources + sources).RefreshSource()
  }

  function AddListing(e: Endpoint, line: Endpoint): Endpoint { AddSources(e, line.subscriptionSources) }

  method MergeListing(before: seq<Endpoint>, seenBefore: set<string>, listing: seq<Endpoint>)
    returns (merged: seq<Endpoint>, seen: set<string>)
    requires DistinctKeys(before) && seenBefore == Keys(before) && DistinctKeys(listing)
    ensures DistinctKeys(merged) && seen == Keys(merged)
    ensures ByKey(merged) == Merge(ByKey(before), ByKey(listing), AddListing)
  {
    hide ByKey, Merge, DistinctKeys, IndexOfKey;
    merged, seen := before, seenBefore;
    MergeNothing(ByKey(before), AddListing);
    NoKeys(listing);
    for n := 0 to |listing|
      invariant DistinctKeys(listing[..n]) && DistinctKeys(merged) && seen == Keys(merged)
      invariant ByKey(merged) == Merge(ByKey(before), ByKey(listing[..n]), AddListing)
    {
      var e := listing[n];
      PrefixStep(listing, n);
      ByKeyLooksUp(listing[..n]);
      AppendByKey(listing[..n], e);
      UpsertStep(merged, ByKey(before), ByKey(listing[..n]), e, AddListing);
      var existing := IndexOfKey(merged, e.key);
      if existing.Some? {
        merged := merged[existing.value := AddListing(merged[existing.value], e)];
      } else if e.key !in seen {
        seen, merged := seen + {e.key}, merged + [e];
      }
    }
    assert listing[..|listing|] == listing;
  }

  lemma NoKeys(eps: seq<Endpoint>)
    ensures DistinctKeys(eps[..0]) && ByKey(eps[..0]) == map[]
  {
  }

  /** An endpoint freshly made of a fetched list, known to all its sources. */
  ghost predicate IsNewlyFetched(e: Endpoint, lists: map<string, seq<Line>>) {
    exists s, x: Endpoint :: s in lists && IsMadeOf(x, lists[s], Some(s)) &&
      e == AddSources(x, SourcesOf(LinksOfLists(lists), x.key))
  }

  /** `after` is `before` with every fetched listing merged in, in whatever order. */
  ghost predicate IsFetchedInto(before: Directory, after: Directory, lists: map<string, seq<Line>>) {
    && after.Keys == before.Keys + LinkedKeys(LinksOfLists(lists))
    && (forall k :: k in before ==> after[k] == AddSources(before[k], SourcesOf(LinksOfLists(lists), k)))
    && (forall k :: k in after && k !in before ==> after[k].key == k && IsNewlyFetched(after[k], lists))
  }

  method MergeFetched(before: seq<Endpoint>, seenBefore: set<string>, fetched: map<string, seq<Line>>)
    returns (merged: seq<Endpoint>)
    requires ValidEndpoints(before) && seenBefore == Keys(before)
    ensures DistinctKeys(merged) && IsFetchedInto(ByKey(before), ByKey(merged), fetched)
  {
    hide ByKey, DistinctKeys, IsFetchedInto, AreEndpointsOf, Merge;
    var order := InAnyOrder(fetched.Keys);
    merged := before;
    var seen := seenBefore;
    ghost var done: map<string, seq<Line>> := map[];
    FetchNothing(ByKey(before));
    for n := 0 to |order|
      invariant done == fetched - (set i | n <= i < |order| :: order[i])
      invariant DistinctKeys(merged) && seen == Keys(merged)
      invariant IsFetchedInto(ByKey(before), ByKey(merged), done)
    {
      var source := order[n];
      OrderStep(fetched, order, n);
      var listing := NormalizeEndpoints(fetched[source], Some(source));
      EndpointsAreDistinct(listing, fetched[source], Some(source));
      ghost var was := ByKey(merged);
      merged, seen := MergeListing(merged, seen, listing);
      FetchOneMore(ByKey(before), was, done, source, fetched[source], listing);
      done := done[source := fetched[source]];
    }
    assert done == fetched;
  }

  lemma EndpointsAreDistinct(eps: seq<Endpoint>, lines: seq<Line>, source: Option<string>)
    requires AreEndpointsOf(eps, lines, source)
    ensures DistinctKeys(eps)
  {
  }

  lemma FetchNothing(d: Directory)
    requires IsTidy(d)
    ensures IsFetchedInto(d, d, map[])
  {
    assert LinksOfLists(map[]) == {};
    forall k | k in d ensures d[k] == AddSources(d[k], SourcesOf(LinksOfLists(map[]), k)) {
      assert SourcesOf(LinksOfLists(map[]), k) == {} && d[k].subscriptionSources + {} == d[k].subscriptionSources;
    }
  }

  lemma LinksOneMore(lists: map<string, seq<Line>>, source: string, lines: seq<Line>)
    requires source !in lists
    ensures var more := lists[source := lines];
            && LinkedKeys(LinksOfLists(more)) == LinkedKeys(LinksOfLists(lists)) + LineKeys(lines)
            && forall k ::
                 SourcesOf(LinksOfLists(more), k) ==
                 SourcesOf(LinksOfLists(lists), k) + if k in LineKeys(lines) then {source} else {}
  {
    var more := lists[source := lines];
    forall l ensures l in LinksOfLists(more) <==>
        l in LinksOfLists(lists) || (l.source == source && l.key in LineKeys(lines)) {
      if l in LinksOfLists(lists) { assert more[l.source] == lists[l.source]; }
    }
    forall k | k in LinkedKeys(LinksOfLists(lists)) + LineKeys(lines) ensures k in LinkedKeys(LinksOfLists(more)) {
      if k in LineKeys(lines) {
        assert Link(source, k) in LinksOfLists(more);
      } else {
        var l :| l in LinksOfLists(lists) && l.key == k;
        assert l in LinksOfLists(more);
      }
    }
    forall k ensures SourcesOf(LinksOfLists(more), k) ==
      SourcesOf(LinksOfLists(lists), k) + if k in LineKeys(lines) then {source} else {} {
      forall s | s in SourcesOf(LinksOfLists(lists), k) ensures s in SourcesOf(LinksOfLists(more), k) {
        assert Link(s, k) in LinksOfLists(more);
      }
      if k in LineKeys(lines) { assert Link(source, k) in LinksOfLists(more); }
    }
  }

  lemma FetchOneMore(before: Directory, d: Directory, done: map<string, seq<Line>>, source: string, lines: seq<Line>,
                     listing: seq<Endpoint>)
    requires IsFetchedInto(before, d, done) && source !in done && AreEndpointsOf(listing, lines, Some(source)) &&
             DistinctKeys(listing)
    ensures IsFetchedInto(before, Merge(d, ByKey(listing), AddListing), done[source := lines])
  {
    hide AreEndpointsOf, ByKey, LinksOfLists, SourcesOf, LinkedKeys, LineKeys, DistinctKeys, Merge, IsNewlyFetched,
      IsMadeOf, Tidy, AddSources,
         IsFetchedInto;
    ListContributes(listing, lines, Some(source));
    FetchedDirectory(before, d, done, source, lines, ByKey(listing));
  }

  lemma FetchedDirectory(before: Directory, d: Directory, done: map<string, seq<Line>>, source: string,
                         lines: seq<Line>, listing: Directory)
    requires IsFetchedInto(before, d, done) && source !in done
    requires listing.Keys == LineKeys(lines) && IsTidy(listing)
    requires forall k :: k in listing ==>
               listing[k].subscriptionSources == {source} && IsMadeOf(listing[k], lines, Some(source))
    ensures IsFetchedInto(before, Merge(d, listing, AddListing), done[source := lines])
  {
    hide LinksOfLists, SourcesOf, LinkedKeys, LineKeys, Merge, IsNewlyFetched, IsMadeOf, IsTidy, AddSources;
    var lists, after := done[source := lines], Merge(d, listing, AddListing);
    LinksOneMore(done, source, lines);
    forall k ensures k in after <==> k in d || k in LineKeys(lines)
      ensures k in before ==> after[k] == AddSources(before[k], SourcesOf(LinksOfLists(lists), k))
      ensures k in after && k !in before ==> after[k].key == k && IsNewlyFetched(after[k], lists)
    {
      FetchedKey(before, d, done, source, lines, listing, k);
    }
  }

  lemma FetchedKey(before: Directory, d: Directory, done: map<string, seq<Line>>, source: string, lines: seq<Line>,
                   listing: Directory, k: string)
    requires IsFetchedInto(before, d, done) && source !in done
    requires listing.Keys == LineKeys(lines) && IsTidy(listing)
    requires k in listing ==> listing[k].subscriptionSources == {source} && IsMadeOf(listing[k], lines, Some(source))
    ensures var lists, after := done[source := lines], Merge(d, listing, AddListing);
            && (k in after <==> k in d || k in LineKeys(lines))
            && (k in before ==> k in after && after[k] == AddSources(before[k], SourcesOf(LinksOfLists(lists), k)))
            && (k in after && k !in before ==> after[k].key == k && IsNewlyFetched(after[k], lists))
  {
    hide LinksOfLists, SourcesOf, LinkedKeys, LineKeys, IsNewlyFetched, IsMadeOf, Tidy, AddSources;
    LinksOneMore(done, source, lines);
    if k in before {
      AddSourcesTwice(before[k], SourcesOf(LinksOfLists(done), k), source);
    } else if k in d {
      KeyStays(d[k], source);
      StaysNewlyFetched(d[k], done, source, lines);
    } else if k in listing {
      NewInListing(before, d, done, source, lines, listing[k], k);
    }
  }

  lemma KeyStays(e: Endpoint, source: string)
    ensures AddSources(e, {source}).key == e.key
  {
  }

  lemma AddSourcesTwice(e: Endpoint, sources: set<string>, source: string)
    ensures AddSources(AddSources(e, sources), {source}) == AddSources(e, sources + {source})
    ensures AddSources(e, sources + {}) == AddSources(e, sources)
  {
    assert e.subscriptionSources + sources + {source} == e.subscriptionSources + (sources + {source});
    assert sources + {} == sources;
  }

  lemma StaysNewlyFetched(e: Endpoint, done: map<string, seq<Line>>, source: string, lines: seq<Line>)
    requires IsNewlyFetched(e, done) && source !in done
    ensures IsNewlyFetched(if e.key in LineKeys(lines) then AddSources(e, {source}) else e, done[source := lines])
  {
    hide LinksOfLists, SourcesOf, LineKeys, IsMadeOf;
    var lists := done[source := lines];
    var s, x: Endpoint :| s in done && IsMadeOf(x, done[s], Some(s)) &&
      e == AddSources(x, SourcesOf(LinksOfLists(done), x.key));
    LinksOneMore(done, source, lines);
    AddSourcesTwice(x, SourcesOf(LinksOfLists(done), x.key), source);
    assert s in lists && lists[s] == done[s];
  }

  lemma NewInListing(before: Directory, d: Directory, done: map<string, seq<Line>>, source: string, lines: seq<Line>,
                     e: Endpoint, k: string)
    requires IsFetchedInto(before, d, done) && source !in done && k in LineKeys(lines) && k !in d
    requires IsMadeOf(e, lines, Some(source)) && e.key == k && Tidy(e) && e.subscriptionSources == {source}
    ensures IsNewlyFetched(e, done[source := lines])
  {
    hide LineKeys, IsMadeOf;
    var lists := done[source := lines];
    LinksOneMore(done, source, lines);
    assert SourcesOf(LinksOfLists(done), k) == {} by {
      assert forall l :: l in LinksOfLists(done) ==> l.key in LinkedKeys(LinksOfLists(done)) && l.key in d;
    }
    assert e.subscriptionSources + {source} == {source};
    assert e == AddSources(e, SourcesOf(LinksOfLists(lists), k));
    assert lists[source] == lines;
  }

  // ---- The provenance after each stage ----------------------------------------------------------

  function LinksFrom(links: set<Link>, sources: set<string>): set<Link> {
    set l | l in links && l.source in sources
  }

  lemma RetainedProvenance(d: Directory, manual: set<string>, desired: set<string>)
    requires IsTidy(d)
    ensures var r := Retained(d, manual, desired);
            && IsTidy(r) && DIRECT_KEY !in r
            && ManualKeys(r) <= manual && Links(r) == LinksFrom(Links(d), desired)
  {
    var r := Retained(d, manual, desired);
    forall k | k in r ensures r[k].key == k && Tidy(r[k]) && k != DIRECT_KEY {
      RelistedIsTidy(d[k], manual, desired);
    }
    forall l | l in LinksFrom(Links(d), desired) ensures l in Links(r) {
      var e := d[l.key];
      assert l.source in e.subscriptionSources * desired;
      assert !e.IsDirect() by { assert e.IsDirect() ==> e == DirectEndpoint(); }
      assert Survives(e, manual, desired);
    }
  }

  lemma RelistedIsTidy(e: Endpoint, manual: set<string>, desired: set<string>)
    requires Tidy(e) && Survives(e, manual, desired)
    ensures Tidy(Relisted(e, manual, desired)) && Relisted(e, manual, desired).key == e.key != DIRECT_KEY
  {
  }

  lemma OverlaidProvenance(d: Directory, m: Directory)
    requires IsTidy(d) && IsTidy(m) && DIRECT_KEY !in d && DIRECT_KEY !in m && ManualKeys(d) <= m.Keys
    requires forall k :: k in m ==> m[k].manualPresent && m[k].subscriptionSources == {}
    ensures var r := Merge(d, m, Overlay);
            && IsTidy(r) && DIRECT_KEY !in r
            && ManualKeys(r) == m.Keys && Links(r) == Links(d)
  {
    var r := Merge(d, m, Overlay);
    forall k | k in r
      ensures r[k].key == k && Tidy(r[k]) && (r[k].manualPresent <==> k in m)
      ensures r[k].subscriptionSources == if k in d then d[k].subscriptionSources else {}
    {
      if k in d && k in m {
        OverlayIsTidy(d[k], m[k]);
      } else if k in d {
        assert k !in ManualKeys(d);
      }
    }
    forall l | l in Links(d) ensures l in Links(r) {
      assert l.source in r[l.key].subscriptionSources;
    }
  }

  lemma OverlayIsTidy(e: Endpoint, line: Endpoint)
    requires Tidy(e) && Tidy(line) && e.key == line.key != DIRECT_KEY
    ensures var o := Overlay(e, line);
            Tidy(o) && o.key == e.key && o.manualPresent && o.subscriptionSources == e.subscriptionSources
  {
  }

  lemma FetchedProvenance(before: Directory, after: Directory, lists: map<string, seq<Line>>)
    requires IsTidy(before) && DIRECT_KEY !in before && IsFetchedInto(before, after, lists)
    ensures IsTidy(after) && DIRECT_KEY !in after
    ensures ManualKeys(after) == ManualKeys(before) && Links(after) == Links(before) + LinksOfLists(lists)
  {
    hide LinksOfLists, SourcesOf, LinkedKeys, Tidy, AddSources, IsNewlyFetched, Links;
    forall k | k in after
      ensures after[k].key == k && Tidy(after[k]) && k != DIRECT_KEY
      ensures after[k].manualPresent <==> k in before && before[k].manualPresent
      ensures after[k].subscriptionSources == (if k in before then before[k].subscriptionSources else {}) +
              SourcesOf(LinksOfLists(lists), k)
    {
      if k in before {
        AddedIsTidy(before[k], SourcesOf(LinksOfLists(lists), k));
      } else {
        NewIsTidy(after[k], lists);
      }
    }
    LinksByKey(after, Links(before) + LinksOfLists(lists), before, LinksOfLists(lists));
  }

  lemma LinksByKey(after: Directory, links: set<Link>, before: Directory, added: set<Link>)
    requires links == Links(before) + added && LinkedKeys(added) <= after.Keys && before.Keys <= after.Keys
    requires forall k :: k in after ==>
               after[k].subscriptionSources == (if k in before then before[k].subscriptionSources else {}) +
                 SourcesOf(added, k)
    ensures Links(after) == links
  {
    forall l ensures l in Links(after) <==> l in links {
      if l in added { assert l.key in LinkedKeys(added) && l.source in SourcesOf(added, l.key); }
      assert l in Links(after) <==> l.key in after && l.source in after[l.key].subscriptionSources;
      assert l in Links(before) <==> l.key in before && l.source in before[l.key].subscriptionSources;
      assert l.source in SourcesOf(added, l.key) <==> l in added by {
        if l.source in SourcesOf(added, l.key) {
          var m :| m in added && m.key == l.key && m.source == l.source;
          assert m == l;
        }
      }
    }
  }

  lemma AddedIsTidy(e: Endpoint, sources: set<string>)
    requires Tidy(e) && e.key != DIRECT_KEY
    ensures var added := AddSources(e, sources);
            && Tidy(added) && added.key == e.key && added.manualPresent == e.manualPresent
            && added.subscriptionSources == e.subscriptionSources + sources
  {
  }

  lemma NewIsTidy(e: Endpoint, lists: map<string, seq<Line>>)
    requires IsNewlyFetched(e, lists)
    ensures Tidy(e) && e.key != DIRECT_KEY && !e.manualPresent
    ensures e.subscriptionSources == SourcesOf(LinksOfLists(lists), e.key)
    ensures exists s :: s in lists && IsRoutedBy(e, lists[s])
  {
    hide SourcesOf, LinksOfLists;
    var s, x: Endpoint :| s in lists && IsMadeOf(x, lists[s], Some(s)) &&
      e == AddSources(x, SourcesOf(LinksOfLists(lists), x.key));
    var i: nat :| IsFirst(lists[s], i) && x == MakeEndpoint(lists[s][i].value, Some(s));
    FirstIsLinked(lists, s, i);
    assert IsRoutedBy(e, lists[s]) by {
      assert RouteOf(e) == EntryRoute(lists[s][i].value);
    }
  }

  lemma FirstIsLinked(lists: map<string, seq<Line>>, s: string, i: nat)
    requires s in lists && IsFirst(lists[s], i)
    ensures s in SourcesOf(LinksOfLists(lists), lists[s][i].value.normalized)
  {
    var k := lists[s][i].value.normalized;
    assert k in LineKeys(lists[s]);
    assert Link(s, k) in LinksOfLists(lists);
  }

  // ---- The update -------------------------------------------------------------------------------

  /** The route of an endpoint after an update: a survivor keeps its resolved URL and relay, and its name unless a
      manual line renames it; any other endpoint is reached as the line says that brought it in. */
  ghost predicate IsUpdatedRoute(e: Endpoint, was: Directory, settings: Settings, fetched: map<string, seq<Line>>) {
    var manual, desired := LineKeys(settings.proxyUrls), DesiredSources(settings);
    if e.key in was && Survives(was[e.key], manual, desired) then
      && e.endpointUrl == was[e.key].endpointUrl && e.usesLocalRelay == was[e.key].usesLocalRelay
      && (if e.key in manual then exists i: nat ::
          IsFirst(settings.proxyUrls, i) && IsNamedBy(e, settings.proxyUrls[i].value)
          else RouteOf(e) == RouteOf(was[e.key]))
    else if e.key in manual then IsRoutedBy(e, settings.proxyUrls)
    else exists s :: s in fetched && IsRoutedBy(e, fetched[s])
  }

  predicate IsNamedBy(e: Endpoint, line: Entry) {
    e.key == line.normalized && e.displayName == line.displayName && e.protocol == line.protocol &&
      e.rawUrl == Some(line.normalized)
  }

  function DesiredSources(settings: Settings): set<string> {
    set s | s in settings.subscriptionUrls
  }

  /** The endpoint list after an incremental update: its provenance is that of a rebuild from the manual URLs, the
      retained listings and the newly fetched ones. */
  ghost predicate IsUpdated(was: seq<Endpoint>, settings: Settings, fetched: map<string, seq<Line>>, eps: seq<Endpoint>)
    requires ValidEndpoints(was)
  {
    && ValidEndpoints(eps)
    && ProvenanceOf(ByKey(eps)) ==
         ListedProvenance(settings, LinksFrom(Links(ByKey(was)), DesiredSources(settings)) + LinksOfLists(fetched))
    && forall k :: k in ByKey(eps) && k != DIRECT_KEY ==> IsUpdatedRoute(ByKey(eps)[k], ByKey(was), settings, fetched)
  }

  method UpdateList(endpoints: seq<Endpoint>, settings: Settings, fetched: map<string, seq<Line>>)
    returns (eps: seq<Endpoint>)
    requires ValidEndpoints(endpoints)
    ensures IsUpdated(endpoints, settings, fetched, eps)
  {
    hide IsUpdated, WithDirect, ByKey, Tidy, AreEndpointsOf, IsFetchedInto, Merge, Retained, LineKeys;
    var manual := NormalizeEndpoints(settings.proxyUrls, None);
    EndpointsAreDistinct(manual, settings.proxyUrls, None);
    ghost var m := ByKey(manual);
    ListContributes(manual, settings.proxyUrls, None);
    ByKeyLooksUp(manual);
    var desired := DesiredSources(settings);
    var retained, seen := RetainListed(endpoints, Keys(manual), desired);
    RetainedProvenance(ByKey(endpoints), Keys(manual), desired);
    var merged;
    merged, seen := MergeManual(retained, seen, ByKey(manual));
    OverlaidProvenance(ByKey(retained), m);
    var all := MergeFetched(merged, seen, fetched);
    FetchedProvenance(ByKey(merged), ByKey(all), fetched);
    WithDirectProvenance(all, settings);
    eps := WithDirect(all, settings);
    UpdatedRoutes(endpoints, settings, fetched, m, ByKey(all));
    UpdateIsUpdated(endpoints, settings, fetched, all);
  }

  lemma UpdateIsUpdated(was: seq<Endpoint>, settings: Settings, fetched: map<string, seq<Line>>, all: seq<Endpoint>)
    requires ValidEndpoints(was) && ValidEndpoints(all) && DIRECT_KEY !in ByKey(all)
    requires ManualKeys(ByKey(all)) == LineKeys(settings.proxyUrls)
    requires Links(ByKey(all)) == LinksFrom(Links(ByKey(was)), DesiredSources(settings)) + LinksOfLists(fetched)
    requires forall k :: k in ByKey(all) ==> IsUpdatedRoute(ByKey(all)[k], ByKey(was), settings, fetched)
    ensures IsUpdated(was, settings, fetched, WithDirect(all, settings))
  {
    hide WithDirect, ByKey, Tidy, IsUpdatedRoute, ListedProvenance, LinksFrom, LinksOfLists, LineKeys, ManualKeys;
    WithDirectProvenance(all, settings);
  }

  lemma UpdatedRoutes(endpoints: seq<Endpoint>, settings: Settings, fetched: map<string, seq<Line>>, m: Directory,
                      all: Directory)
    requires ValidEndpoints(endpoints) && IsTidy(m) && m.Keys == LineKeys(settings.proxyUrls)
    requires forall k :: k in m ==> IsMadeOf(m[k], settings.proxyUrls, None)
    requires var retained := Retained(ByKey(endpoints), LineKeys(settings.proxyUrls), DesiredSources(settings));
             IsFetchedInto(Merge(retained, m, Overlay), all, fetched)
    ensures forall k :: k in all ==> all[k].key == k ==> IsUpdatedRoute(all[k], ByKey(endpoints), settings, fetched)
  {
    hide ByKey, LineKeys, IsUpdatedRoute, IsNewlyFetched, LinksOfLists, SourcesOf, IsMadeOf, Tidy, AddSources;
    var was, manual, desired := ByKey(endpoints), LineKeys(settings.proxyUrls), DesiredSources(settings);
    var merged := Merge(Retained(was, manual, desired), m, Overlay);
    forall k | k in all && all[k].key == k ensures IsUpdatedRoute(all[k], was, settings, fetched) {
      if k in merged {
        MergedRoute(was, settings, fetched, m, k);
        AddedKeepsRoute(merged[k], SourcesOf(LinksOfLists(fetched), k), was, settings, fetched);
      } else {
        assert IsNewlyFetched(all[k], fetched);
        NewRoute(all[k], was, settings, fetched);
      }
    }
  }

  lemma AddedKeepsRoute(e: Endpoint, sources: set<string>, was: Directory, settings: Settings,
                        fetched: map<string, seq<Line>>)
    ensures IsUpdatedRoute(e, was, settings, fetched) ==> IsUpdatedRoute(AddSources(e, sources), was, settings, fetched)
  {
    var added := AddSources(e, sources);
    assert added.key == e.key && RouteOf(added) == RouteOf(e);
    hide AddSources, IsFirst, LineKeys, Survives;
  }

  lemma NewRoute(e: Endpoint, was: Directory, settings: Settings, fetched: map<string, seq<Line>>)
    requires IsNewlyFetched(e, fetched) && e.key !in LineKeys(settings.proxyUrls)
    requires e.key in was ==> !Survives(was[e.key], LineKeys(settings.proxyUrls), DesiredSources(settings))
    ensures IsUpdatedRoute(e, was, settings, fetched)
  {
    hide IsNewlyFetched, IsRoutedBy;
    NewIsTidy(e, fetched);
  }

  lemma MergedRoute(was: Directory, settings: Settings, fetched: map<string, seq<Line>>, m: Directory, k: string)
    requires IsTidy(was) && IsTidy(m) && m.Keys == LineKeys(settings.proxyUrls)
    requires k in m ==> IsMadeOf(m[k], settings.proxyUrls, None)
    requires k in Merge(Retained(was, LineKeys(settings.proxyUrls), DesiredSources(settings)), m, Overlay)
    ensures IsUpdatedRoute(Merge(Retained(was, LineKeys(settings.proxyUrls), DesiredSources(settings)), m, Overlay)[k],
                           was, settings, fetched)
  {
    hide LineKeys;
    if k in m {
      var i: nat :| IsFirst(settings.proxyUrls, i) && m[k] == MakeEndpoint(settings.proxyUrls[i].value, None);
      hide IsFirst;
      if k in Retained(was, LineKeys(settings.proxyUrls), DesiredSources(settings)) {
        assert IsNamedBy(Overlay(Relisted(was[k], LineKeys(settings.proxyUrls), DesiredSources(settings)), m[k]),
                         settings.proxyUrls[i].value);
      } else {
        assert RouteOf(m[k]) == EntryRoute(settings.proxyUrls[i].value);
      }
    }
  }
}
