/** Incremental updates against full rebuilds, over whole runs of settings changes. */
module ForwardProxyUpdates {
  import opened Wrappers
  import opened ForwardProxyTypes
  import opened ForwardProxyProvenance
  import opened ForwardProxyRebuild
  import opened ForwardProxyIncremental

  /** Two endpoint lists offer the same keys, each with the same listings and the same label. */
  predicate SameListings(a: Directory, b: Directory) {
    && a.Keys == b.Keys
    && forall k :: k in a ==>
         && a[k].manualPresent == b[k].manualPresent
         && a[k].subscriptionSources == b[k].subscriptionSources
         && a[k].source == b[k].source
  }

  /** An incremental update offers what a full rebuild from the manual URLs, the retained listings and the fetched
      ones would offer. */
  lemma UpdateIsRebuild(was: seq<Endpoint>, settings: Settings, fetched: map<string, seq<Line>>, updated: seq<Endpoint>,
                        subs: seq<Endpoint>, rebuilt: seq<Endpoint>)
    requires ValidEndpoints(was) && IsUpdated(was, settings, fetched, updated) && IsRebuilt(rebuilt, settings, subs)
    requires ListedLinks(subs) == LinksFrom(Links(ByKey(was)), DesiredSources(settings)) + LinksOfLists(fetched)
    ensures SameListings(ByKey(updated), ByKey(rebuilt))
  {
    hide ByKey, IsTidy, ListedProvenance, LinksFrom, LinksOfLists, IsUpdatedRoute, IsRoutedBy, ListedLinks,
      DesiredSources, ProvenanceOf, SameListings;
    SameProvenanceSameListings(ByKey(updated), ByKey(rebuilt));
  }

  lemma SameProvenanceSameListings(a: Directory, b: Directory)
    requires IsTidy(a) && IsTidy(b) && ProvenanceOf(a) == ProvenanceOf(b)
    ensures SameListings(a, b)
  {
    hide IsTidy;
    ProvenanceDetermines(a);
    ProvenanceDetermines(b);
    hide Links, LinkedKeys, SourcesOf, ManualKeys;
  }

  /** The listings if each fetched list replaced what its source listed before. */
  function ReplacedLinks(links: set<Link>, desired: set<string>, fetched: map<string, seq<Line>>): set<Link> {
    LinksFrom(links, desired - fetched.Keys) + LinksOfLists(fetched)
  }

  /** An update offers what replacing would, exactly unless a fetched subscription no longer lists a key that it
      listed before: the update keeps the stale listing. */
  lemma UpdateIsReplacement(links: set<Link>, settings: Settings, fetched: map<string, seq<Line>>)
    ensures var desired := DesiredSources(settings);
            ListedProvenance(settings, LinksFrom(links, desired) + LinksOfLists(fetched))
              == ListedProvenance(settings, ReplacedLinks(links, desired, fetched))
            <==> forall l :: l in links && l.source in desired && l.source in fetched ==>
              l.key in LineKeys(fetched[l.source])
  {
    var desired := DesiredSources(settings);
    var updated, replaced := LinksFrom(links, desired) + LinksOfLists(fetched), ReplacedLinks(links, desired, fetched);
    assert replaced <= updated;
    forall l | l in links && l.source in desired && l.source in fetched
      ensures l in replaced <==> l.key in LineKeys(fetched[l.source])
    {
      assert l == Link(l.source, l.key);
    }
    if updated == replaced {
      forall l | l in links && l.source in desired && l.source in fetched ensures l.key in LineKeys(fetched[l.source]) {
        assert l in updated;
      }
    } else {
      var l :| l in updated && l !in replaced;
    }
  }

  // ---- Resolving routes -------------------------------------------------------------------------

  /** The same endpoints, each but the direct one with whatever resolved URL and relay flag. */
  predicate IsResolved(list: seq<Endpoint>, resolved: seq<Endpoint>) {
    && |resolved| == |list|
    && forall i :: 0 <= i < |list| ==>
         if list[i].IsDirect() then resolved[i] == list[i]
         else resolved[i] == list[i].(endpointUrl := resolved[i].endpointUrl,
                                      usesLocalRelay := resolved[i].usesLocalRelay)
  }

  lemma ResolvedKeepsProvenance(list: seq<Endpoint>, resolved: seq<Endpoint>)
    requires ValidEndpoints(list) && IsResolved(list, resolved)
    ensures ValidEndpoints(resolved) && ProvenanceOf(ByKey(resolved)) == ProvenanceOf(ByKey(list))
    ensures Keys(resolved) == Keys(list)
  {
    hide ByKey, Tidy, IsResolved;
    ResolvedKeys(list, resolved);
    ByKeyLooksUp(list);
    ByKeyLooksUp(resolved);
    forall k | k in Keys(list)
      ensures Tidy(ByKey(resolved)[k]) && ByKey(resolved)[k].key == k
      ensures ByKey(resolved)[k].manualPresent == ByKey(list)[k].manualPresent
      ensures ByKey(resolved)[k].subscriptionSources == ByKey(list)[k].subscriptionSources
    {
      var i: nat :| i < |list| && list[i].key == k;
      ResolvedAt(list, resolved, i);
    }
    SameProvenance(ByKey(list), ByKey(resolved));
  }

  lemma ResolvedKeys(list: seq<Endpoint>, resolved: seq<Endpoint>)
    requires DistinctKeys(list) && IsResolved(list, resolved)
    ensures DistinctKeys(resolved) && Keys(resolved) == Keys(list) && |resolved| == |list|
  {
    SameKeys(list, resolved);
  }

  lemma ResolvedAt(list: seq<Endpoint>, resolved: seq<Endpoint>, i: nat)
    requires ValidEndpoints(list) && IsResolved(list, resolved) && i < |list|
    ensures Tidy(resolved[i]) && resolved[i].key == list[i].key
    ensures resolved[i].manualPresent == list[i].manualPresent &&
            resolved[i].subscriptionSources == list[i].subscriptionSources
  {
    hide ByKey, Tidy;
    ByKeyLooksUp(list);
    ResolvedIsTidy(list[i], resolved[i]);
  }

  lemma SameProvenance(a: Directory, b: Directory)
    requires a.Keys == b.Keys
    requires forall k :: k in a ==>
               a[k].manualPresent == b[k].manualPresent && a[k].subscriptionSources == b[k].subscriptionSources
    ensures ProvenanceOf(a) == ProvenanceOf(b)
  {
  }

  lemma ResolvedIsTidy(e: Endpoint, r: Endpoint)
    requires Tidy(e)
    requires if e.IsDirect() then r == e else r == e.(endpointUrl := r.endpointUrl, usesLocalRelay := r.usesLocalRelay)
    ensures Tidy(r)
  {
  }

  // ---- Runs -------------------------------------------------------------------------------------

  datatype Update = Update(settings: Settings, fetched: map<string, seq<Line>>)

  /** One update, before which the routes of the listed endpoints may have been resolved anew. */
  ghost predicate IsStep(list: seq<Endpoint>, u: Update, next: seq<Endpoint>) {
    exists resolved :: IsResolved(list, resolved) && ValidEndpoints(resolved) &&
      IsUpdated(resolved, u.settings, u.fetched, next)
  }

  /** The lists after each of a run of updates. */
  ghost predicate IsRun(lists: seq<seq<Endpoint>>, updates: seq<Update>) {
    && |lists| == |updates| + 1
    && (forall i :: 0 <= i < |lists| ==> ValidEndpoints(lists[i]))
    && forall i :: 0 <= i < |updates| ==> IsStep(lists[i], updates[i], lists[i + 1])
  }

  lemma StepLinks(list: seq<Endpoint>, u: Update, next: seq<Endpoint>)
    requires ValidEndpoints(list) && IsStep(list, u, next)
    ensures ValidEndpoints(next)
    ensures Links(ByKey(next)) == LinksFrom(Links(ByKey(list)), DesiredSources(u.settings)) + LinksOfLists(u.fetched)
  {
    hide ByKey, Links, LinksFrom, LinksOfLists, IsUpdatedRoute, IsResolved, IsTidy;
    var resolved :| IsResolved(list, resolved) && ValidEndpoints(resolved) &&
      IsUpdated(resolved, u.settings, u.fetched, next);
    ResolvedKeepsProvenance(list, resolved);
  }

  /** The source of a listing was desired by every update from the `from`-th on. */
  predicate DesiredSince(updates: seq<Update>, from: nat, source: string) {
    forall m :: from <= m < |updates| ==> source in DesiredSources(updates[m].settings)
  }

  /** A listing is in force if some update fetched it, or the first list had it, and every later update desired its
      source. */
  predicate InForce(first: set<Link>, updates: seq<Update>, l: Link) {
    || (l in first && DesiredSince(updates, 0, l.source))
    || exists j :: 0 <= j < |updates| && l in LinksOfLists(updates[j].fetched) && DesiredSince(updates, j + 1, l.source)
  }

  lemma {:induction false} ListingsInForce(lists: seq<seq<Endpoint>>, updates: seq<Update>, l: Link)
    requires IsRun(lists, updates)
    ensures l in Links(ByKey(lists[|updates|])) <==> InForce(Links(ByKey(lists[0])), updates, l)
  {
    hide ByKey, LinksOfLists, Links, IsTidy, IsStep;
    if updates != [] {
      var n := |updates| - 1;
      StepLinks(lists[n], updates[n], lists[n + 1]);
      ListingsInForce(lists[..n + 1], updates[..n], l);
      InForceOneMore(Links(ByKey(lists[0])), updates, l);
    }
  }

  lemma InForceOneMore(first: set<Link>, updates: seq<Update>, l: Link)
    requires updates != []
    ensures var n := |updates| - 1;
            InForce(first, updates, l) <==>
            l in LinksOfLists(updates[n].fetched) ||
              (InForce(first, updates[..n], l) && l.source in DesiredSources(updates[n].settings))
  {
    hide LinksOfLists, DesiredSources;
    var n := |updates| - 1;
    var before := updates[..n];
    forall j: nat | j <= n ensures DesiredSince(updates, j, l.source) <==>
      DesiredSince(before, j, l.source) && l.source in DesiredSources(updates[n].settings) {
      assert forall m :: 0 <= m < n ==> before[m] == updates[m];
      if DesiredSince(updates, j, l.source) {
        forall m | j <= m < n ensures l.source in DesiredSources(before[m].settings) {
          assert l.source in DesiredSources(updates[m].settings);
        }
      }
    }
    if l in LinksOfLists(updates[n].fetched) { assert DesiredSince(updates, n + 1, l.source); }
    if InForce(first, before, l) && l.source in DesiredSources(updates[n].settings) &&
      !(l in first && DesiredSince(before, 0, l.source)) {
      var j :| 0 <= j < n && l in LinksOfLists(before[j].fetched) && DesiredSince(before, j + 1, l.source);
      assert l in LinksOfLists(updates[j].fetched) && DesiredSince(updates, j + 1, l.source);
    }
    if InForce(first, updates, l) && !(l in first && DesiredSince(updates, 0, l.source)) &&
      l !in LinksOfLists(updates[n].fetched) {
      var j :| 0 <= j < |updates| && l in LinksOfLists(updates[j].fetched) && DesiredSince(updates, j + 1, l.source);
      assert j < n && l in LinksOfLists(before[j].fetched) && DesiredSince(before, j + 1, l.source);
    }
  }

  /** After any run the list offers what a rebuild from the last manual URLs and the listings in force would. */
  lemma RunIsRebuild(lists: seq<seq<Endpoint>>, updates: seq<Update>, subs: seq<Endpoint>, rebuilt: seq<Endpoint>)
    requires IsRun(lists, updates) && updates != [] && IsRebuilt(rebuilt, updates[|updates| - 1].settings, subs)
    requires forall l :: l in ListedLinks(subs) <==> InForce(Links(ByKey(lists[0])), updates, l)
    ensures SameListings(ByKey(lists[|updates|]), ByKey(rebuilt))
  {
    hide LinksOfLists, IsUpdatedRoute, IsRebuilt, ListedLinks, ByKey, InForce, LinksFrom, IsResolved, Links;
    var n := |updates| - 1;
    var u := updates[n];
    assert IsStep(lists[n], u, lists[n + 1]);
    var resolved :| IsResolved(lists[n], resolved) && ValidEndpoints(resolved) &&
      IsUpdated(resolved, u.settings, u.fetched, lists[n + 1]);
    forall l ensures l in Links(ByKey(lists[n + 1])) <==> l in ListedLinks(subs) {
      ListingsInForce(lists, updates, l);
    }
    UpdateIsRebuild(resolved, u.settings, u.fetched, lists[n + 1], subs, rebuilt);
  }
}
