/** Where endpoints come from: which keys are listed manually, which subscription lists which key, and whether
    the direct route is offered. */
module ForwardProxyProvenance {
  import opened Wrappers
  import opened ForwardProxyTypes

  /** The subscription `source` lists `key`. */
  datatype Link = Link(source: string, key: string)

  datatype Provenance = Provenance(manual: set<string>, links: set<Link>, direct: bool)

  /** A list of endpoints with distinct keys, looked up by key. */
  type Directory = map<string, Endpoint>

  predicate DistinctKeys(eps: seq<Endpoint>) {
    forall i, j :: 0 <= i < j < |eps| ==> eps[i].key != eps[j].key
  }

  function Keys(eps: seq<Endpoint>): set<string> {
    set i | 0 <= i < |eps| :: eps[i].key
  }

  function ByKey(eps: seq<Endpoint>): Directory
    requires DistinctKeys(eps)
  {
    map i | 0 <= i < |eps| :: eps[i].key := eps[i]
  }

  function ManualKeys(d: Directory): set<string> {
    set k | k in d && d[k].manualPresent
  }

  function Links(d: Directory): set<Link> {
    set k, s | k in d && s in d[k].subscriptionSources :: Link(s, k)
  }

  function ProvenanceOf(d: Directory): Provenance {
    Provenance(ManualKeys(d), Links(d), DIRECT_KEY in d)
  }

  /** Only the direct route has the direct key; every other endpoint is backed by a list, and says by which kind. */
  predicate Tidy(e: Endpoint) {
    && (e.IsDirect() <==> e.key == DIRECT_KEY)
    && (if e.IsDirect() then e == DirectEndpoint()
        else (e.manualPresent || e.subscriptionSources != {}) && e.source == e.SourceLabel())
  }

  predicate IsTidy(d: Directory) {
    forall k :: k in d ==> d[k].key == k && Tidy(d[k])
  }

  /** The invariant of the manager's endpoint list. */
  predicate ValidEndpoints(eps: seq<Endpoint>) {
    DistinctKeys(eps) && IsTidy(ByKey(eps))
  }

  // ---- What the provenance determines -----------------------------------------------------------

  function LinkedKeys(links: set<Link>): set<string> {
    set l | l in links :: l.key
  }

  function SourcesOf(links: set<Link>, key: string): set<string> {
    set l | l in links && l.key == key :: l.source
  }

  /** The keys, the listings of each key and its label follow from the provenance. */
  lemma ProvenanceDetermines(d: Directory)
    requires IsTidy(d)
    ensures var p := ProvenanceOf(d);
            && d.Keys == p.manual + LinkedKeys(p.links) + (if p.direct then {DIRECT_KEY} else {})
            && forall k :: k in d ==>
                 && (d[k].manualPresent <==> k in p.manual)
                 && d[k].subscriptionSources == SourcesOf(p.links, k)
                 && d[k].source == (if k == DIRECT_KEY then "direct" else if k in p.manual then "manual"
                                    else "subscription")
  {
    var p := ProvenanceOf(d);
    forall k | k in d
      ensures k in p.manual + LinkedKeys(p.links) + (if p.direct then {DIRECT_KEY} else {})
      ensures d[k].subscriptionSources == SourcesOf(p.links, k)
      ensures d[k].source == (if k == DIRECT_KEY then "direct" else if k in p.manual then "manual" else "subscription")
    {
      LinksOfKey(d, k);
    }
  }

  lemma LinksOfKey(d: Directory, k: string)
    requires k in d
    ensures d[k].subscriptionSources == SourcesOf(Links(d), k)
    ensures d[k].subscriptionSources != {} <==> k in LinkedKeys(Links(d))
  {
    forall s | s in d[k].subscriptionSources ensures s in SourcesOf(Links(d), k) {
      assert Link(s, k) in Links(d) && Link(s, k).source == s;
    }
    if k in LinkedKeys(Links(d)) {
      var l :| l in Links(d) && l.key == k;
      assert l.source in d[k].subscriptionSources;
    }
  }

  // ---- One more endpoint, or one changed --------------------------------------------------------

  function LinksTo(sources: set<string>, key: string): set<Link> {
    set s | s in sources :: Link(s, key)
  }

  /** Adds an endpoint, or replaces one by another that is listed in at least the same places. */
  lemma Put(d: Directory, e: Endpoint)
    requires IsTidy(d) && Tidy(e)
    requires e.key in d ==>
               d[e.key].subscriptionSources <= e.subscriptionSources && (d[e.key].manualPresent ==> e.manualPresent)
    ensures IsTidy(d[e.key := e])
    ensures ManualKeys(d[e.key := e]) == ManualKeys(d) + if e.manualPresent then {e.key} else {}
    ensures Links(d[e.key := e]) == Links(d) + LinksTo(e.subscriptionSources, e.key)
  {
    hide Tidy;
    var more := d[e.key := e];
    forall l | l in Links(d) ensures l in Links(more) {
      assert l.key in d && l.source in d[l.key].subscriptionSources;
    }
    forall l | l in LinksTo(e.subscriptionSources, e.key) ensures l in Links(more) {
      assert l.source in more[l.key].subscriptionSources;
    }
  }

  predicate LooksUp(d: Directory, eps: seq<Endpoint>) {
    d.Keys == Keys(eps) && forall i :: 0 <= i < |eps| ==> eps[i].key in d && d[eps[i].key] == eps[i]
  }

  lemma ByKeyLooksUp(eps: seq<Endpoint>)
    requires DistinctKeys(eps)
    ensures LooksUp(ByKey(eps), eps)
  {
    assert ByKey(eps).Keys == Keys(eps);
  }

  lemma LookUpIsByKey(d: Directory, eps: seq<Endpoint>)
    requires DistinctKeys(eps) && LooksUp(d, eps)
    ensures d == ByKey(eps)
  {
    ByKeyLooksUp(eps);
    forall k | k in d ensures d[k] == ByKey(eps)[k] {
      var i :| 0 <= i < |eps| && eps[i].key == k;
    }
  }

  /** Appending an endpoint with a new key, and overwriting one in place, both set one key. */
  lemma AppendByKey(eps: seq<Endpoint>, e: Endpoint)
    requires DistinctKeys(eps) && e.key !in Keys(eps)
    ensures DistinctKeys(eps + [e]) && ByKey(eps + [e]) == ByKey(eps)[e.key := e]
    ensures Keys(eps + [e]) == Keys(eps) + {e.key}
  {
    hide ByKey, LooksUp, Keys, DistinctKeys;
    ByKeyLooksUp(eps);
    AppendedKeys(eps, e);
    AppendLooksUp(ByKey(eps), eps, e);
    LookUpIsByKey(ByKey(eps)[e.key := e], eps + [e]);
  }

  lemma AppendedKeys(eps: seq<Endpoint>, e: Endpoint)
    ensures Keys(eps + [e]) == Keys(eps) + {e.key}
    ensures DistinctKeys(eps) && e.key !in Keys(eps) ==> DistinctKeys(eps + [e])
  {
    var more := eps + [e];
    assert more[|eps|] == e && forall i :: 0 <= i < |eps| ==> more[i] == eps[i] && eps[i].key in Keys(eps);
  }

  lemma AppendLooksUp(d: Directory, eps: seq<Endpoint>, e: Endpoint)
    requires LooksUp(d, eps) && e.key !in Keys(eps) && Keys(eps + [e]) == Keys(eps) + {e.key}
    ensures LooksUp(d[e.key := e], eps + [e])
  {
    var more := eps + [e];
    assert forall i :: 0 <= i < |eps| ==> more[i] == eps[i] && eps[i].key in Keys(eps);
    hide Keys;
  }

  lemma OverwriteByKey(eps: seq<Endpoint>, at: nat, e: Endpoint)
    requires DistinctKeys(eps) && at < |eps| && eps[at].key == e.key
    ensures DistinctKeys(eps[at := e]) && ByKey(eps[at := e]) == ByKey(eps)[e.key := e]
    ensures Keys(eps[at := e]) == Keys(eps)
  {
    hide ByKey;
    var more := eps[at := e];
    assert more[at] == e && forall i :: 0 <= i < |eps| && i != at ==> more[i] == eps[i];
    SameKeys(eps, more);
    ByKeyLooksUp(eps);
    assert LooksUp(ByKey(eps)[e.key := e], more);
    LookUpIsByKey(ByKey(eps)[e.key := e], more);
  }

  lemma SameKeys(eps: seq<Endpoint>, more: seq<Endpoint>)
    requires |more| == |eps| && forall i :: 0 <= i < |eps| ==> more[i].key == eps[i].key
    ensures Keys(more) == Keys(eps)
    ensures DistinctKeys(eps) ==> DistinctKeys(more)
  {
    forall k | k in Keys(eps) ensures k in Keys(more) {
      var i :| 0 <= i < |eps| && eps[i].key == k;
      assert more[i].key == k;
    }
    forall k | k in Keys(more) ensures k in Keys(eps) {
      var i :| 0 <= i < |more| && more[i].key == k;
      assert eps[i].key == k;
    }
    if DistinctKeys(eps) {
      forall i, j | 0 <= i < j < |more| ensures more[i].key != more[j].key {
        assert more[i].key == eps[i].key && more[j].key == eps[j].key;
      }
    }
  }

  // ---- Lists of proxy URLs ----------------------------------------------------------------------

  /** Line `i` is the first that parses to its key. */
  predicate IsFirst(lines: seq<Line>, i: nat) {
    && i < |lines| && lines[i].Some?
    && forall j :: 0 <= j < i && lines[j].Some? ==> lines[j].value.normalized != lines[i].value.normalized
  }

  function LineKeys(lines: seq<Line>): set<string> {
    set i | 0 <= i < |lines| && lines[i].Some? :: lines[i].value.normalized
  }

  /** The endpoint made of an entry: manual, or listed by a subscription. */
  function MakeEndpoint(e: Entry, source: Option<string>): Endpoint {
    if source.Some? then SubscriptionEndpoint(e, source.value) else ManualEndpoint(e)
  }

  ghost predicate IsMadeOf(e: Endpoint, lines: seq<Line>, source: Option<string>) {
    exists i: nat :: IsFirst(lines, i) && e == MakeEndpoint(lines[i].value, source)
  }

  /** The endpoints of a list: one for each key, made of the first line with that key. */
  ghost predicate AreEndpointsOf(eps: seq<Endpoint>, lines: seq<Line>, source: Option<string>) {
    && DistinctKeys(eps)
    && Keys(eps) == LineKeys(lines)
    && forall j :: 0 <= j < |eps| ==> IsMadeOf(eps[j], lines, source)
  }

  method NormalizeEndpoints(lines: seq<Line>, source: Option<string>) returns (eps: seq<Endpoint>)
    ensures AreEndpointsOf(eps, lines, source)
  {
    hide AreEndpointsOf, LineKeys;
    eps := [];
    var seen: set<string> := {};
    NoEndpoints(lines, source);
    for n := 0 to |lines|
      invariant seen == Keys(eps) && AreEndpointsOf(eps, lines[..n], source)
    {
      SkipLine(eps, lines, n, source);
      if lines[n].Some? {
        var key := lines[n].value.normalized;
        if key !in seen {
          AppendLine(eps, lines, n, source);
          seen := seen + {key};
          eps := eps + [MakeEndpoint(lines[n].value, source)];
        }
      }
    }
    assert lines[..|lines|] == lines;
  }

  lemma NoEndpoints(lines: seq<Line>, source: Option<string>)
    ensures AreEndpointsOf([], lines[..0], source)
  {
  }

  lemma SkipLine(eps: seq<Endpoint>, lines: seq<Line>, n: nat, source: Option<string>)
    requires n < |lines| && AreEndpointsOf(eps, lines[..n], source)
    ensures lines[n].None? || lines[n].value.normalized in Keys(eps) ==> AreEndpointsOf(eps, lines[..n + 1], source)
  {
    FirstsStay(lines, n);
    LineKeysOneMore(lines, n);
    forall j | 0 <= j < |eps| ensures IsMadeOf(eps[j], lines[..n + 1], source) {
      assert IsMadeOf(eps[j], lines[..n], source);
    }
  }

  lemma AppendLine(eps: seq<Endpoint>, lines: seq<Line>, n: nat, source: Option<string>)
    requires n < |lines| && AreEndpointsOf(eps, lines[..n], source)
    requires lines[n].Some? && lines[n].value.normalized !in Keys(eps)
    ensures AreEndpointsOf(eps + [MakeEndpoint(lines[n].value, source)], lines[..n + 1], source)
    ensures Keys(eps + [MakeEndpoint(lines[n].value, source)]) == Keys(eps) + {lines[n].value.normalized}
  {
    FirstsStay(lines, n);
    LineKeysOneMore(lines, n);
    var e := MakeEndpoint(lines[n].value, source);
    assert IsFirst(lines[..n + 1], n) by {
      forall j | 0 <= j < n && lines[j].Some? ensures lines[j].value.normalized != lines[n].value.normalized {
        assert lines[..n][j].Some?;
        assert lines[j].value.normalized in LineKeys(lines[..n]);
      }
    }
    assert IsMadeOf(e, lines[..n + 1], source);
    forall j | 0 <= j < |eps| ensures IsMadeOf(eps[j], lines[..n + 1], source) && eps[j].key in Keys(eps) {
      assert IsMadeOf(eps[j], lines[..n], source);
    }
    AppendByKey(eps, e);
  }

  lemma FirstsStay(lines: seq<Line>, n: nat)
    requires n < |lines|
    ensures forall i: nat :: IsFirst(lines[..n], i) ==> IsFirst(lines[..n + 1], i) && lines[..n][i] == lines[..n + 1][i]
  {
  }

  lemma LineKeysOneMore(lines: seq<Line>, n: nat)
    requires n < |lines|
    ensures LineKeys(lines[..n + 1]) == LineKeys(lines[..n]) + if lines[n].Some? then {lines[n].value.normalized}
            else {}
  {
    var more := lines[..n + 1];
    forall k | k in LineKeys(lines[..n]) ensures k in LineKeys(more) {
      var i :| 0 <= i < n && lines[..n][i].Some? && lines[..n][i].value.normalized == k;
      assert more[i].Some? && more[i].value.normalized == k;
    }
    forall k | k in LineKeys(more) ensures k in LineKeys(lines[..n]) +
      if lines[n].Some? then {lines[n].value.normalized} else {} {
      var i :| 0 <= i < n + 1 && more[i].Some? && more[i].value.normalized == k;
      if i < n { assert lines[..n][i].Some?; }
    }
    assert lines[n].Some? ==> more[n].Some? && more[n] == lines[n];
  }

  /** What the endpoints of a list contribute. */
  lemma ListContributes(eps: seq<Endpoint>, lines: seq<Line>, source: Option<string>)
    requires AreEndpointsOf(eps, lines, source)
    ensures IsTidy(ByKey(eps)) && ByKey(eps).Keys == LineKeys(lines) && DIRECT_KEY !in LineKeys(lines)
    ensures forall k :: k in LineKeys(lines) ==>
              && ByKey(eps)[k].manualPresent == source.None?
              && ByKey(eps)[k].subscriptionSources == (if source.Some? then {source.value} else {})
              && IsMadeOf(ByKey(eps)[k], lines, source)
  {
    forall j | 0 <= j < |eps|
      ensures Tidy(eps[j]) && eps[j].key != DIRECT_KEY && (eps[j].manualPresent <==> source.None?)
      ensures eps[j].subscriptionSources == (if source.Some? then {source.value} else {})
    {
      assert IsMadeOf(eps[j], lines, source);
      var i: nat :| IsFirst(lines, i) && eps[j] == MakeEndpoint(lines[i].value, source);
    }
    assert ByKey(eps).Keys == Keys(eps);
  }
}
