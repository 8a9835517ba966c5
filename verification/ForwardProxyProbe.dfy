/** The probe protocol: when a penalised endpoint may be probed, over any run of events. */
module ForwardProxyProbe {
  import opened ForwardProxyTypes
  import opened ForwardProxyProvenance
  import opened ForwardProxyWeights

  datatype ProbeState = ProbeState(requests: nat, inFlight: bool, lastAt: int)

  /** A noted request; a call that may start a probe, with the time and whether some selectable endpoint is
      penalised; the end of a probe. */
  datatype ProbeEvent = Noted | MayStart(now: int, penalized: bool) | Finished(now: int)

  predicate Starts(s: ProbeState, e: ProbeEvent) {
    && e.MayStart? && e.penalized && !s.inFlight
    && (s.requests >= PROBE_EVERY_REQUESTS || e.now - s.lastAt >= PROBE_INTERVAL_SECS)
  }

  function Next(s: ProbeState, e: ProbeEvent): ProbeState {
    match e
    case Noted => s.(requests := if s.requests < U64_MAX then s.requests + 1 else s.requests)
    case MayStart(now, _) => if Starts(s, e) then ProbeState(0, true, now) else s
    case Finished(now) => s.(inFlight := false, lastAt := now)
  }

  function StateAt(first: ProbeState, events: seq<ProbeEvent>, n: nat): ProbeState
    requires n <= |events|
  {
    if n == 0 then first else Next(StateAt(first, events, n - 1), events[n - 1])
  }

  predicate StartsAt(first: ProbeState, events: seq<ProbeEvent>, i: nat) {
    i < |events| && Starts(StateAt(first, events, i), events[i])
  }

  function Notes(events: seq<ProbeEvent>, from: nat, to: nat): nat
    requires from <= to <= |events|
  {
    if from == to then 0 else Notes(events, from, to - 1) + if events[to - 1].Noted? then 1 else 0
  }

  /** Event `k` is the last end of a probe before event `n`. */
  predicate IsLastFinish(events: seq<ProbeEvent>, k: nat, n: nat) {
    k < n <= |events| && events[k].Finished? && forall m :: k < m < n ==> !events[m].Finished?
  }

  /** From a start on: a probe is in flight, or the clock counts from the last end; and only noted requests count. */
  lemma {:induction false} AfterStart(first: ProbeState, events: seq<ProbeEvent>, i: nat, n: nat)
    requires StartsAt(first, events, i) && i < n <= |events|
    ensures var s := StateAt(first, events, n);
            && s.requests <= Notes(events, i + 1, n)
            && (s.inFlight || exists k: nat :: i < k && IsLastFinish(events, k, n) && s.lastAt == events[k].now)
    decreases n
  {
    if n > i + 1 {
      AfterStart(first, events, i, n - 1);
      var s := StateAt(first, events, n - 1);
      if events[n - 1].Finished? {
        assert IsLastFinish(events, n - 1, n);
      } else if !s.inFlight {
        var k: nat :| i < k && IsLastFinish(events, k, n - 1) && s.lastAt == events[k].now;
        assert IsLastFinish(events, k, n);
      }
    }
  }

  /** Between two probe starts a probe ends, and either a hundred requests were noted since the earlier start or
      half an hour has passed since the last end. */
  lemma ProbesAreSpaced(first: ProbeState, events: seq<ProbeEvent>, i: nat, j: nat)
    requires i < j && StartsAt(first, events, i) && StartsAt(first, events, j)
    ensures exists k: nat :: i < k && IsLastFinish(events, k, j) &&
              (Notes(events, i + 1, j) >= 100 || events[j].now - events[k].now >= 1800)
  {
    AfterStart(first, events, i, j);
  }

  ghost predicate HasFinish(events: seq<ProbeEvent>, from: nat, to: nat) {
    exists k: nat :: from < k && IsLastFinish(events, k, to)
  }

  /** While nothing else starts: exactly the noted requests count, up to 64 bits; a probe is in flight until one ends,
      and the clock counts from the last end. */
  lemma {:induction false} SinceStart(first: ProbeState, events: seq<ProbeEvent>, i: nat, n: nat)
    requires StartsAt(first, events, i) && i < n <= |events|
    requires forall m :: i < m < n ==> !StartsAt(first, events, m)
    ensures var s := StateAt(first, events, n);
            && s.requests == (if Notes(events, i + 1, n) < U64_MAX then Notes(events, i + 1, n) else U64_MAX)
            && (s.inFlight <==> !HasFinish(events, i, n))
            && (forall k: nat :: i < k && IsLastFinish(events, k, n) ==> s.lastAt == events[k].now)
    decreases n
  {
    if n > i + 1 {
      SinceStart(first, events, i, n - 1);
      assert !StartsAt(first, events, n - 1);
      FinishOneMore(events, i, n);
      hide HasFinish, IsLastFinish;
    } else {
      assert !HasFinish(events, i, n);
    }
  }

  lemma FinishOneMore(events: seq<ProbeEvent>, i: nat, n: nat)
    requires i + 1 < n <= |events|
    ensures events[n - 1].Finished? ==>
              HasFinish(events, i, n) && forall k: nat :: IsLastFinish(events, k, n) <==> k == n - 1
    ensures !events[n - 1].Finished? ==>
              && (HasFinish(events, i, n) <==> HasFinish(events, i, n - 1))
              && forall k: nat :: IsLastFinish(events, k, n) <==> IsLastFinish(events, k, n - 1)
  {
    if events[n - 1].Finished? {
      assert IsLastFinish(events, n - 1, n);
    } else {
      forall k: nat ensures IsLastFinish(events, k, n) <==> IsLastFinish(events, k, n - 1) {
        if IsLastFinish(events, k, n - 1) {
          forall m | k < m < n ensures !events[m].Finished? {
          }
        }
      }
      if HasFinish(events, i, n) {
        var k: nat :| i < k && IsLastFinish(events, k, n);
        assert IsLastFinish(events, k, n - 1);
      }
      if HasFinish(events, i, n - 1) {
        var k: nat :| i < k && IsLastFinish(events, k, n - 1);
        assert IsLastFinish(events, k, n);
      }
    }
  }

  /** After one start the next is the first call, with a selectable endpoint penalised, by which the probe has ended and
      either a hundred requests have been noted since it started or half an hour has passed since it ended. */
  lemma NextStartExactly(first: ProbeState, events: seq<ProbeEvent>, i: nat, j: nat)
    requires i < j < |events| && StartsAt(first, events, i) && forall m :: i < m < j ==> !StartsAt(first, events, m)
    ensures StartsAt(first, events, j) <==>
            && events[j].MayStart? && events[j].penalized
            && exists k: nat :: i < k && IsLastFinish(events, k, j) &&
                 (Notes(events, i + 1, j) >= 100 || events[j].now - events[k].now >= 1800)
  {
    hide IsLastFinish, Notes, StateAt;
    SinceStart(first, events, i, j);
  }

  // ---- Which endpoint is probed -----------------------------------------------------------------

  /** The selectable endpoints whose weight is not positive. */
  function Penalized(eps: seq<Endpoint>, rt: RuntimeMap): set<string> {
    set k | k in Selectable(eps, rt) && rt[k].IsPenalized()
  }

  predicate IsProbeChoice(eps: seq<Endpoint>, rt: RuntimeMap, e: Endpoint) {
    e in eps && e.IsSelectable() && IsHeaviest(rt, Penalized(eps, rt), e.key)
  }

  /** An endpoint with a route, or the direct one, whose weight is not positive. */
  predicate IsWeak(eps: seq<Endpoint>, rt: RuntimeMap, e: Endpoint) {
    e in eps && (e.protocol.Direct? || e.endpointUrl.Some?) && e.key in rt && rt[e.key].weight <= 0.0
  }

  /** The one probed is such an endpoint, and no other weighs more; without any there is nothing to probe. */
  lemma ProbeChoiceExactly(eps: seq<Endpoint>, rt: RuntimeMap, e: Endpoint)
    ensures IsProbeChoice(eps, rt, e) <==>
            IsWeak(eps, rt, e) && forall f :: IsWeak(eps, rt, f) ==> rt[f.key].weight <= rt[e.key].weight
    ensures Penalized(eps, rt) != {} <==> exists f :: IsWeak(eps, rt, f)
  {
    forall f | IsWeak(eps, rt, f) ensures f.key in Penalized(eps, rt) {
      var i :| 0 <= i < |eps| && eps[i] == f;
      assert eps[i].IsSelectable() && eps[i].key in SelectableKeys(eps);
    }
    forall k | k in Penalized(eps, rt) ensures exists f :: IsWeak(eps, rt, f) && f.key == k {
      var i :| 0 <= i < |eps| && eps[i].IsSelectable() && eps[i].key == k;
      assert IsWeak(eps, rt, eps[i]);
    }
  }

  method HeaviestPenalized(eps: seq<Endpoint>, rt: RuntimeMap) returns (key: string)
    requires Penalized(eps, rt) != {}
    ensures IsHeaviest(rt, Penalized(eps, rt), key)
  {
    var keys := Penalized(eps, rt);
    var left := keys;
    key :| key in left;
    left := left - {key};
    while left != {}
      invariant left <= keys && key in keys
      invariant forall k :: k in keys - left ==> rt[k].weight <= rt[key].weight
      decreases left
    {
      var k :| k in left;
      if rt[k].weight >= rt[key].weight {
        key := k;
      }
      left := left - {k};
    }
  }
}
