/** How attempts move the weight of an endpoint, and the repair that keeps some selectable endpoint positive. */
module ForwardProxyWeights {
  import opened Wrappers
  import opened Sorting
  import opened ForwardProxyTypes
  import opened ForwardProxyProvenance

  type RuntimeMap = map<string, Runtime>

  /** Every endpoint has a runtime entry, filed under its own key and within bounds. */
  predicate ValidRuntime(eps: seq<Endpoint>, rt: RuntimeMap) {
    && (forall k :: k in rt ==> rt[k].proxyKey == k && rt[k].Valid())
    && Keys(eps) <= rt.Keys
  }

  function SelectableKeys(eps: seq<Endpoint>): set<string> {
    set i | 0 <= i < |eps| && eps[i].IsSelectable() :: eps[i].key
  }

  /** The runtime entries of selectable endpoints. */
  function Selectable(eps: seq<Endpoint>, rt: RuntimeMap): set<string> {
    SelectableKeys(eps) * rt.Keys
  }

  predicate HasPositive(eps: seq<Endpoint>, rt: RuntimeMap) {
    exists k :: k in Selectable(eps, rt) && rt[k].weight > 0.0
  }

  predicate IsHeaviest(rt: RuntimeMap, keys: set<string>, k: string)
    requires keys <= rt.Keys
  {
    k in keys && forall j :: j in keys ==> rt[j].weight <= rt[k].weight
  }

  /** The repair: nothing changes, unless every selectable endpoint is penalised; then one of the heaviest of them,
      and no other entry, is lifted to the recovery weight. */
  ghost predicate IsRepaired(eps: seq<Endpoint>, rt: RuntimeMap, after: RuntimeMap) {
    if HasPositive(eps, rt) || Selectable(eps, rt) == {} then after == rt
    else exists k :: IsHeaviest(rt, Selectable(eps, rt), k) && after == rt[k := rt[k].(weight := PROBE_RECOVERY_WEIGHT)]
  }

  function WeightOf(rt: RuntimeMap, k: string): real {
    if k in rt then rt[k].weight else 0.0
  }

  function Heavier(rt: RuntimeMap): (string, string) -> bool {
    (x, y) => WeightOf(rt, x) >= WeightOf(rt, y)
  }

  method EnsureNonZeroWeight(eps: seq<Endpoint>, rt: RuntimeMap) returns (after: RuntimeMap)
    ensures IsRepaired(eps, rt, after)
  {
    var keys := Selectable(eps, rt);
    var positiveCount := if HasPositive(eps, rt) then 1 else 0;
    after := rt;
    if positiveCount >= 1 {
      return;
    }
    var listed := InAnyOrder(keys);
    var candidates := SortBy(Heavier(rt), listed);
    SortByKeeps(Heavier(rt), listed);
    for n := 0 to |candidates|
      invariant positiveCount == 0 && n == 0 && after == rt
    {
      var key := candidates[n];
      assert IsHeaviest(rt, keys, key) by {
        HeaviestFirst(rt, keys, candidates);
      }
      if after[key].weight <= 0.0 {
        after := after[key := after[key].(weight := PROBE_RECOVERY_WEIGHT)];
        positiveCount := positiveCount + 1;
      }
      if positiveCount >= 1 {
        break;
      }
    }
  }

  lemma HeaviestFirst(rt: RuntimeMap, keys: set<string>, candidates: seq<string>)
    requires keys <= rt.Keys && candidates != [] && Sorted(Heavier(rt), candidates)
    requires forall k :: k in candidates <==> k in keys
    ensures IsHeaviest(rt, keys, candidates[0])
  {
    forall j | j in keys ensures rt[j].weight <= rt[candidates[0]].weight {
      var i :| 0 <= i < |candidates| && candidates[i] == j;
      assert i > 0 ==> Heavier(rt)(candidates[0], candidates[i]);
    }
    assert candidates[0] in candidates;
  }

  /** After the repair the bounds hold, and some selectable entry is positive unless there is none to lift. */
  lemma RepairRestores(eps: seq<Endpoint>, rt: RuntimeMap, after: RuntimeMap)
    requires IsRepaired(eps, rt, after)
    ensures after.Keys == rt.Keys
    ensures HasPositive(eps, after) || Selectable(eps, after) == {}
    ensures ValidRuntime(eps, rt) ==> ValidRuntime(eps, after)
    ensures forall k :: k in rt && rt[k].weight > 0.0 ==> after[k] == rt[k]
    ensures forall k :: k in rt ==> after[k].weight >= rt[k].weight && after[k] == rt[k].(weight := after[k].weight)
    ensures forall k, j :: k in rt && j in rt && after[k] != rt[k] && after[j] != rt[j] ==> k == j
  {
    if !(HasPositive(eps, rt) || Selectable(eps, rt) == {}) {
      var k :| IsHeaviest(rt, Selectable(eps, rt), k) && after == rt[k := rt[k].(weight := PROBE_RECOVERY_WEIGHT)];
      assert k in Selectable(eps, after) && after[k].weight > 0.0;
      assert rt[k].weight <= 0.0;
    }
  }

  // ---- Attempts ---------------------------------------------------------------------------------

  /** The penalty of a failure, given the failures in a row up to and including it. */
  function Penalty(failures: nat): real {
    PENALTY_BASE + (if failures == 0 then 0 else failures - 1) as real * PENALTY_STEP
  }

  function LatencyPenalty(ema: Option<real>): real {
    if ema.None? then 0.0 else if ema.value / 2500.0 < 0.6 then ema.value / 2500.0 else 0.6
  }

  function WithEma(r: Runtime, success: bool, latencyMs: Option<real>): Runtime {
    var ema := r.successEma * 0.9 + if success then 0.1 else 0.0;
    var latency :=
      if latencyMs.None? || latencyMs.value < 0.0 then r.latencyEmaMs
      else Some(if r.latencyEmaMs.Some? then r.latencyEmaMs.value * 0.8 + latencyMs.value * 0.2 else latencyMs.value);
    r.(successEma := ema, latencyEmaMs := latency)
  }

  method RecordOutcome(entry: Runtime, success: bool, latencyMs: Option<real>, failureKind: Option<string>)
    returns (r: Runtime)
    ensures r == Attempted(entry, success, latencyMs, failureKind)
  {
    r := WithEma(entry, success, latencyMs);
    if success {
      r := r.(consecutiveFailures := 0, available := true, lastError := None);
      r := r.(weight := r.weight + (SUCCESS_BONUS - LatencyPenalty(r.latencyEmaMs)));
      if r.weight <= 0.0 {
        r := r.(weight := PROBE_RECOVERY_WEIGHT);
      }
    } else {
      r := r.(consecutiveFailures := SaturatingAdd32(r.consecutiveFailures), available := false,
              lastError := failureKind);
      r := r.(weight := r.weight - Penalty(r.consecutiveFailures));
    }
    r := r.(weight := Clamp(r.weight, WEIGHT_MIN, WEIGHT_MAX));
    if success && r.weight < WEIGHT_RECOVERY {
      r := r.(weight := Max(r.weight, WEIGHT_RECOVERY * 0.5));
    }
  }

  function Max(x: real, y: real): real { if x < y then y else x }

  function Min(x: real, y: real): real { if x < y then x else y }

  function SaturatingAdd32(n: nat): nat { if n < U32_MAX then n + 1 else n }

  function RewardedWeight(weight: real, latency: Option<real>): real {
    var raised := weight + SUCCESS_BONUS - LatencyPenalty(latency);
    Min(WEIGHT_MAX, if raised <= 0.0 then PROBE_RECOVERY_WEIGHT else Max(raised, 0.3))
  }

  /** The entry after an attempt: a failure takes its penalty down to the floor, a success resets the failures. */
  function Attempted(r: Runtime, success: bool, latencyMs: Option<real>, failureKind: Option<string>): Runtime {
    var seen := WithEma(r, success, latencyMs);
    if success then
      seen.(consecutiveFailures := 0, available := true, lastError := None,
            weight := RewardedWeight(r.weight, seen.latencyEmaMs))
    else
      var failures := SaturatingAdd32(r.consecutiveFailures);
      seen.(consecutiveFailures := failures, available := false, lastError := failureKind,
            weight := Clamp(r.weight - Penalty(failures), WEIGHT_MIN, WEIGHT_MAX))
  }

  /** Bounds are kept, and one success from any state leaves a weight of at least 0.3. */
  lemma AttemptKeepsBounds(r: Runtime, success: bool, latencyMs: Option<real>, failureKind: Option<string>)
    requires r.Valid()
    ensures Attempted(r, success, latencyMs, failureKind).Valid()
    ensures Attempted(r, success, latencyMs, failureKind).proxyKey == r.proxyKey
    ensures success ==> Attempted(r, success, latencyMs, failureKind).weight >= 0.3
    ensures !success ==> Attempted(r, success, latencyMs, failureKind).weight <= r.weight
  {
  }

  /** One recorded attempt on a known key: its entry is updated, then the repair runs. An unknown key is ignored. */
  ghost predicate IsAttempt(eps: seq<Endpoint>, rt: RuntimeMap, key: string, success: bool, latencyMs: Option<real>,
                            failureKind: Option<string>,
                            after: RuntimeMap)
  {
    if key in Keys(eps) && key in rt then
      IsRepaired(eps, rt[key := Attempted(rt[key], success, latencyMs, failureKind)], after)
    else after == rt
  }

  lemma AttemptKeepsRuntimeValid(eps: seq<Endpoint>, rt: RuntimeMap, key: string, success: bool,
                                 latencyMs: Option<real>,
                                 failureKind: Option<string>, after: RuntimeMap)
    requires ValidRuntime(eps, rt) && IsAttempt(eps, rt, key, success, latencyMs, failureKind, after)
    ensures ValidRuntime(eps, after) && after.Keys == rt.Keys
    ensures success && key in Keys(eps) ==> after[key].weight >= 0.3
  {
    hide Attempted, IsRepaired, SelectableKeys, HasPositive;
    if key in Keys(eps) {
      AttemptKeepsBounds(rt[key], success, latencyMs, failureKind);
      RepairRestores(eps, rt[key := Attempted(rt[key], success, latencyMs, failureKind)], after);
    }
  }

  /** A sample of the latency that counts. */
  predicate IsSample(latencyMs: Option<real>) {
    latencyMs.Some? && latencyMs.value >= 0.0
  }

  /** A success takes the success average a tenth of the way to one, a failure a tenth of the way to nothing. A sample
      takes the latency average a fifth of the way to itself, or is the first average; without one it stays. Nothing is
      measured of other keys. */
  lemma AttemptMovesAverages(eps: seq<Endpoint>, rt: RuntimeMap, key: string, success: bool, latencyMs: Option<real>,
                             failureKind: Option<string>, after: RuntimeMap)
    requires ValidRuntime(eps, rt) && key in Keys(eps)
    requires IsAttempt(eps, rt, key, success, latencyMs, failureKind, after)
    ensures after.Keys == rt.Keys && forall k :: k in rt && k != key ==> SameHealth(rt[k], after[k])
    ensures success ==> 1.0 - after[key].successEma == (1.0 - rt[key].successEma) * 0.9
    ensures success ==> rt[key].successEma <= after[key].successEma && after[key].consecutiveFailures == 0
    ensures !success ==> after[key].successEma == rt[key].successEma * 0.9
    ensures !success ==> after[key].successEma <= rt[key].successEma && after[key].consecutiveFailures > 0
    ensures !IsSample(latencyMs) ==> after[key].latencyEmaMs == rt[key].latencyEmaMs
    ensures IsSample(latencyMs) ==> after[key].latencyEmaMs.Some?
    ensures IsSample(latencyMs) && rt[key].latencyEmaMs.None? ==> after[key].latencyEmaMs == latencyMs
    ensures IsSample(latencyMs) && rt[key].latencyEmaMs.Some? ==>
              5.0 * (after[key].latencyEmaMs.value - rt[key].latencyEmaMs.value) ==
              latencyMs.value - rt[key].latencyEmaMs.value
  {
    assert rt[key].Valid();
    RepairRestores(eps, rt[key := Attempted(rt[key], success, latencyMs, failureKind)], after);
    hide ValidRuntime, IsRepaired, HasPositive, Selectable, RewardedWeight, Penalty;
  }

  /** What a latency average costs a success; without one, nothing. */
  function Latency(r: Runtime): real {
    r.latencyEmaMs.GetOr(0.0)
  }

  /** The raised weight before it is restarted, floored or clamped. */
  function Raised(weight: real, latency: real): real {
    if latency <= 1500.0 then weight + 0.45 - latency / 2500.0 else weight - 0.15
  }

  /** A success adds at most 0.45, and all of it without latency; a latency average takes off one for every 2500 ms, at
      1500 ms and beyond all but 0.15 more than the bonus. The weight ends up between 0.3 and 12; one that would not be
      positive is 0.4. */
  lemma SuccessIsRewarded(eps: seq<Endpoint>, rt: RuntimeMap, key: string, latencyMs: Option<real>,
                          failureKind: Option<string>, after: RuntimeMap)
    requires ValidRuntime(eps, rt) && key in Keys(eps)
    requires IsAttempt(eps, rt, key, true, latencyMs, failureKind, after)
    ensures var (w, latency) := (rt[key].weight, Latency(after[key]));
            var raised := Raised(w, latency);
            && after[key].weight <= Max(w + 0.45, 0.4)
            && (0.3 <= raised <= 12.0 ==> after[key].weight == raised)
            && (raised > 12.0 ==> after[key].weight == 12.0)
            && (0.0 < raised < 0.3 ==> after[key].weight == 0.3)
            && (raised <= 0.0 ==> after[key].weight == 0.4)
  {
    var attempted := rt[key := Attempted(rt[key], true, latencyMs, failureKind)];
    assert rt[key].Valid();
    AttemptKeepsBounds(rt[key], true, latencyMs, failureKind);
    RepairRestores(eps, attempted, after);
    assert after[key] == attempted[key];
    hide ValidRuntime, IsRepaired, HasPositive, Selectable;
  }

  /** Of two successes from equal weights the one with the lower latency average is rewarded no less, exactly unless
      the other one's sum is not positive, so that it restarts at 0.4, while its own is positive but less than that. */
  lemma FasterIsRewardedExactly(eps: seq<Endpoint>, a: RuntimeMap, b: RuntimeMap, key: string, latencyA: Option<real>,
                                latencyB: Option<real>, afterA: RuntimeMap, afterB: RuntimeMap)
    requires ValidRuntime(eps, a) && ValidRuntime(eps, b) && key in Keys(eps) && a[key].weight == b[key].weight
    requires IsAttempt(eps, a, key, true, latencyA, None, afterA)
    requires IsAttempt(eps, b, key, true, latencyB, None, afterB)
    requires Latency(afterA[key]) <= Latency(afterB[key])
    ensures var w, l, m := a[key].weight, Latency(afterA[key]), Latency(afterB[key]);
            afterA[key].weight >= afterB[key].weight <==> !(Raised(w, m) <= 0.0 < Raised(w, l) < 0.4)
  {
    hide ValidRuntime, IsAttempt, Latency;
    SuccessIsRewarded(eps, a, key, latencyA, None, afterA);
    SuccessIsRewarded(eps, b, key, latencyB, None, afterB);
  }

  /** From a weight of -0.1 a first success without delay ends at 0.35, and one that took 1500 ms at 0.4. */
  lemma SlowerMayGainMore(eps: seq<Endpoint>, rt: RuntimeMap, key: string, fast: RuntimeMap, slow: RuntimeMap)
    requires ValidRuntime(eps, rt) && key in Keys(eps) && rt[key].weight == -0.1 && rt[key].latencyEmaMs == None
    requires IsAttempt(eps, rt, key, true, Some(0.0), None, fast)
    requires IsAttempt(eps, rt, key, true, Some(1500.0), None, slow)
    ensures fast[key].weight == 0.35 && slow[key].weight == 0.4
  {
    hide ValidRuntime, IsAttempt;
    AttemptMovesAverages(eps, rt, key, true, Some(0.0), None, fast);
    AttemptMovesAverages(eps, rt, key, true, Some(1500.0), None, slow);
    SuccessIsRewarded(eps, rt, key, Some(0.0), None, fast);
    SuccessIsRewarded(eps, rt, key, Some(1500.0), None, slow);
  }

  // ---- Averages over runs -----------------------------------------------------------------------

  /** One step of a run: an attempt on `key`, an attempt on another key, or one that measures nothing. */
  datatype RunStep = Own(success: bool) | Other | Unmeasured

  ghost predicate IsHealthStep(eps: seq<Endpoint>, rt: RuntimeMap, key: string, step: RunStep, after: RuntimeMap) {
    match step
    case Own(success) =>
      ValidRuntime(eps, rt) && key in Keys(eps) &&
      exists latencyMs, failureKind :: IsAttempt(eps, rt, key, success, latencyMs, failureKind, after)
    case Other =>
      ValidRuntime(eps, rt) &&
      exists other, success, latencyMs, failureKind ::
        other != key && IsAttempt(eps, rt, other, success, latencyMs, failureKind, after)
    case Unmeasured => KeepsWeights(rt, after)
  }

  ghost predicate IsHealthRun(lists: seq<seq<Endpoint>>, states: seq<RuntimeMap>, steps: seq<RunStep>, key: string) {
    && |steps| == |lists| && |states| == |lists| + 1 && key in states[0]
    && forall i :: 0 <= i < |lists| ==> IsHealthStep(lists[i], states[i], key, steps[i], states[i + 1])
  }

  function Power(x: real, n: nat): real {
    if n == 0 then 1.0 else Power(x, n - 1) * x
  }

  function OwnSteps(steps: seq<RunStep>): nat {
    if steps == [] then 0
    else
      var n := |steps| - 1;
      OwnSteps(steps[..n]) + if steps[n].Own? then 1 else 0
  }

  /** After `n` successes what is missing from one has shrunk by 0.9^n; after `n` failures the average itself has. */
  predicate HasDecayed(success: bool, first: real, last: real, n: nat) {
    if success then 1.0 - last == (1.0 - first) * Power(0.9, n) else last == first * Power(0.9, n)
  }

  /** So it is in every run in which `key` only succeeds, or only fails, whatever happens to the others. */
  lemma {:induction false} AveragesDecay(lists: seq<seq<Endpoint>>, states: seq<RuntimeMap>, steps: seq<RunStep>,
                                         key: string, success: bool)
    requires IsHealthRun(lists, states, steps, key)
    requires forall i :: 0 <= i < |steps| && steps[i].Own? ==> steps[i].success == success
    ensures key in states[|lists|]
    ensures HasDecayed(success, states[0][key].successEma, states[|lists|][key].successEma, OwnSteps(steps))
    decreases |lists|
  {
    hide IsHealthStep;
    if lists != [] {
      hide HasDecayed;
      var m := |lists| - 1;
      AveragesDecay(lists[..m], states[..m + 1], steps[..m], key, success);
      HealthStep(lists[m], states[m], key, steps[m], states[m + 1]);
      DecaysFurther(success, states[0][key].successEma, states[m][key].successEma, states[m + 1][key].successEma,
                    OwnSteps(steps[..m]));
    }
  }

  lemma DecaysFurther(success: bool, first: real, mid: real, last: real, n: nat)
    requires HasDecayed(success, first, mid, n)
    ensures (if success then 1.0 - last == (1.0 - mid) * 0.9 else last == mid * 0.9) ==>
              HasDecayed(success, first, last, n + 1)
    ensures last == mid ==> HasDecayed(success, first, last, n)
  {
    var (x, p) := (if success then 1.0 - first else first, Power(0.9, n));
    assert x * p * 0.9 == x * (p * 0.9);
  }

  lemma HealthStep(eps: seq<Endpoint>, rt: RuntimeMap, key: string, step: RunStep, after: RuntimeMap)
    requires key in rt && IsHealthStep(eps, rt, key, step, after)
    ensures key in after
    ensures step == Own(true) ==> 1.0 - after[key].successEma == (1.0 - rt[key].successEma) * 0.9
    ensures step == Own(false) ==> after[key].successEma == rt[key].successEma * 0.9
    ensures !step.Own? ==> after[key].successEma == rt[key].successEma
  {
    hide ValidRuntime;
    match step
    case Own(success) =>
      var latencyMs, failureKind :| IsAttempt(eps, rt, key, success, latencyMs, failureKind, after);
      hide IsAttempt;
      AttemptMovesAverages(eps, rt, key, success, latencyMs, failureKind, after);
    case Other =>
      var other, success, latencyMs, failureKind :| other != key &&
        IsAttempt(eps, rt, other, success, latencyMs, failureKind, after);
      if other in Keys(eps) && other in rt {
        hide IsAttempt;
        AttemptMovesAverages(eps, rt, other, success, latencyMs, failureKind, after);
      }
    case Unmeasured =>
  }

  // ---- Failures in a row ------------------------------------------------------------------------

  ghost predicate IsFailure(eps: seq<Endpoint>, rt: RuntimeMap, key: string, after: RuntimeMap) {
    exists latencyMs, failureKind :: IsAttempt(eps, rt, key, false, latencyMs, failureKind, after)
  }

  predicate OtherPositive(eps: seq<Endpoint>, rt: RuntimeMap, key: string) {
    exists k :: k in Selectable(eps, rt) && k != key && rt[k].weight > 0.0
  }

  /** The penalties of `n` failures in a row after `c` earlier ones. */
  function PenaltySum(c: nat, n: nat): real {
    if n == 0 then 0.0 else PenaltySum(c, n - 1) + 0.9 + 0.35 * (c + n - 1) as real
  }

  lemma OneFailure(eps: seq<Endpoint>, rt: RuntimeMap, key: string, after: RuntimeMap)
    requires key in Keys(eps) && key in rt && IsFailure(eps, rt, key, after) && OtherPositive(eps, rt, key)
    ensures after.Keys == rt.Keys && forall k :: k in rt && k != key ==> after[k] == rt[k]
    ensures after[key].consecutiveFailures == SaturatingAdd32(rt[key].consecutiveFailures)
    ensures after[key].weight == Clamp(rt[key].weight - Penalty(SaturatingAdd32(rt[key].consecutiveFailures)),
                                       WEIGHT_MIN, WEIGHT_MAX)
  {
    hide WithEma;
    var latencyMs, failureKind :| IsAttempt(eps, rt, key, false, latencyMs, failureKind, after);
    var failed := rt[key := Attempted(rt[key], false, latencyMs, failureKind)];
    assert HasPositive(eps, failed) by {
      var k :| k in Selectable(eps, rt) && k != key && rt[k].weight > 0.0;
      assert k in Selectable(eps, failed);
    }
  }

  /** The same measured health; the weight aside. */
  predicate SameHealth(a: Runtime, b: Runtime) {
    a.successEma == b.successEma && a.latencyEmaMs == b.latencyEmaMs && a.consecutiveFailures == b.consecutiveFailures
  }

  /** Nothing is measured: routes may be resolved anew, and a repair may find nothing to do. */
  predicate KeepsWeights(rt: RuntimeMap, after: RuntimeMap) {
    && after.Keys == rt.Keys
    && forall k :: k in rt ==> after[k].weight == rt[k].weight && SameHealth(rt[k], after[k])
  }

  /** Either `key` fails while another selectable endpoint is positive, or nothing is measured. */
  ghost predicate IsRunStep(eps: seq<Endpoint>, rt: RuntimeMap, failing: bool, key: string, after: RuntimeMap) {
    if failing then key in Keys(eps) && OtherPositive(eps, rt, key) && IsFailure(eps, rt, key, after)
    else KeepsWeights(rt, after)
  }

  /** A run of such steps. The list of endpoints may be another at every one. */
  ghost predicate IsFailureRun(lists: seq<seq<Endpoint>>, states: seq<RuntimeMap>, failing: seq<bool>, key: string) {
    && |failing| == |lists| && |states| == |lists| + 1
    && key in states[0] && states[0][key].Valid()
    && forall i :: 0 <= i < |lists| ==> IsRunStep(lists[i], states[i], failing[i], key, states[i + 1])
  }

  function CountOf(failing: seq<bool>): nat {
    if failing == [] then 0
    else
      var n := |failing| - 1;
      CountOf(failing[..n]) + if failing[n] then 1 else 0
  }

  lemma RunBefore(lists: seq<seq<Endpoint>>, states: seq<RuntimeMap>, failing: seq<bool>, key: string)
    requires lists != [] && IsFailureRun(lists, states, failing, key)
    ensures var n := |lists| - 1; IsFailureRun(lists[..n], states[..n + 1], failing[..n], key)
  {
    hide IsRunStep;
  }

  /** The penalties of `n` failures of `key` have added up, down to the floor, and no other weight or failure count
      has changed. */
  predicate HasAddedUp(first: RuntimeMap, last: RuntimeMap, key: string, n: nat)
    requires key in first
  {
    var c := first[key].consecutiveFailures;
    && last.Keys == first.Keys
    && (forall k :: k in first && k != key ==> last[k].weight == first[k].weight && SameHealth(first[k], last[k]))
    && last[key].weight == Max(WEIGHT_MIN, first[key].weight - PenaltySum(c, n))
    && last[key].consecutiveFailures == (if c + n < U32_MAX then c + n else U32_MAX)
  }

  lemma {:induction false} FailuresAddUp(lists: seq<seq<Endpoint>>, states: seq<RuntimeMap>, failing: seq<bool>,
                                         key: string)
    requires IsFailureRun(lists, states, failing, key)
    ensures HasAddedUp(states[0], states[|lists|], key, CountOf(failing))
    decreases |lists|
  {
    hide IsRunStep, HasAddedUp;
    if lists == [] {
      NothingAdded(states[0], key);
    } else {
      var m := |lists| - 1;
      RunBefore(lists, states, failing, key);
      FailuresAddUp(lists[..m], states[..m + 1], failing[..m], key);
      AddOneMore(lists[m], states[0], states[m], failing[m], key, states[m + 1], CountOf(failing[..m]));
    }
  }

  lemma NothingAdded(first: RuntimeMap, key: string)
    requires key in first && first[key].Valid()
    ensures HasAddedUp(first, first, key, 0)
  {
  }

  lemma AddOneMore(eps: seq<Endpoint>, first: RuntimeMap, mid: RuntimeMap, failing: bool, key: string,
                   last: RuntimeMap, n: nat)
    requires key in first && first[key].Valid() && HasAddedUp(first, mid, key, n) &&
             IsRunStep(eps, mid, failing, key, last)
    ensures HasAddedUp(first, last, key, if failing then n + 1 else n)
  {
    hide IsFailure, OtherPositive, PenaltySum, Max, Penalty;
    if failing {
      OneFailure(eps, mid, key, last);
      PenaltyStep(first[key].consecutiveFailures, n, first[key].weight);
    }
  }

  lemma PenaltyStep(c: nat, n: nat, w: real)
    requires c <= U32_MAX && w <= WEIGHT_MAX
    ensures var failures := SaturatingAdd32(if c + n < U32_MAX then c + n else U32_MAX);
            Clamp(Max(WEIGHT_MIN, w - PenaltySum(c, n)) - Penalty(failures), WEIGHT_MIN, WEIGHT_MAX)
              == Max(WEIGHT_MIN, w - PenaltySum(c, n + 1))
  {
    PenaltyGrows(c, n);
  }

  lemma {:induction false} PenaltyGrows(c: nat, n: nat)
    ensures 0.0 <= PenaltySum(c, n)
    ensures PenaltySum(0, n) <= PenaltySum(c, n) <= PenaltySum(c, n + 1)
  {
    if n > 0 { PenaltyGrows(c, n - 1); }
  }

  lemma {:induction false} PenaltyAtLeast(c: nat, m: nat, n: nat)
    requires m <= n
    ensures PenaltySum(0, m) <= PenaltySum(c, n)
    decreases n
  {
    if m == n { PenaltyGrows(c, n); } else { PenaltyAtLeast(c, m, n - 1); PenaltyGrows(c, n - 1); }
  }

  /** Seven failures in a row penalise any endpoint, and ten take it to the floor. */
  lemma EnoughFailures(lists: seq<seq<Endpoint>>, states: seq<RuntimeMap>, failing: seq<bool>, key: string)
    requires IsFailureRun(lists, states, failing, key)
    ensures key in states[|lists|]
    ensures CountOf(failing) >= 7 ==> states[|lists|][key].IsPenalized()
    ensures CountOf(failing) >= 10 ==> states[|lists|][key].weight == WEIGHT_MIN
  {
    hide IsRunStep;
    FailuresAddUp(lists, states, failing, key);
    var c, n := states[0][key].consecutiveFailures, CountOf(failing);
    SevenAndTen();
    if n >= 7 { PenaltyAtLeast(c, 7, n); }
    if n >= 10 { PenaltyAtLeast(c, 10, n); }
  }

  lemma SevenAndTen()
    ensures PenaltySum(0, 6) == 10.65 && PenaltySum(0, 7) == 13.65 && PenaltySum(0, 10) == 24.75
  {
    assert PenaltySum(0, 2) == 2.15;
    assert PenaltySum(0, 4) == 5.7;
    assert PenaltySum(0, 6) == 10.65;
    assert PenaltySum(0, 8) == 17.0;
  }

  /** The last selectable endpoint is never left penalised: the repair lifts it again at once. */
  lemma LastSelectableIsLifted(eps: seq<Endpoint>, rt: RuntimeMap, key: string, after: RuntimeMap)
    requires key in Keys(eps) && key in rt && IsFailure(eps, rt, key, after) && Selectable(eps, rt) == {key}
    ensures var lowered := Clamp(rt[key].weight - Penalty(SaturatingAdd32(rt[key].consecutiveFailures)), WEIGHT_MIN,
                                 WEIGHT_MAX);
            after[key].weight == if lowered > 0.0 then lowered else PROBE_RECOVERY_WEIGHT
  {
    hide WithEma;
    var latencyMs, failureKind :| IsAttempt(eps, rt, key, false, latencyMs, failureKind, after);
    var failed := rt[key := Attempted(rt[key], false, latencyMs, failureKind)];
    assert Selectable(eps, failed) == {key};
  }
}
