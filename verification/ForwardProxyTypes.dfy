/** Forward-proxy endpoints, their runtime health and the settings that list them. */
module ForwardProxyTypes {
  import opened Wrappers

  const DIRECT_KEY := "__direct__"

  datatype Protocol = Direct | Http | Https | Socks5 | Socks5h | Vmess | Vless | Trojan | Shadowsocks {
    function Name(): string {
      match this
      case Direct => "direct"
      case Http => "http"
      case Https => "https"
      case Socks5 => "socks5"
      case Socks5h => "socks5h"
      case Vmess => "vmess"
      case Vless => "vless"
      case Trojan => "trojan"
      case Shadowsocks => "ss"
    }
  }

  datatype Endpoint = Endpoint(
    key: string,
    source: string,
    displayName: string,
    protocol: Protocol,
    endpointUrl: Option<string>,
    rawUrl: Option<string>,
    usesLocalRelay: bool,
    manualPresent: bool,
    subscriptionSources: set<string>)
  {
    predicate IsDirect() { protocol.Direct? }

    predicate IsSelectable() { protocol.Direct? || endpointUrl.Some? }

    predicate IsSubscriptionBacked() { subscriptionSources != {} }

    function SourceLabel(): string {
      if IsDirect() then "direct"
      else if manualPresent then "manual"
      else if subscriptionSources != {} then "subscription"
      else "manual"
    }

    function RefreshSource(): Endpoint { this.(source := SourceLabel()) }

    /** Merges a second listing of the same key into this one. */
    function AbsorbDuplicate(other: Endpoint): Endpoint {
      var merged := this.(
        manualPresent := manualPresent || other.manualPresent,
        subscriptionSources := subscriptionSources + other.subscriptionSources,
        usesLocalRelay := usesLocalRelay || other.usesLocalRelay);
      var preferred :=
        if !manualPresent && other.manualPresent then
          merged.(displayName := other.displayName, protocol := other.protocol, endpointUrl := other.endpointUrl,
                  rawUrl := other.rawUrl, usesLocalRelay := other.usesLocalRelay)
        else merged;
      preferred.RefreshSource()
    }
  }

  function DirectEndpoint(): Endpoint {
    Endpoint(DIRECT_KEY, "direct", "Direct", Direct, None, None, false, false, {})
  }

  /** A proxy URL as it parses; its normalised form is the endpoint's key. */
  datatype ParsedEntry = ParsedEntry(normalized: string, displayName: string, protocol: Protocol,
                                     endpointUrl: Option<string>)

  /** No proxy URL parses to the direct route. */
  type Entry = e: ParsedEntry | e.normalized != DIRECT_KEY && !e.protocol.Direct?
    witness ParsedEntry("", "", Http, None)

  /** One line of a list of proxy URLs; `None` if it does not parse. */
  type Line = Option<Entry>

  function ManualEndpoint(e: Entry): Endpoint {
    Endpoint(e.normalized, "manual", e.displayName, e.protocol, e.endpointUrl, Some(e.normalized), false, true, {})
  }

  function SubscriptionEndpoint(e: Entry, source: string): Endpoint {
    Endpoint(e.normalized, "subscription", e.displayName, e.protocol, e.endpointUrl, Some(e.normalized), false, false,
             {source})
      .RefreshSource()
  }

  datatype Settings = Settings(proxyUrls: seq<Line>, subscriptionUrls: seq<string>, insertDirect: bool)

  // ---- Runtime health ---------------------------------------------------------------------------

  const WEIGHT_RECOVERY := 0.6
  const SUCCESS_BONUS := 0.45
  const PENALTY_BASE := 0.9
  const PENALTY_STEP := 0.35
  const WEIGHT_MIN := -12.0
  const WEIGHT_MAX := 12.0
  const PROBE_EVERY_REQUESTS := 100
  const PROBE_INTERVAL_SECS := 1800
  const PROBE_RECOVERY_WEIGHT := 0.4
  const U32_MAX := 0xFFFF_FFFF
  const U64_MAX := 0xFFFF_FFFF_FFFF_FFFF

  datatype Runtime = Runtime(
    proxyKey: string,
    displayName: string,
    source: string,
    kind: string,
    endpointUrl: Option<string>,
    available: bool,
    lastError: Option<string>,
    weight: real,
    successEma: real,
    latencyEmaMs: Option<real>,
    consecutiveFailures: nat)
  {
    predicate IsPenalized() { weight <= 0.0 }

    /** The bounds that every operation keeps. */
    predicate Valid() {
      && WEIGHT_MIN <= weight <= WEIGHT_MAX
      && 0.0 <= successEma <= 1.0
      && (latencyEmaMs.Some? ==> 0.0 <= latencyEmaMs.value)
      && consecutiveFailures <= U32_MAX
    }
  }

  function Clamp(x: real, low: real, high: real): real {
    if x < low then low else if x > high then high else x
  }

  /** A row of the runtime table. */
  datatype StoredRuntime = StoredRuntime(
    proxyKey: string,
    displayName: string,
    source: string,
    endpointUrl: Option<string>,
    weight: real,
    successEma: real,
    latencyEmaMs: Option<real>,
    consecutiveFailures: int)

  /** Whatever is stored, the restored health is within bounds. (The cast to 32 bits keeps the low ones.) */
  function Restore(row: StoredRuntime): (r: Runtime)
    ensures r.Valid() && r.proxyKey == row.proxyKey
    ensures WEIGHT_MIN <= row.weight <= WEIGHT_MAX ==> r.weight == row.weight
  {
    Runtime(row.proxyKey, row.displayName, row.source, "unknown", row.endpointUrl, true, None,
            Clamp(row.weight, WEIGHT_MIN, WEIGHT_MAX), Clamp(row.successEma, 0.0, 1.0),
            if row.latencyEmaMs.Some? && row.latencyEmaMs.value >= 0.0 then row.latencyEmaMs else None,
            if row.consecutiveFailures < 0 then 0 else row.consecutiveFailures % (U32_MAX + 1))
  }

  /** What is stored within bounds is restored as it was; a weight or average beyond them is restored as the nearest
      bound, a negative latency as none. */
  lemma RestoreIsNearest(row: StoredRuntime)
    ensures var r := Restore(row);
            && (-12.0 <= row.weight <= 12.0 ==> r.weight == row.weight)
            && (row.weight < -12.0 ==> r.weight == -12.0) && (row.weight > 12.0 ==> r.weight == 12.0)
            && (0.0 <= row.successEma <= 1.0 ==> r.successEma == row.successEma)
            && (row.successEma < 0.0 ==> r.successEma == 0.0) && (row.successEma > 1.0 ==> r.successEma == 1.0)
            && (row.latencyEmaMs.Some? && row.latencyEmaMs.value < 0.0 ==> r.latencyEmaMs == None)
            && (row.latencyEmaMs.Some? && row.latencyEmaMs.value >= 0.0 ==> r.latencyEmaMs == row.latencyEmaMs)
            && (0 <= row.consecutiveFailures < 0x1_0000_0000 ==> r.consecutiveFailures == row.consecutiveFailures)
            && (row.consecutiveFailures < 0 ==> r.consecutiveFailures == 0)
  {
  }

  function RouteText(e: Endpoint): Option<string> {
    if e.endpointUrl.Some? then e.endpointUrl else e.rawUrl
  }

  function Unavailability(e: Endpoint): Option<string> {
    if e.IsSelectable() then None else Some("xray_missing")
  }

  function DefaultRuntime(e: Endpoint): (r: Runtime)
    ensures r.Valid() && r.proxyKey == e.key && r.weight > 0.0
  {
    Runtime(e.key, e.displayName, e.source, e.protocol.Name(), RouteText(e), e.IsSelectable(), Unavailability(e),
            if e.key == DIRECT_KEY then 1.0 else 0.8, 0.65, None, 0)
  }
}
