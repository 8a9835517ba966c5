# Verified model of the Tavily proxy

This project models the hard logic of a proxy that shares a pool of Tavily API keys among many users, and proves
what that logic keeps. It is written in Dafny; `dafny verify dfyconfig.toml` checks all of it.

**Forward proxies.** Upstream requests leave through one of many proxy endpoints. A manager keeps the endpoint list
(from manual URLs and from subscriptions), the measured health and weight of every endpoint, a selection counter and
the state of a probe. `ForwardProxy` holds the manager as a class; around it, `ForwardProxyTypes` the data,
`ForwardProxyProvenance` where endpoints come from, `ForwardProxyRebuild` and `ForwardProxyIncremental` the slow and
the fast way to apply settings, `ForwardProxyUpdates` the comparison of the two over whole runs,
`ForwardProxyWeights` attempts and the repair, `ForwardProxySelection` weighted selection, `ForwardProxyProbe` the
probe protocol over event traces and `ForwardProxyRanking` the ranking for a subject. Weights are reals. What a proxy
URL parses to, the pseudo-random numbers, the clock and the outcome of resolving a route are parameters.

**Log repairs.** `RetryRepair` pairs request logs that a rejected argument doubled with the retries that replaced
them; `GreedyMatching` is the theory of its greedy pairing. `SearchRepair` pairs search logs with their request logs
by sorting.

**MCP billing.** `McpBilling` scans a JSON-RPC request (section 6 of the JSON-RPC 2.0 Specification covers batches)
for what it may cost, `McpCharge` computes what its response does cost, `McpBillable` states the handler's verdict and
`McpFiling` compares it with the taxonomy of the logs in `RequestKinds` and `KindKeys`. The price list and the readers of usage and errors inside a message are
parameters.

**Quota.** `BusinessQuota` has the admission verdict, the gate, settlement and runs of gated and charged requests, over
the bucketed counters of `Buckets`. `QuotaLedger` compares the counters with the charged log rows, `QuotaRebase`
rewrites the monthly tables from those rows and `QuotaAudit` reports the differences.

**Classifiers and their SQL.** The logs are filtered by SQL expressions that repeat classifiers written in code. `Sql`
gives the generated fragment a syntax and a three-valued meaning; `OperationalClass` has both classifiers of the
operational class and `SqlTwin` their agreement; `RequestKindSql` does the same for the request kind.

**Affinity and progress.** `TokenAffinity` is the bounded, lazily expiring cache of token-to-key affinities.
`ProgressStream`, `ProgressCuts` and `ProgressChunk` are the incremental reader of the progress event stream (compare section 9.2.6 of
the WHATWG HTML Living Standard).

`Json`, `Text`, `Sorting`, `Sums` and `Wrappers` are shared helpers.

## Where the code falls short of its promise

- The affinity cache exceeds its hard cap by one entry: `TokenAffinityState.RecordMapping` states exactly when, and
  `HardCapIsExceeded` is a run that gets there.
- The handler bills some requests that the log taxonomy files as non-billable, such as those with an unknown method
  (`UnknownMethodIsBilledButNotFiled`); `VerdictsAgree` names exactly these requests, and the other direction holds
  (`TaxonomyBillableIsBilled`).
- The SQL and the code put a batch with a miscased call of a Tavily tool into different classes; they file a miscased
  message, and a batch that mixes messages with and without a method, under different kinds. `ClassSqlAgrees` and
  `LogKindSqlAgrees` say for plain messages exactly when they agree, `MiscasedCallParts`, `MiscasedPingParts` and
  `MixedBatchParts` are logs on which they do not.
- An incremental settings update keeps a listing that a freshly fetched subscription has dropped.
  `UpdateIsReplacement` says exactly when that shows. Only added subscriptions are fetched, so it takes a save that
  drops a subscription and fails before it updates the list; `StaleListingStays` is such a run.
- The progress reader loses a character after a CRLF line end that is followed by a bare LF, depending on how the text
  was cut: `CutIsHarmless` says exactly when for one cut, `MayBeCutExactly` for a text with any continuation and
  `CutsAgreeExactly` for a whole text; in
  `MixedBoundaryLosesEvent` a whole event is lost.
- The check before a rebase accepts a billing subject that the rebase then rejects (`CheckedSubjectMayNotParse`), exactly
  if its prefix is written in other letters (`CheckedSubjectParses`).
- The window reported for a blocked request need not be the longest one without room: the longest of the most urgent
  ones is (`MostUrgentIsReported`). `LongestWindowIsReported` says exactly when the two are the same, and
  `ShorterWindowIsReported` is a request for which they are not.
- A success may be rewarded more for being slow: a raised weight that is still not positive restarts at 0.4, one that
  is barely positive stays below. `FasterIsRewardedExactly` says exactly when, `SlowerMayGainMore` is such a pair.
- With a limit at the largest 64-bit number the saturating addition of the quota gate never blocks: `GateIsExact` and
  the run lemmas carry that case, and `PeggedLimitAdmits` is such a request.

## Model

| member | source | states |
|---|---|---|
| ForwardProxyTypes.Restore | src/forward_proxy.rs:596-624 | Whatever a stored runtime row holds, the restored weight, success average, latency average and failure count are within bounds, and a weight already within bounds is kept. |
| ForwardProxyTypes.RestoreIsNearest | src/forward_proxy.rs:596-624 | What is stored within bounds is restored as it was, a weight or success average beyond them as the nearest bound, a negative latency as none. |
| ForwardProxyProvenance.ProvenanceDetermines | src/forward_proxy.rs:366-376 | For a tidy endpoint list the key set, and for each key its manual flag, its subscription sources and its label, follow from the manual keys, the (source, key) listings and the presence of Direct. |
| ForwardProxyProvenance.NormalizeEndpoints | src/forward_proxy.rs:2768-2813 | A list of proxy URLs yields one endpoint for each key that some line parses to, made of the first such line. |
| ForwardProxyRebuild.MergeListings | src/forward_proxy.rs:685-699 | The merging loop with its position index computes the merge of the listings in order. |
| ForwardProxyRebuild.MergedProvenance | src/forward_proxy.rs:404-418 | Absorbing duplicates loses no manual mark and no subscription listing and invents none, in whatever order the listings come. |
| ForwardProxyRebuild.FirstListingRoutes | src/forward_proxy.rs:404-418 | When manual listings come first, every key is named and reached as its first listing says. |
| ForwardProxyRebuild.RebuildList | src/forward_proxy.rs:685-706 | A rebuild offers exactly the manual URLs and the given listings, adds Direct when asked for or when there is nothing else and nothing configured, and takes each route from the manual line or else the first listing. |
| ForwardProxyRebuild.DirectIsOffered | src/forward_proxy.rs:700-706 | Direct is offered exactly if it is asked for or nothing at all is configured or listed; the list is empty exactly if something is configured, but no line parses, nothing is listed and Direct is not asked for. |
| ForwardProxyRebuild.CollectListings | src/forward_proxy.rs:670-680 | Whatever order the subscription map is traversed in, exactly the listings of its lists are collected. |
| ForwardProxyIncremental.RetainListed | src/forward_proxy.rs:760-779 | The first stage keeps exactly the non-direct endpoints that are listed manually or by a desired subscription, relisted accordingly. |
| ForwardProxyIncremental.MergeManual | src/forward_proxy.rs:781-795 | The second stage overlays the manual lines in any order: a known endpoint is renamed but keeps its route, the others are added. |
| ForwardProxyIncremental.MergeFetched | src/forward_proxy.rs:797-815 | The third stage adds every fetched source to every key its list holds, in any order of the sources; new keys come from a first line of some list. |
| ForwardProxyIncremental.UpdateList | src/forward_proxy.rs:740-829 | An incremental update has the provenance of a rebuild from the manual URLs, the retained listings of desired subscriptions and the fetched lists, and a surviving endpoint keeps its resolved URL and relay. |
| ForwardProxyUpdates.UpdateIsRebuild | src/forward_proxy.rs:735-829 | An incremental update and a full rebuild from the same listings offer the same keys with the same manual flag, sources and label. |
| ForwardProxyUpdates.UpdateIsReplacement | src/forward_proxy.rs:797-815 | Keeping old listings beside fetched ones equals replacing them if and only if no fetched list dropped a key that its source listed before. |
| ForwardProxy.StaleListingStays | src/tavily_proxy/mod.rs:482-537 | A run of the manager's own operations after which a stale listing is offered, where replacing would offer none. |
| ForwardProxyUpdates.ListingsInForce | src/forward_proxy.rs:735-829 | After any run of updates a source lists a key exactly if some update fetched it, or it was there at first, and every later update desired the source. |
| ForwardProxyUpdates.RunIsRebuild | src/forward_proxy.rs:735-829 | After any run of updates, with routes resolved anew in between, the list offers what a rebuild from the last manual URLs and the listings in force would. |
| ForwardProxyUpdates.ResolvedKeepsProvenance | src/forward_proxy.rs:1400-1442 | Resolving routes changes neither keys nor provenance. |
| ForwardProxyWeights.EnsureNonZeroWeight | src/forward_proxy.rs:858-888 | The repair changes nothing if a selectable entry is positive or none exists; else it lifts one entry, of maximal weight among the selectable, to 0.4. |
| ForwardProxyWeights.RepairRestores | src/forward_proxy.rs:858-888 | After the repair some selectable entry is positive if there is one to lift; positive entries are untouched, at most one entry changes, only in weight and only upwards, and bounds are kept. |
| ForwardProxyWeights.RecordOutcome | src/forward_proxy.rs:990-1018 | Step by step a success or failure yields the closed form: new averages, failure count, and the weight clamped, floored at 0.3 after a success and restarted at 0.4 from a non-positive sum. |
| ForwardProxyWeights.AttemptKeepsBounds | src/forward_proxy.rs:990-1018 | Any attempt keeps every bound; a success from any state leaves at least 0.3; a failure never raises the weight. |
| ForwardProxyWeights.AttemptMovesAverages | src/forward_proxy.rs:1113-1126 | A success takes the success average a tenth of the way to one and a failure a tenth of the way to nothing; a valid sample takes the latency average a fifth of the way to itself or is the first; nothing is measured of other endpoints. |
| ForwardProxyWeights.AveragesDecay | src/forward_proxy.rs:974-1020 | In every run in which an endpoint only succeeds, n times, what its success average lacks to one shrinks by 0.9^n; in one in which it only fails the average does; whatever happens to other endpoints. |
| ForwardProxyWeights.SuccessIsRewarded | src/forward_proxy.rs:990-1018 | A success adds 0.45 less one for every 2500 ms of latency average, at most 0.6; the weight ends between 0.3 and 12, and a sum that is not positive restarts at 0.4. |
| ForwardProxyWeights.FasterIsRewardedExactly | src/forward_proxy.rs:990-1018 | From equal weights the success with the lower latency average is rewarded no less, if and only if it is not the case that the slower one restarts while the faster one has a positive sum below 0.4. |
| ForwardProxyWeights.SlowerMayGainMore | src/forward_proxy.rs:990-1002 | From a weight of -0.1 a success without delay ends at 0.35 and one that took 1500 ms at 0.4. |
| ForwardProxyWeights.AttemptKeepsRuntimeValid | src/forward_proxy.rs:974-1020 | Recording an attempt keeps the runtime invariant and the set of entries; one success of a known endpoint leaves its weight at 0.3 or more. |
| ForwardProxyWeights.FailuresAddUp | src/forward_proxy.rs:1004-1018 | In a run of failures of one endpoint, each while another selectable endpoint is positive, with steps in between that measure nothing such as resolving routes, n failures give max(-12, w - sum of 0.9 + 0.35(c+i)) and change no other weight or failure count, up to and beyond the saturation of the failure count. |
| ForwardProxyWeights.EnoughFailures | src/forward_proxy.rs:1004-1018 | In such a run seven failures penalise any endpoint and ten take it to -12. |
| ForwardProxyWeights.LastSelectableIsLifted | src/forward_proxy.rs:974-1020 | A failure of the only selectable endpoint leaves the lowered weight if it is positive, and 0.4 otherwise. |
| ForwardProxySelection.PickByWeight | src/forward_proxy.rs:925-967 | The two loops pick the candidate whose cumulative-weight interval contains u times the total; with a candidate present they never run through. |
| ForwardProxySelection.OwnerIsUnique | src/forward_proxy.rs:958-967 | Every point belongs to exactly one candidate's interval. |
| ForwardProxySelection.ShareIsProportional | src/forward_proxy.rs:958-967 | A candidate is picked by exactly the points between two bounds that are its share of the total weight apart. |
| ForwardProxyRanking.RankingIsTop | src/forward_proxy.rs:1075-1110 | The ranking is a true top-k by score: right length, no duplicate, no excluded or ineligible endpoint, descending, and nothing left out scores higher. |
| ForwardProxyRanking.ScoreFollowsHealth | src/forward_proxy.rs:1096-1103 | A score gains what the weight gains and four times what the success average gains, and loses one for every second of latency up to one and a half. |
| ForwardProxyRanking.HealthDecidesScores | src/forward_proxy.rs:1096-1103 | The jitter of the subject never outweighs a difference in health of more than 0.05. |
| ForwardProxyRanking.EligibleExactly | src/forward_proxy.rs:1083-1095 | Eligible are exactly the available endpoints that have a route, or are direct where that is allowed, and are not excluded. |
| ForwardProxyRanking.DirectScoresBelow | src/forward_proxy.rs:1096-1103 | With health within bounds a direct endpoint scores at most -33.95 and any other at least -13.5. |
| ForwardProxyRanking.DirectComesLast | src/forward_proxy.rs:1075-1110 | Direct is ranked only after every eligible endpoint that is not direct. |
| ForwardProxyProbe.AfterStart | src/forward_proxy.rs:1034-1073 | From a probe start on, either a probe is in flight or the clock counts from the last finish, and the request counter never exceeds the requests noted since the start. |
| ForwardProxyProbe.ProbesAreSpaced | src/forward_proxy.rs:1034-1073 | Between two probe starts of any run there is a finish, and either a hundred noted requests since the earlier start or 1800 seconds since the last finish. |
| ForwardProxyProbe.NextStartExactly | src/forward_proxy.rs:1034-1073 | After one start the next is exactly the first call, with a selectable endpoint penalised, by which a probe has ended and either a hundred requests were noted since the start or 1800 seconds have passed since the end. |
| ForwardProxyProbe.HeaviestPenalized | src/forward_proxy.rs:1051-1058 | The key chosen for a probe is selectable, penalised and of maximal weight among such keys. |
| ForwardProxyProbe.ProbeChoiceExactly | src/forward_proxy.rs:1046-1058 | The endpoint probed has a route and a weight that is not positive, and no other such endpoint weighs more; without any there is nothing to probe. |
| ForwardProxy.ForwardProxyManager.constructor | src/forward_proxy.rs:639-659 | A new manager satisfies the invariant for any stored rows, keeps the restored health of the last row of every key, offers what the settings list, and may probe at once. |
| ForwardProxy.CollectRows | src/forward_proxy.rs:643-646 | The last stored row of each key is restored, and nothing else. |
| ForwardProxy.SyncEntries | src/forward_proxy.rs:708-731 | Every endpoint of the new list has an entry that shows it; a known entry keeps its health, other entries are kept as they are. |
| ForwardProxy.RefreshIsValid | src/forward_proxy.rs:708-732 | After syncing and repairing, the invariant holds, no weight has fallen, measured health is unchanged and some selectable endpoint is positive if there is any. |
| ForwardProxy.EntriesAfterRefresh | src/forward_proxy.rs:708-731 | After a refresh an endpoint is available exactly if it is direct or has a resolved URL, and says so otherwise; one without an entry starts at 0.8, or 1 for Direct, with a success average of 0.65. |
| ForwardProxy.ForwardProxyManager.RebuildEndpoints | src/forward_proxy.rs:685-733 | The invariant is kept, the list is the rebuilt one, and the runtime is its synced and repaired form. |
| ForwardProxy.ForwardProxyManager.ApplySettings | src/forward_proxy.rs:661-664 | New settings offer exactly their manual URLs and no subscription listing. |
| ForwardProxy.ForwardProxyManager.ApplySubscriptionRefresh | src/forward_proxy.rs:670-683 | A refresh offers the manual URLs and exactly the fetched listings, and notes the time. |
| ForwardProxy.ForwardProxyManager.ApplyIncrementalSettings | src/forward_proxy.rs:735-856 | An update keeps the invariant, yields the updated list and runtime, returns exactly the endpoints whose keys are new, and notes the time only if something was fetched. |
| ForwardProxy.ForwardProxyManager.ResolveRoutes | src/tavily_proxy/mod.rs:1298-1321 | Routes set up or lost by the relays keep the invariant, the provenance, every weight and all measured health; every endpoint's entry shows its new route. |
| ForwardProxy.ForwardProxyManager.SelectProxy | src/forward_proxy.rs:920-968 | In every valid state, if any endpoint is direct or has a resolved URL, the selected one is such an endpoint, of positive weight, and owns the drawn point; else it is the first endpoint or Direct. |
| ForwardProxy.SomeCandidate | src/forward_proxy.rs:925-943 | After the repair there is a candidate exactly if some endpoint is selectable. |
| ForwardProxy.ForwardProxyManager.RecordAttempt | src/forward_proxy.rs:974-1020 | The invariant is kept; an unknown key changes nothing, a known one is updated and the repair follows. |
| ForwardProxy.ForwardProxyManager.MarkProbeStarted | src/forward_proxy.rs:1046-1068 | A probe starts exactly when the protocol allows, on a selectable penalised endpoint of maximal weight. |
| ForwardProxy.ForwardProxyManager.MarkProbeFinished | src/forward_proxy.rs:1070-1073 | The end of a probe is the protocol's finish step. |
| ForwardProxy.ForwardProxyManager.RankCandidatesForSubject | src/forward_proxy.rs:1075-1110 | In every valid state the ranking is the true top of the eligible endpoints, with Direct behind every other one. |
| GreedyMatching.GreedyIsMaximum | src/bin/mcp_request_log_retry_repair.rs:240-323 | If a later request sharing an item with an earlier one accepts all that the earlier one accepts from there on, no matching is larger than the greedy one. |
| RetryRepair.ScrubIsIdempotent | src/bin/mcp_request_log_retry_repair.rs:83-116 | Scrubbing reports a removal exactly when it changed the body, and a scrubbed body is a fixed point. |
| RetryRepair.ScrubRemovesExactly | src/bin/mcp_request_log_retry_repair.rs:84-108 | The scrub reports a removal if and only if some tools/call object anywhere inside the JSON value has params.arguments with the field include_usage, and afterwards none has. |
| RetryRepair.ScrubKeepsTheRest | src/bin/mcp_request_log_retry_repair.rs:84-116 | A path into the value is gone after the scrub exactly if it goes through such an argument; every other path leads to the same scalar, an array of the same length or an object. |
| RetryRepair.QualifiesExactly | src/bin/mcp_request_log_retry_repair.rs:262-310 | A row may be repaired by another if and only if its response blames the argument, its request carries it, and the other row repeats the request without it, later in the log by at most ten seconds. |
| RetryRepair.LogsAreExchangeable | src/bin/mcp_request_log_retry_repair.rs:278-306 | Logs read in order from one table have the property that the greedy pairing needs. |
| RetryRepair.BuildCandidates | src/bin/mcp_request_log_retry_repair.rs:240-323 | The loop pairs each shadow in turn with its earliest unconsumed qualifying final and lists exactly these pairs. |
| RetryRepair.RetriedSearchIsPaired | src/bin/mcp_request_log_retry_repair.rs:240-322 | A rejected search and its repetition two seconds later without the argument are paired, whatever is searched for and whatever the argument said. |
| RetryRepair.CandidatesAreMaximum | src/bin/mcp_request_log_retry_repair.rs:258-322 | No one-to-one pairing of qualifying shadows with finals has more pairs than the candidates. |
| RetryRepair.RequestLogTable.SuppressRetryShadows | src/bin/mcp_request_log_retry_repair.rs:325-349 | Exactly the visible shadows of candidates are hidden and reported. |
| RetryRepair.EveryShadowIsSucceeded | src/bin/mcp_request_log_retry_repair.rs:262-322 | Links from shadow to final advance in the log, so that every chain ends at a later row with the same request that is no shadow. |
| RetryRepair.SuppressionKeepsEveryRequest | src/bin/mcp_request_log_retry_repair.rs:262-349 | Every suppressed row leaves a later row with the same request that is still visible. |
| SearchRepair.SortedPairingDecides | src/bin/mcp_search_billing_repair.rs:252-300 | With equal counts the sorted pairing keeps every pair within the skew if and only if some one-to-one pairing does. |
| SearchRepair.OrderOfLogs | src/bin/mcp_search_billing_repair.rs:252-253 | The logs are paired in the order of their times, then of their ids. |
| SearchRepair.RepairToken | src/bin/mcp_search_billing_repair.rs:255-302 | A token gets all the repairs of its sorted pairing or none with a reason: unequal counts first, else the first sorted pair that is too far apart. |
| SearchRepair.RepairsAreTheUnbilledPairs | src/bin/mcp_search_billing_repair.rs:274-288 | The repairs of a token are exactly its unbilled logs, each with the credits of its own partner. |
| SearchRepair.DueExactly | src/bin/mcp_search_billing_repair.rs:252-302 | A token gets a candidate exactly for each of its auth logs without credits in the billing state none, with the credits of the request log at its place in the order of time, if it has equally many of both and all such pairs are at most 30 seconds apart. |
| SearchRepair.BuildCandidates | src/bin/mcp_search_billing_repair.rs:223-306 | Every token is decided on its own: it gets exactly what it is due and is skipped exactly when it is not repairable. |
| McpBilling.BillingScan.HandleToolCall | src/server/proxy.rs:513-671 | A tool call adds exactly what its class and id call for to flags, id sets, reservations and fallbacks. |
| McpBilling.CallReserves | src/server/proxy.rs:513-671 | By the name of its tool a call reserves the listed price of a known tool, one credit for any other tavily- tool, and nothing otherwise. |
| McpBilling.CallIsBilledUnderId | src/server/proxy.rs:531-572 | A billed call is billed under its id; a missing id and the id null count as none. |
| McpBilling.SearchAsWritten | src/server/proxy.rs:536-548 | A tool is recognised in any case and with underscores for dashes. |
| McpBilling.BillingScan.Scan | src/server/proxy.rs:673-765 | A scan yields the tally of the items, and reports a batch as invalid exactly if it repeats an id. |
| McpBillable.TallySummarizes | src/server/proxy.rs:496-765 | The flags and id sets of a tally say what the set of items says, so that order and repetition of items do not matter. |
| McpBillable.BillableUnlessProven | src/server/proxy.rs:673-782 | A parsed request is billable exactly if it holds an item that is not provably a control-plane message or a third-party call, and locked exactly if billable. |
| McpBillable.TaxonomyBillableIsBilled | src/analysis.rs:1415-1421 | Every request to /mcp that the taxonomy files as billable is billed by the handler. |
| McpBillable.UnknownMethodIsBilledButNotFiled | src/analysis.rs:1043-1080 | A request with an unknown method is billed and yet filed as non-billable. |
| McpFiling.FilingIsExact | src/analysis.rs:1082-1126 | A request to an MCP path is filed as billable if and only if it goes to /mcp and holds a call of one of the five tools, or is a batch of several kinds with a message that has no method. |
| McpFiling.VerdictsAgree | src/analysis.rs:1415-1421 | The handler and the taxonomy agree on a request below /mcp if and only if it is no stray: unparsed, or with a billable item but under another path or without a call of a known tool and not such a mixed batch. The strays are exactly what is billed and filed as non-billable. |
| McpCharge.CreditsById | src/analysis.rs:1877-1930 | Over nested batches, an id has credits exactly if a message with it reports usage, and then the highest reported. |
| McpCharge.ErrorsById | src/analysis.rs:1935-1989 | An id is known exactly if a message carries it, and failed exactly if any such message is not a success. |
| McpCharge.ChargeByIds | src/server/proxy.rs:1101-1134 | With ids on all billable calls the charge is the capped sum, over the billable ids in any order, of what each owes. |
| McpCharge.ChargeIsItemized | src/server/proxy.rs:1101-1134 | A request whose items have distinct ids costs the sum of what its items cost: nothing if missing or failed, else the highest credits reported, else the expected price of a search or the reserved price of a research. |
| McpCharge.ChargeIsExact | src/server/proxy.rs:1101-1134 | That sum is the charge up to the largest 64-bit number, where it stays. |
| McpCharge.FallbacksAddUp | src/server/proxy.rs:585-632 | The searches, and the researches, under one id add up to its recorded fallback, to the cap. |
| McpCharge.OneCallIsCharged | src/server/proxy.rs:1107-1131 | A single call that is reported and has not failed costs the credits reported for it; without any, a search costs its expected and a research its reserved credits, any other call nothing. |
| McpCharge.RaisedFallbackIsCharged | src/server/proxy.rs:1120-1130 | Raising the fallback of an id without reported usage by d raises the uncapped charge by d. |
| McpCharge.ChargeIsLocal | src/server/proxy.rs:1101-1134 | The charge depends only on which reports each billable id has: not on order, repetition or messages of other ids. |
| McpCharge.LowerReportIsFree | src/server/proxy.rs:1115-1118 | A further successful report of no more credits for an id that has reported changes nothing. |
| McpCharge.TallyIsCovered | src/server/proxy.rs:578-632 | The fallbacks recorded by a scan never add up to more than what it reserved. |
| McpCharge.UnreportedUsageIsReserved | src/server/proxy.rs:1101-1134 | If the response reports no usage, the charge stays within the reservation. |
| McpCharge.ChargeWithoutIds | src/server/proxy.rs:1053-1100 | Without ids: observed credits, nothing if all failed, the fallback total if nothing was observed and something succeeded, the larger of both when nothing failed. |
| McpCharge.FallbackTotalIsItemized | src/server/proxy.rs:1053-1064 | The total fallback is what the calls cost without reported usage, to the cap, whatever their ids. |
| McpCharge.FallbackTotalIsReserved | src/server/proxy.rs:1053-1064 | The fallback total stays within the reservation. |
| BusinessQuota.NewVerdict | src/models.rs:66-110 | The constructor's sequence of overwrites gives the verdict of the three windows. |
| BusinessQuota.GateIsExact | src/server/proxy.rs:897-932 | A request is admitted exactly when all three windows have room for its reservation; the error report agrees with the gate exactly unless all have room and one is pegged at the largest 64-bit number. |
| BusinessQuota.PeggedLimitAdmits | src/server/handlers/tavily.rs:222-229 | A reservation is admitted that a limit of the largest 64-bit number cannot hold. |
| BusinessQuota.MostUrgentIsReported | src/models.rs:112-147 | For all counts the report names the longest exceeded window, else the longest full one, else the longest one without room for the reservation. |
| BusinessQuota.LongestWindowIsReported | src/models.rs:112-147 | The reported window is the longest one without room for the reservation if and only if no window is more urgent than that one, and no longer one as urgent. |
| BusinessQuota.ShorterWindowIsReported | src/models.rs:112-147 | A full hour is reported although the month has no room for the reservation either. |
| BusinessQuota.UsageFades | src/tavily_proxy/mod.rs:6601-6663 | With no new charge no counter rises as time passes. |
| BusinessQuota.SettlementCounts | src/store/mod.rs:10313-10445 | A settlement adds its credits at most once to each of the three windows, and exactly once to hour and day, and to the month unless the stored month is a later one. |
| BusinessQuota.WindowsInSeconds | src/tavily_proxy/mod.rs:6601-6663 | Credits settled at most 3540 seconds ago count in the hour and those of 3600 seconds ago or more do not; for the day 82800 and 86400 seconds; in between the number of the minute or hour decides. |
| BusinessQuota.MonthCounts | src/store/mod.rs:10405-10445 | Credits of the current month count in the month and earlier ones do not, unless a later month is stored. |
| BusinessQuota.RecentChargesAreCounted | src/server/proxy.rs:897-940 | After every run the hour counter holds all charges of the last 59 minutes and none as old as an hour, the day counter all of the last 23 hours and none as old as a day. |
| BusinessQuota.MonthChargesAreCounted | src/server/proxy.rs:897-940 | After every run the month counter holds exactly the charges of the current month. |
| BusinessQuota.RecentChargesBlock | src/server/proxy.rs:897-940 | A request is turned away if the charges of the last 59 minutes, of the last 23 hours or of the month leave no room for its reservation under a limit below the largest 64-bit number. |
| BusinessQuota.CleanUpIsHarmless | src/tavily_proxy/mod.rs:6776-6804 | Dropping buckets older than 48 hours changes no counter, then or later. |
| BusinessQuota.CleanUpDropsOld | src/tavily_proxy/mod.rs:6776-6804 | Exactly the buckets older than 48 hours are dropped. |
| BusinessQuota.ReadingIsHarmless | src/store/mod.rs:3304-3329 | The write that reading a stale monthly row performs changes no counter, then or later. |
| BusinessQuota.RunStaysWithinLimits | src/server/proxy.rs:897-940 | Over every run of gated and charged requests, each counter stays within its limit plus the excess of the last charge over its reservation. |
| BusinessQuota.HonestChargesKeepTheLimit | src/server/proxy.rs:897-940 | If no charge exceeds its reservation no counter ever passes its limit. |
| BusinessQuota.SubjectUsage.ApplyCharge | src/store/mod.rs:10313-10445 | Applying a charge is one settlement step on the stored counters. |
| BusinessQuota.SubjectUsage.FetchMonthlyCount | src/store/mod.rs:3304-3329 | The monthly count is that of the current month, and a row of an earlier month is replaced by an empty one of the current month. |
| BusinessQuota.SubjectUsage.MaybeCleanup | src/tavily_proxy/mod.rs:6776-6804 | Old buckets are deleted at most once in ten minutes. |
| QuotaLedger.BucketsMatchLedger | src/models.rs:1045-1058 | For every now not before any event, the minute and hour buckets over the audit windows hold exactly the ledger sums, whatever was cleaned up or read and however late rows were settled. |
| QuotaLedger.MonthMatchesLedger | src/store/mod.rs:10405-10445 | The monthly row agrees with the ledger of the current month, in whatever order rows were settled and read. |
| QuotaRebase.SubjectRoundTrip | src/lib.rs:1361-1380 | Formatting and parsing billing subjects are inverse to each other, both ways. |
| QuotaRebase.QuotaStore.Rebase | src/models.rs:1525-1647 | A rebase succeeds exactly when every charged row of the month names a subject; then both tables are rewritten from the ledger, and an error leaves them unchanged. |
| QuotaRebase.AuditAfterRebaseIsClean | src/models.rs:1570-1625 | After a rebase the stored month count of every subject is what the ledger charged. |
| QuotaRebase.RebaseIsIdempotent | src/models.rs:1525-1647 | A second rebase at the same instant changes no quota row. |
| QuotaRebase.TotalsAddUp | src/models.rs:1172-1198 | If every charged row names one of the given subjects, their totals add up to the credits charged in all. |
| QuotaRebase.RebaseConservesCredits | src/models.rs:1525-1647 | The stored month counts of both tables add up to the credits reported as charged. |
| QuotaRebase.CheckedSubjectMayNotParse | src/models.rs:1130-1170 | A row with the subject Token:a passes the check and fails to parse. |
| QuotaRebase.CheckedSubjectParses | src/models.rs:1130-1170 | A subject that passes the check fails to parse if and only if its prefix is token: or account: in other letters. |
| QuotaAudit.Collect | src/models.rs:1341-1455 | Filling the six columns gives every subject exactly its ledger sums over the log rows and its effective counters. |
| QuotaAudit.Audit | src/models.rs:1327-1523 | The audit succeeds exactly if every charged row since the start of the day or month window passes the subject check and every subject with anything to report parses; then it reports exactly these subjects, with the right values and counts. |
| QuotaAudit.RebasedMonthsMatch | src/models.rs:1426-1455 | An audit of the tables just rebased, over the same rows, finds no month difference. |
| QuotaAudit.KeptStoreIsClean | src/models.rs:1350-1455 | If the counters of a subject are what settlements of exactly its charged rows, clean-ups and reads leave, in whatever order, the audit finds no difference in any of the three windows. |
| SqlTwin.KindAgrees | src/analysis.rs:1586-1630 | For one plain message the SQL kind is NULL exactly if the code does not prove the message non-billable, or it is a miscased call of a Tavily tool. |
| SqlTwin.AllNonBillableAgrees | src/analysis.rs:1632-1659 | The SQL finds a batch all non-billable exactly if the code does and no call in it is miscased. |
| SqlTwin.KeyAgrees | src/analysis.rs:1571-1579 | For canonical keys the SQL's list and prefixes are the non-billable MCP keys of the code. |
| SqlTwin.ClassSqlMeaning | src/analysis.rs:1661-1745 | For every stored log the generated expression, fed by the generated quota expression under three-valued logic, gives the class of the code with miscased calls counted as billable. |
| SqlTwin.ClassSqlAgrees | src/analysis.rs:1486-1569 | SQL and code give the same class if and only if the log is not a successful or unclassified batch, all non-billable to the code, with a miscased call. |
| SqlTwin.MiscasedCallParts | src/analysis.rs:1581-1630 | A successful batch with one call of tavily-search by the method TOOLS/CALL is a success for the SQL and neutral for the code. |
| RequestKindSql.MessageKindAgrees | src/analysis.rs:1043-1080 | For one plain message the lowered kind is the kind of the code if and only if the message is not miscased; both find a kind exactly in the messages with a method. |
| RequestKindSql.MessageKindSqlMeaning | src/analysis.rs:1278-1316 | For one plain message the generated CASE gives the kind of the message with its method lowered, or NULL. |
| RequestKindSql.LogKindSqlMeaning | src/analysis.rs:1322-1358 | For every plain body the SQL gives an object its lowered kind, and a batch the one lowered kind of its messages, mcp:batch for several, and unknown-payload as soon as one has no method. |
| RequestKindSql.LogKindSqlAgrees | src/analysis.rs:1081-1124 | SQL and code file a plain body alike if and only if: an object is not miscased; in a batch with a message without a method every other one is a tool call without a tool name; in any other batch none is miscased, or both the messages and the lowered ones are of several kinds. |
| RequestKindSql.MixedBatchParts | src/analysis.rs:1322-1358 | A batch of a ping and an empty object is filed as a ping by the code and as an unknown payload by the SQL. |
| RequestKindSql.MiscasedPingParts | src/analysis.rs:1278-1316 | A message with the method PING is filed as a ping by the SQL and as an unknown method by the code. |
| TokenAffinity.TokenAffinityState.GetCandidate | src/lib.rs:614-624 | Over every run with a non-decreasing clock the answer is the most recently recorded key, exactly when it is unexpired and was not evicted. |
| TokenAffinity.TokenAffinityState.RecordMapping | src/lib.rs:627-641 | A record keeps the cache a refinement of the plain map; the size passes the cap, by one, exactly when the cap is live and the token is not. |
| TokenAffinity.TokenAffinityState.Prune | src/lib.rs:644-668 | A prune drops what has expired and, only beyond the cap, keeps half a cap of the longest-living entries. |
| TokenAffinity.EvictEarliest | src/lib.rs:652-667 | An eviction keeps half the cap, and every evicted entry expires no later than every kept one. |
| TokenAffinity.HardCapIsExceeded | src/lib.rs:417-418 | Recording one token more than the cap at one instant drives an empty cache past its cap. |
| ProgressStream.Read | web/src/api.ts:505-552 | The read loops terminate and deliver what the run over the arrivals is defined to deliver. |
| ProgressStream.ChunkingDoesNotMatter | web/src/api.ts:505-552 | For every meaning of the events, every way of cutting a text in which no read but one at the end of the text ends where the skip passes the end gives the events, payload and error of the whole text. |
| ProgressStream.CutIsHarmless | web/src/api.ts:513-516 | A cut is harmless, for every continuation and every meaning of the events, if and only if the text before it does not overshoot. |
| ProgressStream.MixedOvershoots | web/src/api.ts:513-528 | The scan of a text meets a CRLF followed by a bare LF if and only if some beginning of the text overshoots. |
| ProgressStream.MayBeCutExactly | web/src/api.ts:505-552 | A text may be cut anywhere, whatever follows it and whatever the events mean, if and only if its scan meets no CRLF followed by a bare LF. |
| ProgressStream.UnmixedCutsAgree | web/src/api.ts:505-552 | For a whole text that does not end with such a boundary, all cuts agree for every meaning of the events if and only if its scan meets none. |
| ProgressStream.OnlyTheEndOvershoots | web/src/api.ts:505-552 | A text of which no proper beginning overshoots is read alike however it is cut, even if it ends with such a boundary. |
| ProgressStream.UniformLineEndsAreNotMixed | web/src/api.ts:513-516 | Texts whose line ends are all LF, or all CRLF, qualify. |
| ProgressStream.FaultIsFinal | web/src/api.ts:523-525 | Once an error event or a syntax error has been met, nothing later is looked at. |
| ProgressStream.MixedBoundaryLosesText | web/src/api.ts:516-516 | For every meaning of the events: if the first boundary is a CRLF followed by a bare LF and the text after it is an event only with its first character, a cut after the boundary delivers the event and the whole text does not. |
| ProgressCuts.CutsAgreeExactly | web/src/api.ts:505-552 | For every whole text, all cuts agree for every meaning of the events if and only if at each such boundary that the scan meets, with or without the next character skipped, the rest has the same chunks either way. |
| ProgressCuts.RunReports | web/src/api.ts:505-552 | Reading a text in pieces delivers what its chunks stand for, taken in turn up to the first fault. |
| ProgressCuts.OutcomeOfChunks | web/src/api.ts:505-552 | However the text arrives: at the first chunk that is an error event or a syntax error the reader reports the events up to it and throws that message or syntax error; if there is none it reports all events and resolves to the payload of the last complete event, or has ended early without one. |
| ProgressCuts.ReportedOutcome | web/src/api.ts:505-552 | The same for any chunks taken in turn. |
| ProgressCuts.SettledMeans | web/src/api.ts:513-528 | Unless a text ends with such a boundary, this condition is that its scan meets none. |
| ProgressCuts.EarlyMixedMayNotShow | web/src/api.ts:505-552 | Two texts that end with such a boundary and meet earlier ones are read alike however they are cut. |
| ProgressChunk.ParseChunkCrlf | web/src/api.ts:457-467 | A chunk means the same with CRLF line ends as with LF ones. |
| ProgressChunk.ChunkIsRead | web/src/api.ts:457-467 | A chunk of any lines means what its data lines hold, trimmed and joined by line feeds; without data it is no event. |
| ProgressChunk.StreamIsDelivered | web/src/api.ts:457-552 | A stream of one-line data events, each followed by an empty line, delivers what its payloads mean in turn, however it is cut. |
| ProgressChunk.MixedBoundaryLosesEvent | web/src/api.ts:457-516 | With the reader's own chunks, any two one-line data events with a CRLF and a bare LF between them: cut after the boundary both are delivered, uncut only the first, and the stream ends early. |
| ProgressChunk.LineEndStyleDoesNotMatter | web/src/api.ts:457-552 | A stream sent with CRLF delivers the same events and ends the same way as the stream sent with LF, however either is cut. |

## Left out

- SearchRepair.BuildCandidates: takes the tokens in an arbitrary order, where the code takes them in ascending order; the contract speaks of each token's own candidates.
- McpBilling.BillingScan.Scan: does not keep the two values that nothing reads afterwards, the flag for searches without an id and their separate total.
- McpCharge.ChargeByIds: takes reported credits as non-negative and ids as JSON values; the code compares their printed form, in which 1 and 1.0 differ.
- SqlTwin.ClassSqlAgrees: covers canonical trimmed keys, statuses in lower case and batches whose items are not texts and whose methods and tool names are trimmed texts or missing; SQL errors on malformed JSON and evaluation order are not modelled.
- RequestKindSql.LogKindSqlAgrees: covers bodies that are JSON objects or arrays of plain messages, as for the class: no texts among the items, and methods and tool names that are trimmed texts or missing; the mapping of older stored keys, used when the body does not tell, stays a parameter.
- ForwardProxyUpdates.RunIsRebuild: compares what is offered, not the order of the list, which depends on the iteration order of hash maps.
- ForwardProxy.ForwardProxyManager.ResolveRoutes: takes the outcome of the relay processes as given; starting, probing and retiring them is not modelled.
- QuotaRebase.QuotaStore.Rebase: the report counts charged credits, subjects and cleared rows; the split of subjects by kind, the number of charged rows and the previous month are left out.
- Runtime entries carry no geographic metadata, and kinds restored from the table stay unknown until the next sync.
- Rounding of floating-point weights; the check for finite weights and latencies is void over the reals.
- Parsing of proxy URLs, share links and subscription documents, and normalisation of settings.
- McpBilling.BillingScan.HandleToolCall: the price list is abstract; all it must do is price a search at what it is expected to cost.
- RetryRepair.ScrubIsIdempotent: the scrub works on JSON values, so that the update in place of nested objects is not captured.
- Decoding of the byte stream, which delivers texts here, and the JSON parser of the progress events, which is a parameter.
- Reading of usage credits and outcomes inside one JSON-RPC message, and of event-stream responses.
- SQL queries, transactions and their isolation: tables are maps, a settlement and a rebase are atomic; sums are not limited to 64 bits.
- Concurrency of the billing lock: requests of one subject are steps of a run.
- HTTP handlers, OAuth, sessions, schedulers, static files and the whole user interface beyond the progress reader.
