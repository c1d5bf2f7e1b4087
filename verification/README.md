# borsa, modelled and proved in Dafny

This project models three parts of the borsa market-data router and proves what they promise: the streaming
supervisor with everything around it, the time-series pipeline behind a history request, and provider routing with
quota windows. `dafny verify dfyconfig.toml` checks all of it.

Code that changes state step by step is a class or a method with loops (`Supervisor`, `Controller`, `MonotonicGate`,
`QuotaAwareConnector`, `ProviderPolicy`, `Preference`, the merge, resampling, grouping and scanning loops). Each of these
is proved equal to a function on values, or against a relation that leaves the iteration order of a hash map open; the
properties are then lemmas about those functions, runs and relations.

## The streaming supervisor

`SupervisorSpec` is the event/phase table, the cyclic start scan, preemption, startup resolution and backoff on values;
`Supervisors.Supervisor` is the same on mutable fields. `ControllerSpec` adds the driver: start requests in flight, live
sessions with stop flags, the timer and the answer to the caller. Its steps are a start that succeeds or fails, a session
that ends with or without a report, a tick, a dropped receiver and a shutdown. A run is any sequence of enabled steps. A
history clock records when each provider was last requested and activated; nothing reads it but the invariant.
`ControllerProps` proves the invariant of all runs and, from it, that requests and sessions match the providers one to
one, that overlaps between Active providers are on their way out, that a tick leaves every servable symbol with its
lowest-index capable provider, that the caller is answered at most once, and how the delay grows. `StartupProps` says
exactly when startup fails.

`Planner` and `StreamPlan` build the supervisors of a request from the routing policy; `StreamPlanProps` and
`PlannedStartup` follow a request from its instruments to the start requests of the supervisors, and `PlannedInputs` has
two requests with their plans and runs. `Gates` is the monotonic gate and the session loop.

## The time series

`Resample` is the single-pass bucketing, `ResampleProps` what it groups and that nested resamplings fuse, including the
volume sums that are clamped to 64 bits, `ResampleEnds` which candles a bucket opens and closes with, and `ResampleErrors`
and `ResampleForeign` exactly when it fails. `Buckets` has the day, week and minute buckets and their nesting. `Merge`,
`MergeDetails` and `MergeProps` are the first-wins merge, what it keeps besides candles, and its associativity; `Actions`
the canonical form of corporate actions; `Attribution`, `Blame`, `BlameProps`, `Intervals`, `History`, `HistoryProps` and
`ReturnedSpans` the router's pipeline around them; `Infer` the cadence estimates. Timestamps are integers in nanoseconds.

## Routing and quotas

`Routing`, `RoutingProps` and `Search` are ranked lists, rule precedence, normalization, the order of connectors and the
choice among search results. `Quota` is the limiter over unbounded runs of calls on a clock that never goes back;
`QuotaSliding` and `QuotaSpread` compare it with a sliding window.
`Sorting` and `OrderedMap` hold the sorts and the ordered map that the others share.

## Where the code differs from what it seems to promise

- A shutdown is not remembered by the state machine: the outcome of a start moves it back to Running
  (`SupervisorProps.ShutdownSurvivesExactly`). The driver stays shut down because it returns
  (`ControllerProps.StopReturns`).
- An activation resets the delay only for a provider that is idle after a cooldown. In a run a provider is Connecting when
  it activates, so the delay is never reset (`ControllerProps.BackoffFollowsTicks`).
- Before its first increase the delay is the minimum even if that exceeds the maximum (`SupervisorProps.BackoffFormula`).
- Startup does not fail when all providers have failed: it fails exactly when, while the answer is owed, the last provider
  of the chain fails to start, whatever else is in flight (`StartupProps.StartupFailsExactly`,
  `PlannedInputs.FailsWithRequestInFlight`). A tick never ends it. If the policy does not rank the last provider for any
  required symbol, no failure is ever reported (`PlannedStartup.PlannedCanFail`, `PlannedInputs.ApartNeverFails`), and the
  caller that awaits the first answer waits until some provider starts or the driver stops.
- Resampling does not check every price. Where a candle joins its bucket it compares the candle's open, the highest high and
  lowest low so far and the previous close; where a bucket closes, its first open, high, low and last close, which must
  be in the currency of the series (`ResampleErrors.SucceedsIff`). A foreign high or low that is never the highest or lowest
  so far goes unnoticed (`ResampleForeign.ForeignUnnoticedIff`, `ResampleProps.MixedCandleUnnoticed`).
- A boundary of the quota limiter leaves its grid if the whole periods skipped between two calls exceed 64 bits of
  nanoseconds (`Quota.AdvanceExactly`, `Quota.LongGapMisaligns`). A run may be of any length, but these periods must fit.
- The quota's windows are aligned ones that reset, not the sliding window that the configuration speaks of: around a reset
  an interval as long as the window can admit twice the limit (`QuotaSliding.TwoCallsInOneWindow`,
  `QuotaSliding.TwiceLimitReached`). `QuotaSliding.SlidesIff` and, for the hourly spread, `QuotaSpread.SpreadSlidesIff` say
  for which configurations the limit holds for every interval.
- Two results of one name share an entry in the blame map, where the later one hides the earlier
  (`BlameProps.RepeatedNamesMislead`), and connectors registered twice are not de-duplicated (`borsa/src/core.rs:55`).
  Blame is deserved for all data exactly if only the name of the last result recurs and only that name follows its first
  occurrence. The router passes only results with candles. For these the second half is needed only if the recurring name
  is that of the first result: then all names must be the same (`BlameProps.BlameIsFairIff`).
- The merged `adjusted` flag and `meta` come from the responses that contributed a timestamp, not from all sources as
  documented (`MergeDetails.SecondIsIgnored`). `MergeDetails.FlagIsDocumentedIff` and `MergeDetails.MetaIsDocumentedIff` say
  when that makes no difference. The router merges only answers with one flag and with candles, so there it makes none
  for the flag (`HistoryProps.UsedIsHomogeneous`).
- The attribution is made before the final resampling, so a returned candle may lie in no span
  (`ReturnedSpans.DailyCandleBeforeSpans`, `ReturnedSpans.ReturnedIsReached`).
- Two different actions that agree up to the second share a key. `Actions.DedupExactly` says when the output is the same set.
- Making days from minutes whose length does not divide a day would move candles to the day before
  (`Intervals.IntradayIsLosslessIff`). No such length is known: the enumeration of intervals is not part of the repository, and
  all lengths named in it divide a day.

## Model

| member | source | states |
|---|---|---|
| Supervisors.Supervisor.Handle | borsa/src/router/streaming/supervisor_sm.rs:97-107 | One event on mutable state yields the state and actions of the transition function: the transition, then the scan if starts should be attempted |
| Supervisors.Supervisor.TransitionForEvent | borsa/src/router/streaming/supervisor_sm.rs:109-157 | The event/phase table, including the last arm that leaves the phase at Running |
| Supervisors.Supervisor.ComputeNeededStarts | borsa/src/router/streaming/supervisor_sm.rs:200-242 | The cyclic scan loop terminates and yields the providers and requests of the scan function |
| Supervisors.Supervisor.HandleProviderActivated | borsa/src/router/streaming/supervisor_sm.rs:330-356 | Activation: state, cursor, round flag, delay and preemption list |
| Supervisors.Supervisor.HandleStartupFailure | borsa/src/router/streaming/supervisor_sm.rs:358-408 | A failed start during startup, and when it ends the startup |
| Supervisors.Supervisor.HandleBackoffTick | borsa/src/router/streaming/supervisor_sm.rs:410-455 | A tick: cooldowns cleared, startup ended or delay increased, next tick scheduled |
| Supervisors.Supervisor.IncreaseBackoff | borsa/src/router/streaming/supervisor_sm.rs:457-462 | Saturating 64-bit multiplication, then the cap |
| SupervisorProps.ShouldIncludeExact | borsa/src/router/streaming/supervisor_sm.rs:304-328 | The coverage count adds nothing: a symbol is included iff allowed, required and held by no provider of higher priority |
| SupervisorProps.NeededExact | borsa/src/router/streaming/supervisor_sm.rs:183-194 | A provider is asked for exactly the symbols it is capable of that no higher-priority provider holds |
| SupervisorProps.ScanRequests | borsa/src/router/streaming/supervisor_sm.rs:200-242 | From any cursor the scan asks each provider at most once, only for symbols it is capable of; whoever changed was asked |
| SupervisorProps.FullScanQuiesces | borsa/src/router/streaming/supervisor_sm.rs:200-242 | A scan that visits everyone leaves no idle provider with work, from any start |
| SupervisorProps.StartupScanPartitions | borsa/src/router/streaming/supervisor_sm.rs:200-242 | From the idle state the requested symbol sets are disjoint and give each symbol to its lowest-index capable provider |
| SupervisorProps.LowerPriorityOverlapsExact | borsa/src/router/streaming/supervisor_sm.rs:250-271 | The preemption list is exactly the Active providers after the given one that share a symbol, in increasing order |
| SupervisorProps.TransitionNotifications | borsa/src/router/streaming/supervisor_sm.rs:109-157 | What an event answers the caller, from the state and the event alone: the first success, or the errors of a startup that ends without one |
| SupervisorProps.NotifiesAtMostOnce | borsa/src/router/streaming/supervisor_sm.rs:109-157 | At most one answer per event, only while one is owed; Ok exactly at the first success, an error exactly when the event ends the startup, with nothing Active and the round exhausted |
| SupervisorProps.ShutdownSurvivesExactly | borsa/src/router/streaming/supervisor_sm.rs:109-157 | The shutdown phase survives an event iff the event is not the outcome of a start |
| SupervisorProps.BackoffStep | borsa/src/router/streaming/supervisor_sm.rs:330-462 | Every event keeps the delay on the curve min(max, min * factor^k) |
| SupervisorProps.BackoffFormula | borsa/src/router/streaming/supervisor_sm.rs:457-462 | The delay after k increases is min(max, min * factor^k) iff k > 0 or min <= max |
| Controllers.Controller.constructor | borsa/src/router/streaming/controller.rs:45-158 | A fresh driver, with the first start requests issued, or with an immediate answer if there are no providers |
| Controllers.Controller.Step | borsa/src/router/streaming/controller.rs:160-192 | One pass of the event loop over mutable state is one step of the transition system |
| Controllers.Controller.Interpret | borsa/src/router/streaming/controller.rs:194-266 | Carrying out the actions in order, until one of them returns |
| ControllerProps.StepKeepsInv | borsa/src/router/streaming/controller.rs:160-267 | Every step keeps the protocol invariant as long as the driver has not returned |
| ControllerProps.RunInv | borsa/src/router/streaming/controller.rs:160-267 | The protocol invariant holds in every state of every run before the driver returns |
| ControllerProps.RunIdsInRange | borsa/src/router/streaming/controller.rs:160-187 | Over every run all indices handed to the driver name one of its providers |
| ControllerProps.OneRequestOneSession | borsa/src/router/streaming/controller.rs:125-192 | Over every run a provider is Connecting iff exactly one request for it is in flight and Active iff its session is unfinished, with the same symbols; no insert replaces an unfinished session |
| ControllerProps.OverlapsAreTransient | borsa/src/router/streaming/supervisor_sm.rs:172-271 | Of two Active providers sharing a symbol the lower-priority one was told to stop, or was requested first and became Active last |
| ControllerProps.RoundQuiesces | borsa/src/router/streaming/supervisor_sm.rs:97-107 | After a successful start or a tick that does not end startup, no idle provider is left with work |
| ControllerProps.TickKeepsInv | borsa/src/router/streaming/supervisor_sm.rs:410-455 | A tick makes the driver return iff it ends the startup; otherwise the invariant, with a pending timer, is kept |
| ControllerProps.InitialRequestsPartition | borsa/src/router/streaming/controller.rs:125-158 | At the start exactly the lowest-index capable provider of a symbol has a request for it in flight |
| ControllerProps.StopReturns | borsa/src/router/streaming/controller.rs:227-239 | A stop tells every session, awaits all, returns, and issues none of the starts that the state machine appends |
| ControllerProps.ReturnSkipsStarts | borsa/src/router/streaming/controller.rs:194-266 | If the transition makes the driver return, the appended starts are never issued |
| ControllerProps.OneAnswer | borsa/src/router/streaming/controller.rs:240-245 | Over every run, with any number of providers, the caller gets at most one answer |
| StartupProps.RunShape | borsa/src/router/streaming/supervisor_sm.rs:358-455 | In every state of every run before the driver returns, a pending startup has start index 0, nothing Active, and a round that is not exhausted while the answer is owed |
| StartupProps.TicksNeverTerminate | borsa/src/router/streaming/supervisor_sm.rs:410-455 | In no reachable state does a tick end the startup |
| StartupProps.TickCovers | borsa/src/router/streaming/supervisor_sm.rs:410-455 | After every tick of every run the driver goes on, and every servable required symbol is held by the lowest-index provider capable of it |
| StartupProps.StartupFailsExactly | borsa/src/router/streaming/supervisor_sm.rs:358-408 | A step of a run answers with an error iff the answer is still owed and the step is the failed start of the last provider in the chain; the driver returns with all other requests in flight |
| StartupProps.NeverFails | borsa/src/router/stream.rs:193-311 | If the last provider of a chain can serve no required symbol, no run answers with an error |
| StartupProps.CanFailIff | borsa/src/router/streaming/supervisor_sm.rs:358-408 | Some run answers with an error iff the last provider can serve a required symbol |
| ControllerProps.BackoffFollowsTicks | borsa/src/router/streaming/supervisor_sm.rs:330-462 | Over every run the delay is min(max, min * factor^k) after k increasing ticks, never reset, and the pending timer carries it |
| Gates.MonotonicGate.Allow | borsa/src/router/streaming/filters.rs:41-63 | One check against the gate and its effect on the map |
| Gates.MonotonicGate.ResetSymbols | borsa/src/router/streaming/filters.rs:65-73 | Removes exactly the given symbols |
| Gates.MonotonicGate.Reap | borsa/src/router/streaming/filters.rs:25-36 | Keeps exactly the entries seen within the time to live |
| Gates.PassesExactly | borsa/src/router/streaming/filters.rs:25-73 | After any interleaving of checks, resets and reaps: a timestamp passes iff it is at least every one accepted since the symbol was last evicted |
| Gates.RunSession | borsa/src/router/streaming/session.rs:41-105 | The receive loop computes the forwarded updates, the end, and whether the provider was stopped and the end reported |
| Gates.ForwardsSubsequence | borsa/src/router/streaming/session.rs:62-100 | A session forwards a subsequence of what it receives, all inside the allow set |
| Gates.ForwardsExactly | borsa/src/router/streaming/session.rs:62-86 | With the gate on, an update is forwarded iff it is allowed, delivered and not older than any accepted one |
| Gates.ForwardsNonDecreasing | borsa/src/router/streaming/session.rs:62-100 | Per symbol the output never goes back in time while the gate keeps the symbol |
| Planner.FindEligible | borsa/src/router/streaming/planner.rs:244-315 | The scoring loops, sort and accumulation compute the eligible providers, or the error |
| Planner.CheckNoneScored | borsa/src/router/streaming/planner.rs:21-72 | Without eligible providers: the symbols that strict rules deny to every candidate, or unsupported |
| Planner.EligibleExactly | borsa/src/router/streaming/planner.rs:244-315 | Every candidate allowed some symbol is listed once, with exactly its symbols, strictly ordered by best rank and registration; the union is that of all |
| StreamPlan.FindPrimary | borsa/src/router/stream.rs:150-172 | Ranking the allowed providers and taking the head of the sorted list |
| StreamPlan.PrimaryExactly | borsa/src/router/stream.rs:150-176 | The primary is the allowed provider that minimises (rank, index); there is none iff no provider is ranked |
| StreamPlan.GroupByPrimary | borsa/src/router/stream.rs:145-177 | Whatever the iteration order, each primary gets exactly the wanted symbols it is primary for |
| StreamPlan.BuildSupervised | borsa/src/router/stream.rs:179-229 | Chain, assigned instruments, allow sets and required set of one supervisor |
| StreamPlan.SpawnPerPrimary | borsa/src/router/stream.rs:145-241 | One supervisor per primary, with the plan for its sub-group |
| StreamPlan.PlanGroup | borsa/src/router/stream.rs:63-287 | The plan of one group, with every error exit |
| StreamPlan.PlanStreams | borsa/src/router/stream.rs:35-287 | The plans of all groups, or the error of one of them |
| StreamPlan.AwaitFirstAnswers | borsa/src/router/stream.rs:290-311 | The stream starts iff there is a supervisor and all report success; otherwise the errors in order |
| StreamPlanProps.ChainIsPermutation | borsa/src/router/stream.rs:182-188 | A chain is a permutation of the eligible providers: the primary, then the others in order |
| StreamPlanProps.RejectedIsDenied | borsa/src/router/stream.rs:82-122 | A requested symbol outside the union is denied to every candidate, so it is reported and never lost silently |
| StreamPlanProps.PlanCoversRequest | borsa/src/router/stream.rs:82-122 | A plan that succeeds covers every requested symbol |
| StreamPlanProps.RequestIsPartitioned | borsa/src/router/stream.rs:144-241 | With preferences the required sets partition the request, none is empty |
| StreamPlanProps.PrimaryLeads | borsa/src/router/stream.rs:150-209 | The head of a chain minimises (rank, index) for each required symbol, is allowed all of them and is their lowest capable provider |
| StreamPlanProps.HeadIsCapable | borsa/src/router/stream.rs:144-287 | With or without preferences the head of a chain is capable of everything its supervisor requires |
| StreamPlanProps.FirstRequests | borsa/src/router/stream.rs:144-287 | The first start requests of every planned supervisor ask the head of its chain, and nobody else, for each required symbol |
| StreamPlanProps.SharedPlan | borsa/src/router/stream.rs:242-287 | Without preferences one supervisor requires the whole request, and every provider of its chain is capable of all of it |
| StreamPlanProps.EveryInstrumentServed | borsa/src/router/stream.rs:35-287 | If the call succeeds, every instrument's symbol is required by exactly one supervisor of its group |
| PlannedStartup.HeadFails | borsa/src/router/streaming/supervisor_sm.rs:358-408 | When the head of a planned chain fails, startup goes on, and each symbol is asked for from the lowest-index other provider capable of it, and from no other |
| PlannedStartup.PlannedCanFail | borsa/src/router/stream.rs:144-311 | The startup of a planned supervisor can fail iff the policy ranks the last provider of its chain for a required symbol; without preferences it always can |
| PlannedInputs.SplitPlan | borsa/src/router/stream.rs:63-287 | An input: strict rules that list P0, P1 for one symbol and P0, P2 for another make exactly one supervisor, with the chain P0, P1, P2 |
| PlannedInputs.FailsWithRequestInFlight | borsa/src/router/streaming/supervisor_sm.rs:358-408 | In it P0 fails, P1 and P2 are asked, P2 fails, and the startup fails although the request to P1 is in flight |
| PlannedInputs.ApartPlan | borsa/src/router/stream.rs:63-287 | An input: strict rules that list one connector for each symbol make two supervisors |
| PlannedInputs.ApartNeverFails | borsa/src/router/stream.rs:193-311 | In none of its supervisors can the startup ever fail |
| Routing.NewRankedList | borsa-types/src/routing_policy.rs:64-79 | De-duplication and rank table loops |
| Routing.RankedExactly | borsa-types/src/routing_policy.rs:64-79 | Each element once, rank is position, and ranks follow first occurrences |
| Routing.ProviderPolicy.SetGlobal | borsa-types/src/routing_policy.rs:534-536 | Replaces the global list |
| Routing.ProviderPolicy.AddRule | borsa-types/src/routing_policy.rs:539-545 | Appends a rule |
| Routing.ProviderPolicy.BestRule | borsa-types/src/routing_policy.rs:464-496 | The loop finds the rule of the specification |
| Routing.BestIndexExactly | borsa-types/src/routing_policy.rs:464-496 | The rule found is the unique matching one that beats every other by (field count, symbol, kind, exchange, index); none iff none matches |
| Routing.ProviderPolicy.Rank | borsa-types/src/routing_policy.rs:509-531 | Rank and strictness from the best rule, else the global list |
| Routing.ProviderPolicy.NormalizeAndCollectUnknown | borsa-types/src/routing_policy.rs:558-612 | All lists filtered to known connectors, and the unknown ones reported by selector |
| RoutingProps.RankMeaning | borsa-types/src/routing_policy.rs:509-531 | A listed connector has its position; an unlisted one is excluded iff the list is strict |
| RoutingProps.NothingUnknownIff | borsa-types/src/routing_policy.rs:558-612 | Normalizing reports nothing iff it changes nothing; then every rank in every context stays |
| RoutingProps.EffectiveNormalized | borsa-types/src/routing_policy.rs:558-612 | Normalizing keeps which list applies in a context, and filters it |
| RoutingProps.NormalizingKeepsOrder | borsa-types/src/routing_policy.rs:558-612 | Whatever is reported, the order of registered connectors is the same in every context |
| RoutingProps.OrderedForContext | borsa/src/core.rs:407-425 | Retain and sort as a loop and a sort |
| RoutingProps.OrderedExactly | borsa/src/core.rs:407-425 | The connectors the list names, in list order, then the others in registration order iff it is not strict; each once |
| Search.Preference.Set | borsa-types/src/routing_policy.rs:174-187 | Replaces the list of one scope |
| Search.SetDecides | borsa-types/src/routing_policy.rs:210-242 | A list decides exactly the lookups that match its scope and have no more specific list |
| Search.DedupSearchResults | borsa/src/core.rs:298-332 | Grouping, choosing and sorting by first occurrence |
| Search.DedupedIsUnique | borsa/src/core.rs:298-332 | The result does not depend on the order in which the groups are visited |
| Quota.QuotaAwareConnector.constructor | borsa-middleware/src/quota.rs:40-82 | The limiter as created |
| Quota.QuotaAwareConnector.ShouldAllowCall | borsa-middleware/src/quota.rs:105-209 | One call on mutable state is one call of the specification |
| Quota.WholePeriodsByDivision | borsa-middleware/src/quota.rs:105-209 | Advancing by division is advancing by whole periods |
| Quota.AdvanceExactly | borsa-middleware/src/quota.rs:105-209 | The boundary is the aligned one that contains the call iff the whole periods skipped fit in 64 bits of nanoseconds |
| Quota.LongGapMisaligns | borsa-middleware/src/quota.rs:105-209 | A gap for which they do not fit, and the misaligned boundary |
| Quota.AdmitsExactly | borsa-middleware/src/quota.rs:105-209 | A call is admitted iff its aligned window, and under the spread its slice, has room; a refusal reports what is left and the time to the boundary |
| Quota.WindowWithinLimit | borsa-middleware/src/quota.rs:105-209 | Over every run no aligned window admits more than the limit |
| Quota.SliceWithinShare | borsa-middleware/src/quota.rs:45-57 | Over every run under the hourly spread no aligned slice admits more than its share |
| Quota.IntervalWithinTwiceLimit | borsa-middleware/src/quota.rs:105-209 | Over every run any interval as long as the window admits at most twice the limit |
| QuotaSliding.TwiceLimitReached | borsa-middleware/src/quota.rs:105-209 | Without the spread a run and an interval as long as the window that admit exactly twice the limit |
| QuotaSliding.TwoCallsInOneWindow | borsa-types/src/config.rs:63-70 | An input: with a limit of one per ten nanoseconds the calls at 9 and 10 are admitted |
| QuotaSliding.SlidesIff | borsa-types/src/config.rs:63-70 | Without the spread every run keeps every interval within the limit iff the limit is zero, or the window one nanosecond, or too long for a gap of 64 bits to leave it |
| QuotaSliding.SlidesOverAnyGapIff | borsa-types/src/config.rs:63-70 | If gaps may be of any length, only the limit zero is kept |
| QuotaSpread.IntervalWithinShares | borsa-middleware/src/quota.rs:45-57 | Under the spread with a window of 24 whole slices any interval as long as the window admits at most 25 shares |
| QuotaSpread.SpreadSlidesIff | borsa-types/src/config.rs:63-70 | Under that spread every run keeps every interval within the limit iff it is zero, or at least 25 shares, or the window too long for a gap of 64 bits to leave it |
| Candles.StripUnadjusted | borsa-core/src/timeseries/util.rs:8-12 | Clears the raw closes in place and nothing else |
| Candles.EnsureSeriesCurrencyUniform | borsa-core/src/timeseries/util.rs:34-48 | Succeeds iff the series is non-empty, uniform and of one currency, and returns it |
| Resample.ResampleBy | borsa-core/src/timeseries/resample.rs:26-121 | The single-pass loop computes the pass over the sorted series |
| Resample.FinalizeBucket | borsa-core/src/timeseries/resample.rs:131-181 | Closing a bucket, and when that fails |
| ResampleProps.ResamplesByGroup | borsa-core/src/timeseries/resample.rs:26-181 | One candle per non-empty bucket, increasing: earliest open, latest close, highest high, lowest low, clamped volume sum |
| ResampleProps.VolumeAbsent | borsa-core/src/timeseries/resample.rs:123-181 | A bucket has no volume iff none of its candles has one |
| ResampleErrors.SucceedsIff | borsa-core/src/timeseries/resample.rs:26-181 | For any series: succeeds iff at every candle that joins a bucket its open, the high and low so far and the previous close share a currency, and first open, high, low and last close of all buckets are in one |
| ResampleErrors.UniformSucceedsIff | borsa-core/src/timeseries/resample.rs:26-181 | For internally uniform candles that condition is one common currency |
| ResampleForeign.ForeignUnnoticedIff | borsa-core/src/timeseries/resample.rs:26-181 | If exactly one price of a series is in a foreign currency, it goes unnoticed iff it is the high or low of a candle that is not the first of its bucket and does not exceed the high, or fall below the low, before it |
| ResampleEnds.OpensAndCloses | borsa-core/src/timeseries/resample.rs:26-121 | In terms of the given series: a bucket opens with its earliest candle, the first among equal timestamps, and closes with its latest, the last among equal ones |
| ResampleErrors.HighIsFirstBest | borsa-core/src/timeseries/resample.rs:52-79 | The compared high is the first of the highest highs |
| ResampleErrors.LowIsFirstBest | borsa-core/src/timeseries/resample.rs:52-79 | The compared low is the first of the lowest lows |
| ResampleProps.SucceedsIffOneCurrency | borsa-core/src/timeseries/resample.rs:26-181 | The special case of internally uniform candles: resampling succeeds iff all share one currency |
| ResampleProps.MixedCandleUnnoticed | borsa-core/src/timeseries/resample.rs:26-121 | An input with a mixed candle that resampling does not notice |
| ResampleProps.FoldFuses | borsa-core/src/timeseries/resample.rs:26-181 | Folding fine candles coarsely is folding the candles coarsely, clamped volumes included |
| ResampleProps.ResamplingFuses | borsa-core/src/timeseries/resample.rs:26-181 | Two nested resamplings are one, and fail together |
| Buckets.ResampleToMinutesWithMeta | borsa-core/src/timeseries/resample.rs:471-480 | The minutes resampling with its early exits |
| Buckets.DaysNestInWeeks | borsa-core/src/timeseries/resample.rs:183-198 | Daily buckets nest in weekly ones at the same offset |
| Buckets.MinutesNestInMinutes | borsa-core/src/timeseries/resample.rs:200-210 | Minute buckets nest in multiples of them |
| Buckets.MinutesNestInDays | borsa-core/src/timeseries/resample.rs:183-210 | Minute buckets nest in days iff their length divides a day |
| Buckets.PlanThenFinal | borsa/src/router/history.rs:527-567 | The planned resampling makes no difference to the configured one |
| Buckets.MinutesThenMinutes | borsa/src/router/history.rs:38-79 | Resampling to minutes and then to a multiple is resampling to the multiple |
| Merge.MergeHistory | borsa-core/src/timeseries/merge.rs:28-110 | The first-wins loop computes the merge of the specification |
| Merge.MergedExactly | borsa-core/src/timeseries/merge.rs:28-110 | A merge succeeds iff the winners are uniform and share a currency; its candles are the winners in order without raw closes |
| MergeDetails.MergedDetailsExactly | borsa-core/src/timeseries/merge.rs:28-110 | A merge is adjusted iff some response contributes a timestamp and all that do are adjusted; its metadata are the first among these, or among all if there is no candle; its actions are all actions, de-duplicated |
| MergeDetails.FlagIsDocumentedIff | borsa-core/src/timeseries/merge.rs:13-110 | When the flag is that all sources are adjusted: unless an unadjusted response adds no timestamp to contributors that are all adjusted, or all are adjusted and there is no candle |
| MergeDetails.MetaIsDocumentedIff | borsa-core/src/timeseries/merge.rs:13-110 | When the metadata are the first there are: unless their first holder adds no timestamp, some response does, and the first holder among those has others or there is none |
| MergeDetails.SecondIsIgnored | borsa-core/src/timeseries/merge.rs:13-110 | An input: of two responses with the same timestamp the flag and the metadata of the second are lost |
| Merge.MergeCandlesByPriority | borsa-core/src/timeseries/merge.rs:122-161 | Succeeds iff all candles agree, with the first-wins candles |
| MergeProps.SeriesMergeAgrees | borsa-core/src/timeseries/merge.rs:28-161 | If the candle merge succeeds, so does the response merge, with the same candles |
| MergeProps.MergeInStages | borsa-core/src/timeseries/merge.rs:28-110 | Merging is associative and idempotent on whole responses: merging the first ones beforehand changes nothing, errors included |
| Actions.CompareIsTotalOrder | borsa-core/src/timeseries/merge.rs:173-225 | The comparison of actions is a total order |
| Actions.DedupActions | borsa-core/src/timeseries/merge.rs:264-281 | Sorting and keeping the first of each key |
| Actions.DedupExactly | borsa-core/src/timeseries/merge.rs:227-281 | The output is strictly sorted, and the same set iff different actions have different keys |
| Actions.WholeSecondsDistinguish | borsa-core/src/timeseries/merge.rs:227-262 | Whole-second timestamps make keys distinguish |
| Actions.DedupCanonical | borsa-core/src/timeseries/merge.rs:264-281 | The output depends only on the set of actions |
| Actions.DedupComposes | borsa-core/src/timeseries/merge.rs:264-281 | De-duplicating a concatenation is de-duplicating its de-duplicated parts, in either order |
| Attribution.BuildAttribution | borsa/src/router/history.rs:588-634 | The map and the run-grouping loop compute the spans |
| Attribution.AttributionAgrees | borsa/src/router/history.rs:588-634 | Each merged candle is the first at its timestamp of the first result that has one, and lies in a span naming that result; neighbours differ; disjoint iff no switch falls inside a second |
| Attribution.WholeSecondsSwitch | borsa/src/router/history.rs:605-620 | Whole-second timestamps are enough for disjoint spans |
| Attribution.AttributedOnceIff | borsa/src/router/history.rs:588-634 | Every merged candle lies in exactly one span, which names the result it comes from, iff no switch of results falls inside a second |
| Attribution.WholeSecondsAttributeOnce | borsa/src/router/history.rs:588-634 | With whole-second timestamps every merged candle lies in exactly one span, which names the first result that has its timestamp |
| Attribution.DisjointMeansUnique | borsa/src/router/history.rs:588-634 | In disjoint spans each second lies in at most one |
| Blame.IdentifyFaultyProvider | borsa/src/router/history.rs:223-274 | The name reported, for every iteration order of the map |
| BlameProps.BlameIsFairIff | borsa/src/router/history.rs:205-274 | Whatever the data, a failed merge blames only a name with a result that is inconsistent or differs from the first consistent one, iff repeated names are harmless; with and without empty results |
| BlameProps.BlameIsDeserved | borsa/src/router/history.rs:205-274 | The direction for given results: if the repeated names are harmless, the name blamed after a failed merge is that of a result at fault |
| BlameProps.RepeatsMislead | borsa/src/router/history.rs:230-274 | The other direction: for all names whose repeats are not harmless there are results whose failed merge blames a name with nothing at fault |
| BlameProps.FallbackNeedsRepeats | borsa/src/router/history.rs:271-273 | The fallback to the last result is reached only if a name is repeated |
| BlameProps.RepeatedNamesMislead | borsa/src/router/history.rs:230-274 | An input: a later result hides an earlier one of its name, and the provider that agrees with the hidden one is blamed |
| Intervals.ChooseEffectiveInterval | borsa/src/router/history.rs:38-123 | The largest supported divisor, or the coarsest intraday interval, or the request itself, with the plan |
| Intervals.ChoiceIsLossless | borsa/src/router/history.rs:38-123 | Fetching the chosen interval and carrying out the plan yields the requested series, for every data |
| Intervals.IntradayIsLosslessIff | borsa/src/router/history.rs:80-118 | Making days or weeks from minutes loses nothing on any series iff the minutes divide a day |
| History.CollectSuccesses | borsa/src/router/history.rs:521-576 | Planned resampling of each answer; empty answers and unknown instruments dropped, errors kept |
| History.OrderedExactly | borsa/src/router/history.rs:578-586 | A permutation ordered by adjustedness, if preferred, then position |
| History.FilteredExactly | borsa/src/router/history.rs:188-203 | All answers with one flag are used, in order and none other: the adjusted ones if that is preferred and there is one, else those with the flag of the first |
| History.MergeHistoryOrTag | borsa/src/router/history.rs:205-221 | A single answer as it is, a merge, or the blamed provider |
| History.ApplyFinalResample | borsa/src/router/history.rs:636-664 | The configured resampling; the extra strip changes nothing |
| History.FinalizeHistoryResults | borsa/src/router/history.rs:155-186 | The whole pipeline from attempts to the result and its attribution, with the errors when there is no data |
| ReturnedSpans.ReturnedIsReached | borsa/src/router/history.rs:155-186 | A returned candle lies in a span iff its second is that of a merged candle or lies between two neighbouring ones of one provider |
| ReturnedSpans.UnresampledIsReached | borsa/src/router/history.rs:636-664 | Without a final resampling every returned candle lies in a span |
| ReturnedSpans.FirstReturnedIff | borsa/src/router/history.rs:182-186 | After one, the first returned candle lies in a span iff the first merged candle is in the very second its day or week begins |
| ReturnedSpans.DailyCandleBeforeSpans | borsa/src/router/history.rs:182-186 | An input: a candle at half past nine is returned at midnight, before the only span |
| HistoryProps.UsedIsHomogeneous | borsa/src/router/history.rs:188-203 | The used answers are successes with one flag, adjusted if preferred and available, and the merge carries it |
| HistoryProps.SingleAnswer | borsa/src/router/history.rs:521-664 | End to end with one answer: the result is the answer resampled as configured, whatever the plan |
| HistoryProps.FinalResampleSettles | borsa/src/router/history.rs:636-664 | Applying the configured resampling again changes nothing; automatic daily resampling does not repeat |
| Infer.EstimateStepSeconds | borsa-core/src/timeseries/infer.rs:51-111 | The estimate is the unique mode of the positive deltas, else their lower median |
| Infer.MostFrequentOrMedian | borsa-core/src/timeseries/infer.rs:71-111 | The run-length scan finds the unique mode or that there is none |
| Infer.StepIsUnique | borsa-core/src/timeseries/infer.rs:51-111 | The estimate is determined |
| Infer.StepIsObserved | borsa-core/src/timeseries/infer.rs:51-111 | There is one iff two timestamps differ, and it is the distance of two neighbours |
| Infer.DeltasDependOnSet | borsa-core/src/timeseries/infer.rs:51-158 | Only the set of timestamps matters, up to a shift |
| Infer.IsSubdaily | borsa-core/src/timeseries/infer.rs:122-158 | The two thresholds on the deltas below a day |

## Left out

- Tokio tasks, channels and `select!`: each becomes an atomic step that echoes the symbols it was given. Awaiting all sessions is one step.
- Jitter, wall clocks and tracing: delays are the unjittered ones and times are integers passed in.
- Error text and the collapsing of error lists: errors are opaque, and lists of rejected symbols are sets.
- Time-zone bucketing (`borsa-core/src/timeseries/resample.rs:212-277`) and timestamps too large for a bucket: the offset in the metadata is fixed.
- `Decimal` and `Currency`: amounts are integers and currencies opaque identifiers.
- Collisions of the 64-bit action hash: keys are injective up to the second. The 128-bit volume sum is unbounded.
- Widths of `usize` in counters and ranks: the rank of an unlisted provider is a constructor above all positions.
- The candle and option copies of the planner, and the merge strategies that decide which providers are asked.
- The order of the entries in a rejected-symbols error, and errors while building a provider's request.
- QuotaSpread.SpreadSlidesIff: does not cover windows that are not 24 whole slices, where the slices and the windows drift apart; `Quota.IntervalWithinTwiceLimit` covers them.
- The caching and blacklist middleware, translation of provider quota errors, connectors, builders and serialization.
