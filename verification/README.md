# Verified model of the upstream protection layer

The repository serves music data fetched from providers with scarce, shared allowances. This project models the code
that stands between many concurrent requests and those allowances, and three self-contained cores beside it, and
proves what they keep over every run. `dafny verify dfyconfig.toml` checks all of it.

Code that changes state in place is a class here (breaker, quota counter, pacer, provider client, stores, budget,
coalescer, cipher, traffic counters). Each method's contract ties the new state to a pure transition function of the
same module, and the theorems are about runs of those functions: any sequence of events, any interleaving of
executions in which a stretch between two awaits is one atomic step. The clock is one nondecreasing integer of
milliseconds; what the outside decides (an HTTP reply, a random number, whether the store answers) is a parameter.

| file | what it models |
|---|---|
| `CircuitBreaker.dfy` | the breaker, its event traces, its half-open episodes |
| `Quota.dfy` | the sliding-window counter against the full history of spends |
| `RateLimiter.dfy` | the FIFO pacer, its drain loop and its peak report |
| `ProviderClient.dfy` | `#execute`: any number of interleaved executions over one breaker, quota and pacer |
| `PacedClient.dfy` | the client on top of the pacer, as one transition system |
| `MockProvider.dfy`, `EndToEnd.dfy` | the provider's fixed-window enforcer, and clients it never refuses |
| `Stats.dfy` | the provider's traffic buckets and peaks |
| `QuotaStore.dfy` | a keyed store with expiry, the three scripts as atomic steps, the window limiter |
| `UpstreamBudget.dfy` | the per-subject reserve and settle protocol and the request hooks that drive it |
| `SingleFlight.dfy` | coalescing of concurrent calls |
| `Idempotency.dfy`, `CanonicalJson.dfy`, `JsonReader.dfy` | the claim, complete, release protocol; the canonical printer behind the fingerprint, and a JSON reader that reads it back |
| `Ordering.dfy`, `Merge.dfy` | code-unit order, sorting; candidate merge and rank |
| `Envelope.dfy` | envelope encryption and key rotation over an ideal cipher (sections 7.1 and 7.2 of NIST SP 800-38D) |
| `LegalText.dfy` | normalisation of legal documents before they are digested |
| `Common.dfy` | options, results, counting timestamps in windows |

## Where the code and its comments disagree

The model follows the code. In each case the exact condition under which the comment holds is proved, with a run or an
input that breaks it.

- Half-open is said to cap trial traffic at `successThreshold` in-flight calls
  (packages/upstream/src/circuit-breaker.ts:42-43). A success of a call from before the episode frees a slot that a
  trial still holds, so up to 2 * successThreshold - 1 trials are in flight; the excess is exactly the slots freed that
  way (`TrialsInFlight`, `TrialBreaksCapIff`, `TrialsInFlightAreReached`).
- Failures of calls already in flight when the circuit opened climb the widening ladder although nothing was probed in
  between: one rung for each failure in a row that has reached the threshold (`LateAnswerClimbsIff`,
  `LateFailuresWiden`, `OutageClimbs`).
- Retuning is said not to forgive spends (packages/upstream/src/quota.ts:98-100). It prunes by the new window, so a
  later widening no longer sees them (`RetuneForgivesIff`, `ShrinkThenWidenOverspends`).
- A client that adopts the provider's headers takes the time left in the provider's window as its own window, which is
  called never optimistic (packages/upstream/src/provider-client.ts:464-471). The counter knows of every unit spent in
  the provider's window exactly when none of them fell to a cutoff it has pruned by (`KnowsWindowIff`); after a first
  header, when none of them is as old as the remainder it declares (`RemainderForgetsIff`). Halfway through a window it
  forgets the first call, and the client is refused (`AdaptiveClientIsRefused`).
- `msUntilAvailable` under-reports when retuning put the counter over its limit (`WaitIsExactIff`,
  `TighteningUnderReports`).
- A 429 counts against the provider (`Classify`); a comment in load/scenarios/breaker.js:182-184 says it is recorded as a
  success. A local quota or pacer refusal is what is recorded as a success.
- A lost settle is said never to under-charge (apps/bff/src/plugins/upstream-budget.ts:173-175); it does exactly when
  the requests it happened to made more calls than there are of them (`LostSettleUnderchargesIff`,
  `LostSettleUndercharges`).
- Budget and window scripts run under a key computed earlier. One that reaches the store after the key's counter has
  expired re-creates the counter. Counters stay right exactly when that never happens to a key with something on it
  (`BudgetConservation`, `LateReserveForgets`, `LateReserveIsReached`; `CounterIsWindowHits`,
  `LateHitIsAdmittedAgain`). Runs in which every script runs inside the window its key names are free of it
  (`PromptAlwaysFindsCounter`, `PromptAlwaysFinds`).
- `SingleFlight.run` invokes `work` before it registers the flight; coalescing holds exactly when work does not
  synchronously re-enter its own key (`ReentryDoublesIff`, `ReentryHappens`).
- Of two concurrent retries exactly one is said to win (apps/bff/src/lib/idempotency.ts:90-93), and a claim that finds no
  row after its insert conflicted is taken to have met an expired one (apps/bff/src/lib/idempotency.ts:127-131). A
  released row vanishes as well. Requests told to proceed that way hold no row, and the next claim succeeds beside them.
  Two execute at once exactly when one is told to proceed beside an executor without a live row (`OneExecutorIff`,
  `VanishedRowDoubles`, `ExpiredRowDoubles`). `complete` and `release` do not name the claimant,
  so such a request, or one slower than the 24 hour lifetime, can evict or overwrite another (`BackedStepIff`,
  `StaleReleaseIff`, `StaleCompleteIff`, `SlowRequestEvictsSuccessor`); a response is final exactly when nobody else
  was executing (`ReplaysExactly`).
- The per-minute peak is called rolling (load/mock-upstreams/lib/stats.js:73-74); it is taken over the minutes
  that start on a whole second, and is the rolling peak exactly when the rolling minute at every retained arrival gains
  no more at its end than it loses and has to spare (`PeakIsRollingIff`, `RollingMinuteBound`, `RollingMinuteIsMissed`).
- Adding or removing the final newline of a legal document is said not to be an amendment
  (apps/bff/src/lib/legal-documents.ts:313-314); it is one for a document without a final newline (`FinalNewlineIff`,
  `FinalNewlineCanCount`).

## Quota before pacer

The quota is spent before the pacer's wait, so a paced request reaches the provider later than its unit was spent. While
the pacer's sleeps end on time that costs nothing: requests leave first come, first served, each as soon as it may, so
if any limit + 1 askings span a window, the departures do (`RequestsLeaveInTurn`, `PacingKeepsSpread`). A quota with the
provider's own limit and window is enough (`PacedQuotaIsNeverRefused`). One sleep that ends a millisecond late breaks it
(`LateSleepIsRefused`); a window longer by maxQueueDepth * (minIntervalMs + lateness) is safe again
(`LatePacedQuotaIsNeverRefused`).

## Model

| member | source | states |
|---|---|---|
| `ProviderClients.NeverWedges` | packages/upstream/src/provider-client.ts:299-432 | At rest, after any interleaving of any number of executions, a call is refused iff the circuit is open and its wait is not over; a half-open circuit always admits a trial |
| `ProviderClients.SlotsAlwaysBacked` | packages/upstream/src/provider-client.ts:299-432 | In every state of every run the executions of the current half-open episode that have not yet recorded are exactly the counted slots plus the slots freed by successes of calls that held none; outside half-open nothing is held |
| `ProviderClients.TrialsInFlight` | packages/upstream/src/circuit-breaker.ts:42-43 | Trials in flight are the counted slots plus the freed ones, so they stay within the documented cap of successThreshold iff that sum does, and never exceed 2 * successThreshold - 1 |
| `ProviderClients.TrialBreaksCapIff` | packages/upstream/src/circuit-breaker.ts:173-180 | An admitted trial takes the trials in flight over the cap iff at least as many slots were freed as are left |
| `ProviderClients.TrialsInFlightAreReached` | packages/upstream/src/circuit-breaker.ts:182-199 | For every breaker a run of the client reaches 2 * successThreshold - 1 trials in flight at once: calls from before the outage succeed during the episode |
| `ProviderClients.ClientConservation` | packages/upstream/src/provider-client.ts:318-432 | Per execution in every run: one that was turned away has done nothing; otherwise at most maxAttempts fetches, as many as request events, each preceded by its own spend and slot; an admitted execution that finished has recorded; total retry sleep is at most (maxAttempts - 1) * max(maxDelayMs, maxRetryAfterMs + 99) |
| `ProviderClients.AdmissionIsFinal` | packages/upstream/src/provider-client.ts:281-314 | An execution is admitted iff kill switch and breaker let it in, and keeps that and its cost |
| `ProviderClients.ExecutionsAreShaped` | packages/upstream/src/provider-client.ts:318-432 | At every suspension point the trace of an execution is in order and has exactly the spends, fetches, records and sleeps of its attempt number; one that was turned away is done with an empty trace |
| `ProviderClients.SharedPartsRun` | packages/upstream/src/provider-client.ts:274-442 | Under any interleaving the shared breaker and quota are in states that runs of their own models, in clock order, reach |
| `ProviderClients.BreakerHearsBlame` | packages/upstream/src/provider-client.ts:382-404 | In every run the failures the breaker has heard of are, in order, the exchanges without a response or with an unaccepted 408, 429 or 5xx, each at the instant it came back |
| `ProviderClients.BlamelessStaysClosed` | packages/upstream/src/provider-client.ts:398-404 | However many 4xx answers come back, a provider that always answers with something other than an unaccepted 408, 429 or 5xx never opens the circuit, in any interleaving |
| `ProviderClients.SettleTellsBreaker` | packages/upstream/src/provider-client.ts:382-404 | One attempt that settles tells the breaker of a failure and notes one in its trace iff its exchange got no response, or an unaccepted 408, 429 or 5xx; otherwise it tells and notes a success |
| `ProviderClients.TracesTell` | packages/upstream/src/provider-client.ts:318-432 | In every run as many successes and as many failures are noted in all traces together as the breaker was told |
| `ProviderClients.FetchesLeave` | packages/upstream/src/provider-client.ts:357-368 | The fetches in all execution traces together are the requests that reached the network |
| `ProviderClients.UnpacedSendsWhenSpent` | packages/upstream/src/provider-client.ts:319-368 | Without pacing and header-driven retuning the network log is exactly the log of accepted quota calls, at the instants they were accepted |
| `ProviderClients.CostsAreAsked` | packages/upstream/src/provider-client.ts:279-319 | If every request costs at least one unit, so does everything the quota is asked for |
| `ProviderClients.Classify` | packages/upstream/src/provider-client.ts:484-565 | An exchange counts against the provider iff it got no response, or a 408, 429 or 5xx the caller did not accept; which error kind each exchange gives, with its hint, and which one is an answer |
| `ProviderClients.BackoffMs` | packages/upstream/src/provider-client.ts:450-462 | Gives up iff the hint is longer than maxRetryAfterMs; otherwise waits the hint plus the floor of a hundred random parts, or the floor of a random part of the exponential ceiling, never longer than max(maxDelayMs, maxRetryAfterMs + 99) |
| `ProviderClients.WaitAfter` | packages/upstream/src/provider-client.ts:397-431 | An execution sleeps iff the failure is of a retried kind, the attempt was not the last and the hint, if any, is acceptable; within the longest wait and no shorter than the hint |
| `ProviderClients.ProviderClient.constructor` | packages/upstream/src/provider-client.ts:274-279 | A new client is an initial state of the model |
| `ProviderClients.ProviderClient.Admit` | packages/upstream/src/provider-client.ts:299 | Admits as the breaker does and logs the question |
| `ProviderClients.ProviderClient.RecordFor` | packages/upstream/src/provider-client.ts:383-404 | Records one outcome with the breaker and gives back the slot the execution held |
| `ProviderClients.ProviderClient.Attempt` | packages/upstream/src/provider-client.ts:318-368 | The synchronous head of one attempt takes the shared state and the execution where the model says |
| `ProviderClients.ProviderClient.Begin` | packages/upstream/src/provider-client.ts:281-368 | A call up to its first await is one Begin step of the model |
| `ProviderClients.ProviderClient.ResetBreaker` | packages/upstream/src/circuit-breaker.ts:220-223 | The operator's reset is one ManualReset step |
| `ProviderClients.ProviderClient.SlotSettles` | packages/upstream/src/provider-client.ts:340-368 | The pacer settling its promise is one Slot step: a refusal records success and ends the execution |
| `ProviderClients.ProviderClient.HeadersArrive` | packages/upstream/src/provider-client.ts:475-482 | Response headers retune the quota iff the client is adaptive and they carry a policy |
| `ProviderClients.ProviderClient.AttemptSettles` | packages/upstream/src/provider-client.ts:382-431 | An attempt settling is one Settle step: record, then end or sleep; the breaker hears of a failure iff the exchange behind the outcome got no response, or an unaccepted 408, 429 or 5xx |
| `ProviderClients.ProviderClient.SleepEnds` | packages/upstream/src/provider-client.ts:431-432 | The end of a retry sleep starts the next attempt |
| `CircuitBreakers.Configure` | packages/upstream/src/circuit-breaker.ts:121-142 | Which policies are rejected and with which error; two successes to close and no widening by default; an accepted policy satisfies the settings invariant |
| `CircuitBreakers.ReachableIsWellFormed` | packages/upstream/src/circuit-breaker.ts:144-247 | Every state any sequence of events reaches ties state, timestamps, counters and streak together |
| `CircuitBreakers.WaitIsBounded` | packages/upstream/src/circuit-breaker.ts:225-237 | In every reachable open state nextAttemptAt - openedAt is min(max, reset * 2^(streak - 1)) and lies in [reset, max] |
| `CircuitBreakers.OpensExactlyAtThreshold` | packages/upstream/src/circuit-breaker.ts:208-218 | A freshly closed circuit is still closed iff no prefix of the log ends in failureThreshold failures in a row; it opens at the event that completes them |
| `CircuitBreakers.OpenAdmitsNothingEarly` | packages/upstream/src/circuit-breaker.ts:144-180 | Until a reset, while events are earlier than nextAttemptAt nothing is admitted and the circuit stays open |
| `CircuitBreakers.OpenAdmitsIff` | packages/upstream/src/circuit-breaker.ts:148-180 | An open circuit admits a call iff its wait is over, and that call is the first trial of a new half-open episode; before that neither a call nor a reader changes anything |
| `CircuitBreakers.LateFailuresWiden` | packages/upstream/src/circuit-breaker.ts:208-237 | Answers arriving while the circuit is open climb exactly one rung for every failure in a row that has reached the threshold, without any trial in between |
| `CircuitBreakers.LateAnswerClimbsIff` | packages/upstream/src/circuit-breaker.ts:208-218 | One late answer climbs a rung iff it is a failure and the failures in a row reach the threshold; a success ends the row |
| `CircuitBreakers.OutageClimbs` | packages/upstream/src/circuit-breaker.ts:208-237 | From construction on, n failures in a row give an open circuit a streak of n + 1 - failureThreshold |
| `CircuitBreakers.OpensAreCounted` | packages/upstream/src/circuit-breaker.ts:225-247 | The count of opens goes up by one with every rise of the streak and is never reset |
| `CircuitBreakers.ClosesOnlyAfterSuccesses` | packages/upstream/src/circuit-breaker.ts:182-218 | A half-open circuit stays so iff there was no failure, no reset and fewer than successThreshold successes; the completing success closes it, any failure re-opens it one rung higher if no trial had succeeded and on the lowest rung if one had, with the wait of that rung |
| `CircuitBreakers.TrialBound` | packages/upstream/src/circuit-breaker.ts:172-199 | One half-open episode admits at most 2 * successThreshold - 1 calls, and counted slots never exceed successThreshold |
| `CircuitBreakers.TrialBoundIsReached` | packages/upstream/src/circuit-breaker.ts:172-199 | For every threshold one half-open episode admits that many calls |
| `CircuitBreakers.CircuitBreaker.constructor` | packages/upstream/src/circuit-breaker.ts:108-142 | A new breaker is closed with everything at zero |
| `CircuitBreakers.CircuitBreaker.ReadState` | packages/upstream/src/circuit-breaker.ts:144-160 | Reading the state is the lazy open to half-open transition |
| `CircuitBreakers.CircuitBreaker.TryAcquire` | packages/upstream/src/circuit-breaker.ts:173-180 | Answers and reserves as the model does on the advanced state |
| `CircuitBreakers.CircuitBreaker.RecordSuccess` | packages/upstream/src/circuit-breaker.ts:182-199 | Works on the raw state; the model transition |
| `CircuitBreakers.CircuitBreaker.RecordFailure` | packages/upstream/src/circuit-breaker.ts:208-218 | Works on the raw state; the model transition |
| `CircuitBreakers.CircuitBreaker.Reset` | packages/upstream/src/circuit-breaker.ts:221-223 | The manual reset closes the circuit and keeps only the count of opens |
| `CircuitBreakers.CircuitBreaker.Trip` | packages/upstream/src/circuit-breaker.ts:225-237 | Opening sets wait, streak and counters |
| `CircuitBreakers.CircuitBreaker.Close` | packages/upstream/src/circuit-breaker.ts:239-247 | Closing clears everything but the count of opens |
| `Quotas.SlidingWindowSafe` | packages/upstream/src/quota.ts:52-87 | With a fixed policy no window (T - W, T] of the full spend history, for any T, holds more than the limit |
| `Quotas.RetainedIsHistory` | packages/upstream/src/quota.ts:52-115 | With any retuning, the retained spends are exactly the history newer than the largest cutoff ever applied |
| `Quotas.PrunedIsNewer` | packages/upstream/src/quota.ts:52-61 | Dropping the old prefix of a sorted list is the filter by age |
| `Quotas.RetuneForgivesIff` | packages/upstream/src/quota.ts:98-115 | The used count is the true count of the present window iff no spend of that window fell to an earlier cutoff; the comment that retuning forgives nothing holds only then |
| `Quotas.ShrinkThenWidenOverspends` | packages/upstream/src/quota.ts:98-115 | For every window, a shrink and a widening back forgive a unit and let two into one window whose limit was one throughout |
| `Quotas.KnowsWindowIff` | packages/upstream/src/provider-client.ts:464-482 | For a provider window that opened at any instant, after any run with any retunes: the counter knows of at least as many units as were spent in that window iff none of them fell to the largest cutoff, and while that holds whatever fits the counter fits the provider window |
| `Quotas.RemainderForgetsIff` | packages/upstream/src/provider-client.ts:464-482 | When a first header declares what is left of the provider window, the counter then knows of every unit of that window iff none of them is as old as the declared remainder; the comment calls adopting it never optimistic |
| `Quotas.WaitIsExactIff` | packages/upstream/src/quota.ts:117-125 | The reported wait is the exact least wait iff the counter is not over its limit, or its oldest unit and the unit that frees a slot were spent at one instant |
| `Quotas.TighteningUnderReports` | packages/upstream/src/quota.ts:117-125 | For every window a run with one lowering retune reports a wait after which no unit fits |
| `Quotas.WaitIsExactWithoutRetune` | packages/upstream/src/quota.ts:117-125 | A counter that was never retuned always reports the exact least wait |
| `Quotas.NeverOverLimit` | packages/upstream/src/quota.ts:77-87 | Without retuning the retained spends never exceed the limit |
| `Quotas.AcceptedWithinSpent` | packages/upstream/src/quota.ts:77-87 | In any window calls are accepted no more often than units are spent |
| `Quotas.CallsAreCounted` | packages/upstream/src/quota.ts:78-87 | Every call is accepted or counted as rejected, once, whatever it costs and however the counter is retuned |
| `Quotas.QuotaCounter.constructor` | packages/upstream/src/quota.ts:44-50 | A new counter has the policy and no spends |
| `Quotas.QuotaCounter.Prune` | packages/upstream/src/quota.ts:52-61 | The index loop drops exactly the model prefix |
| `Quotas.QuotaCounter.TakeSnapshot` | packages/upstream/src/quota.ts:63-75 | What a snapshot reports, after pruning |
| `Quotas.QuotaCounter.TryConsume` | packages/upstream/src/quota.ts:78-87 | Spends all of the cost or nothing, as the model decides |
| `Quotas.QuotaCounter.Retune` | packages/upstream/src/quota.ts:105-115 | Adopts a valid different policy and prunes by it; otherwise changes nothing |
| `Quotas.QuotaCounter.MsUntilAvailable` | packages/upstream/src/quota.ts:118-125 | Reports the model wait |
| `RateLimiters.PacedUnderAnySchedule` | packages/upstream/src/rate-limiter.ts:137-196 | Under every interleaving of calls, wake-ups on time or early, and shutdowns, any window of length w holds at most ceil(w / minIntervalMs) dispatches |
| `RateLimiters.DispatchesAreSpaced` | packages/upstream/src/rate-limiter.ts:159-184 | Consecutive dispatches are at least minIntervalMs apart |
| `RateLimiters.SpacedWindow` | packages/upstream/src/rate-limiter.ts:108-113 | Spaced instants put at most ceil(w / gap) into a window of length w |
| `RateLimiters.FifoConservation` | packages/upstream/src/rate-limiter.ts:137-196 | Callers are resolved in arrival order; calls = dispatched + queued + rejected + swept; the queue never exceeds its depth |
| `RateLimiters.RefusedIffFull` | packages/upstream/src/rate-limiter.ts:137-145 | After any run a caller is refused iff exactly maxQueueDepth others wait, and otherwise waits behind them |
| `RateLimiters.QueueFills` | packages/upstream/src/rate-limiter.ts:137-170 | For all settings a run makes any number of callers up to maxQueueDepth wait with nobody refused |
| `RateLimiters.DispatchesAreGrants` | packages/upstream/src/rate-limiter.ts:170-179 | The counter is the number of grants, the recorded history their first 20,000 times, and the last dispatch the last grant |
| `RateLimiters.HistoryIsSorted` | packages/upstream/src/rate-limiter.ts:170-178 | In every reachable state the recorded history is in order, as the peak report requires |
| `RateLimiters.WaitingImpliesDrainer` | packages/upstream/src/rate-limiter.ts:159-184 | In every state of every run a non-empty queue implies that the drain loop is running or asleep, not finished |
| `RateLimiters.LoopEndsIff` | packages/upstream/src/rate-limiter.ts:159-196 | A drain loop starts only for a caller that is queued and ends only where it finds the queue empty; a sweep ends none |
| `RateLimiters.WakingServesTheOldest` | packages/upstream/src/rate-limiter.ts:163-179 | A drain loop that wakes serves the oldest caller iff nobody was served before or minIntervalMs has passed since the last grant; one that wakes early sleeps on unchanged |
| `RateLimiters.RateLimiter.constructor` | packages/upstream/src/rate-limiter.ts:73-89 | A new limiter is idle |
| `RateLimiters.RateLimiter.Acquire` | packages/upstream/src/rate-limiter.ts:137-151 | Accepts iff fewer than maxQueueDepth callers wait; a refusal only counts; an accepted caller is queued and the loop runs if none is active |
| `RateLimiters.RateLimiter.WakeUp` | packages/upstream/src/rate-limiter.ts:167-169 | The end of a sleep resumes the loop |
| `RateLimiters.RateLimiter.Loop` | packages/upstream/src/rate-limiter.ts:163-183 | The loop is a run of model iterations at the clock readings it took |
| `RateLimiters.RateLimiter.Dispatch` | packages/upstream/src/rate-limiter.ts:173-178 | Stamps, counts and records one dispatch |
| `RateLimiters.RateLimiter.DrainAndReject` | packages/upstream/src/rate-limiter.ts:190-196 | Empties the queue, returns those swept and changes nothing else |
| `RateLimiters.RateLimiter.PeakInWindow` | packages/upstream/src/rate-limiter.ts:114-129 | Returns the true maximum over all windows of the recorded history, attained by one |
| `MockProvider.QuotaIsNeverRefused` | load/mock-upstreams/lib/ratelimit.js:25-40 | Whatever a quota counter with the provider limit and window accepts, the fixed-window enforcer allows |
| `MockProvider.DelayedQuotaIsNeverRefused` | packages/upstream/src/provider-client.ts:319-342 | With up to `delay` between spend and arrival, a quota window longer than the provider window by `delay` is safe |
| `MockProvider.ShorterQuotaWindowIsRefused` | load/mock-upstreams/lib/ratelimit.js:25-40 | For an arbitrary delayed stream that length is needed: a fixed quota of any shorter window lets through a stream within the delay which the enforcer refuses |
| `MockProvider.PacedIsNeverRefused` | packages/upstream/src/rate-limiter.ts:159-184 | Every stream the pacer dispatches passes a window of ceil(window / interval), and of one when the interval covers the window |
| `MockProvider.SlidingImpliesFixed` | load/mock-upstreams/lib/ratelimit.js:25-40 | If no sliding window of the arrivals exceeds the limit, no request is refused |
| `MockProvider.WindowCountsArrivals` | load/mock-upstreams/lib/ratelimit.js:25-40 | A window counter is exactly the requests that arrived inside that window, which one of them opened |
| `MockProvider.VerdictIsExact` | load/mock-upstreams/lib/ratelimit.js:25-40 | Every answer in terms of the arrivals alone: allowed iff no more than the limit arrived in the window so far, the rest remains, and the seconds to the reset are the least whole number, at least one, that covers them |
| `MockProvider.CleaningIsInvisible` | load/mock-upstreams/lib/ratelimit.js:44-48 | Sweeping stale windows changes no answer ever given |
| `MockProvider.RateLimiter.Check` | load/mock-upstreams/lib/ratelimit.js:25-40 | Counts the request in its window and judges it, all five fields |
| `MockProvider.RateLimiter.Sweep` | load/mock-upstreams/lib/ratelimit.js:44-48 | Keeps exactly the windows that are not over for more than 60,000 ms, unchanged |
| `MockProvider.RateLimiter.Reset` | load/mock-upstreams/lib/ratelimit.js:50-52 | Forgets every window |
| `EndToEnd.ClientIsNeverRefused` | packages/upstream/src/provider-client.ts:319-368 | However many executions run, retry and interleave, an unpaced client with the provider limit and window is never refused by the enforcer |
| `EndToEnd.FetchesWithinQuota` | packages/upstream/src/provider-client.ts:319-368 | In any window all executions of an unpaced client with a fixed policy together fetch at most the limit |
| `EndToEnd.PacedClientIsNeverRefused` | packages/upstream/src/provider-client.ts:340-368 | However its executions run, a paced client is never refused by a provider that allows ceil(window / interval) requests per window |
| `EndToEnd.PacedQuotaIsNeverRefused` | packages/upstream/src/provider-client.ts:319-368 | A paced client with a fixed quota of the provider limit over a window at least as long as the provider window is never refused while its sleeps end on time |
| `EndToEnd.PacedFetchesWithinQuota` | packages/upstream/src/provider-client.ts:319-368 | With sleeps that end on time the requests of a paced client, though they leave later than their units were spent, stay within the quota in every window of its own length |
| `EndToEnd.LatePacedQuotaIsNeverRefused` | packages/upstream/src/provider-client.ts:319-368 | If no sleep is late by more than a bound, a quota window longer than the provider window by maxQueueDepth * (minIntervalMs + bound) is safe |
| `EndToEnd.LateSleepIsRefused` | packages/upstream/src/rate-limiter.ts:159-184 | With equal windows a constructed run of client and pacer, in which one sleep of all ends late, by as little as a millisecond, is refused |
| `EndToEnd.AdaptiveClientIsRefused` | packages/upstream/src/provider-client.ts:464-482 | A client that began with the provider limit and window and adopts after each answer exactly the limit and remaining seconds that answer declared is refused on its third call, halfway through the provider window, for every window of whole seconds |
| `PacedClients.SlotsFindTheirExecution` | packages/upstream/src/provider-client.ts:340-355 | In every state of client and pacer together, whoever the pacer serves or refuses is an execution awaiting its slot |
| `PacedClients.FetchesAreSpaced` | packages/upstream/src/provider-client.ts:340-368 | The requests of a paced client leave at least minIntervalMs apart |
| `PacedClients.WaitIsBounded` | packages/upstream/src/rate-limiter.ts:137-184 | If no sleep is late by more than a bound, every request leaves within maxQueueDepth * (minIntervalMs + bound) of when it asked |
| `PacedClients.RequestsLeaveInTurn` | packages/upstream/src/rate-limiter.ts:137-184 | In every run requests leave in the order in which they asked, each at the later of its asking and one interval after the one before, or at most the lateness of a sleep after that |
| `PacedClients.PacingKeepsSpread` | packages/upstream/src/rate-limiter.ts:159-184 | A stream served that way on time is no denser than it was asked: if any limit + 1 askings span a window, so do the departures |
| `PacedClients.SpreadIff` | load/mock-upstreams/lib/ratelimit.js:25-40 | Sorted instants have at most limit in every window of a length iff any limit + 1 of them span it |
| `PacedClients.AlwaysSpentFor` | packages/upstream/src/provider-client.ts:319-342 | In any window, every request sent or queued has its own quota unit spent in that window at the time it asked |
| `TrafficStats.ProviderStats.RecordRequest` | load/mock-upstreams/lib/stats.js:39-45 | Buckets, total and the first and last instants stay those of the arrival log |
| `TrafficStats.ProviderStats.Sweep` | load/mock-upstreams/lib/stats.js:106-111 | Forgets the buckets older than an hour and no others |
| `TrafficStats.ProviderStats.MaxRps1s` | load/mock-upstreams/lib/stats.js:67-71 | The true maximum over all retained seconds, attained by one |
| `TrafficStats.ProviderStats.MaxPerMinute` | load/mock-upstreams/lib/stats.js:75-86 | The true maximum over all minutes that start on a retained whole second, attained by one |
| `TrafficStats.RollingMinuteExact` | load/mock-upstreams/lib/stats.js:73-86 | A rolling minute is its whole-second minute less the head before it starts plus the tail before it ends, and beats it iff the tail is larger |
| `TrafficStats.PeakIsRollingIff` | load/mock-upstreams/lib/stats.js:73-86 | The peak the method reports is the highest count of any retained rolling minute iff for the rolling minute at every retained arrival the tail exceeds the head by no more than its whole-second minute falls short of the peak |
| `TrafficStats.RollingMinuteBound` | load/mock-upstreams/lib/stats.js:73-86 | No rolling minute exceeds the reported peak by more than the busiest second, and none that starts on a whole second exceeds it |
| `TrafficStats.RollingMinuteIsMissed` | load/mock-upstreams/lib/stats.js:73-86 | The gap is reached for every n: a rolling minute of 2n requests of which no reported minute shows more than n |
| `QuotaStores.ScriptsKeepExpiry` | apps/bff/src/lib/upstream-budget.ts:254-292 | No script leaves a counter without expiry, a settle never creates one or moves its expiry, an expiry of the same window only moves later, other keys are untouched |
| `QuotaStores.ScriptsAreExact` | apps/bff/src/lib/upstream-budget.ts:254-292 | What each of the three scripts does to the store in one closed form: reservation and hit add to the live value and set the expiry only where it was zero, a settle adds to an expiring counter but not below zero |
| `QuotaStores.Ttl` | apps/bff/src/lib/upstream-budget.ts:254-292 | Seconds left are within half a second of the remaining time; -1 iff there is no expiry, -2 iff there is no live counter |
| `QuotaStores.WindowSeconds` | apps/bff/src/lib/rate-limit-store.ts:115-118 | The window is the least whole number of seconds, at least one, that covers the milliseconds |
| `QuotaStores.IndexUnique` | apps/bff/src/lib/rate-limit-store.ts:119-120 | An instant belongs to exactly one window index |
| `QuotaStores.IncrementCountsIff` | apps/bff/src/lib/redis.ts:70-77 | One more hit keeps the counter of its window right iff its script does not find that counter expired |
| `QuotaStores.CounterIsWindowHits` | apps/bff/src/lib/rate-limit-store.ts:119-122 | Over any run of hits, keyed at one instant and counted at a later one, a window counter is exactly the hits of that window after every script iff no script of the window finds it expired |
| `QuotaStores.PromptAlwaysFinds` | apps/bff/src/lib/rate-limit-store.ts:119-122 | Scripts that run inside the window of their key never find its counter expired |
| `QuotaStores.LateHitIsAdmittedAgain` | apps/bff/src/lib/rate-limit-store.ts:119-122 | A script that runs one millisecond after its window re-creates the counter, so the hit is admitted although the maximum was used up |
| `QuotaStores.AdmittedByRank` | apps/bff/src/lib/rate-limit-store.ts:109-126 | In a window whose scripts have always found their counter a hit is admitted iff it is among the first max hits of the window |
| `QuotaStores.AdmittedPerWindow` | apps/bff/src/lib/rate-limit-store.ts:109-126 | Such a window admits at most max hits |
| `QuotaStores.AtMostDoubleBurst` | apps/bff/src/lib/redis.ts:62-69 | Any interval of one window length admits at most 2 * max hits, if the two windows it touches have always found their counters |
| `QuotaStores.DoubleBurstHappens` | apps/bff/src/lib/redis.ts:62-69 | The bound is reached |
| `QuotaStores.QuotaStore.RunReserve` | apps/bff/src/lib/upstream-budget.ts:254-269 | The script grants iff the value is below the limit and changes only its key |
| `QuotaStores.QuotaStore.RunSettle` | apps/bff/src/lib/upstream-budget.ts:280-292 | The script does nothing without a live expiring key, else adds the difference, clamped at zero |
| `QuotaStores.QuotaStore.RunIncrement` | apps/bff/src/lib/redis.ts:70-96 | The script counts and expires; a missing expiry is reported as the whole window |
| `UpstreamBudgets.BudgetConservation` | apps/bff/src/lib/upstream-budget.ts:254-405 | In any run of any number of concurrent requests a live window counter equals settled calls + outstanding reservations + units whose settle was lost in every state, iff no reservation granted under the key found the counter gone and something charged |
| `UpstreamBudgets.PromptAlwaysFindsCounter` | apps/bff/src/lib/upstream-budget.ts:341-355 | In runs whose reserve scripts run inside the window of their key that never happens, for any key |
| `UpstreamBudgets.ClampNeverFires` | apps/bff/src/lib/upstream-budget.ts:286-290 | Where no reservation of the key found its counter gone, the clamp at zero of the settle script never fires |
| `UpstreamBudgets.ActionConserves` | apps/bff/src/lib/upstream-budget.ts:254-292 | Every action of a request changes the counter by what it changes in that request's share |
| `UpstreamBudgets.ReserveConservesIff` | apps/bff/src/lib/upstream-budget.ts:264-268 | A granted reservation keeps the counter right iff its key is still live or nothing was ever charged to it |
| `UpstreamBudgets.LateReserveForgets` | apps/bff/src/lib/upstream-budget.ts:341-355 | A reserve script that runs when its window counter has just expired re-creates a counter that forgets a held unit |
| `UpstreamBudgets.LateReserveIsReached` | apps/bff/src/lib/upstream-budget.ts:341-355 | A run of two requests reaches that state: the second computes its key in the last millisecond of the window and its script runs one millisecond later |
| `UpstreamBudgets.LateReserveThenClamp` | apps/bff/src/lib/upstream-budget.ts:286-290 | From there two cache hits make the clamp fire |
| `UpstreamBudgets.OverrunBound` | apps/bff/src/lib/upstream-budget.ts:254-292 | If no request makes more than c >= 1 calls, the calls made under one window key never exceed authenticatedMax * c, or anonymousMax * c, by the tier of its subject, lost settles included |
| `UpstreamBudgets.OverrunIsReached` | apps/bff/src/lib/upstream-budget.ts:254-292 | The bound is reached for every maximum of either tier and every c |
| `UpstreamBudgets.ConcurrencyCap` | apps/bff/src/lib/upstream-budget.ts:341-386 | Held and lost reservations per window key never exceed the maximum of the tier |
| `UpstreamBudgets.SequentialOverrun` | apps/bff/src/lib/upstream-budget.ts:254-292 | Sequential requests make at most limit - 1 + c calls |
| `UpstreamBudgets.LostSettleUnderchargesIff` | apps/bff/src/plugins/upstream-budget.ts:169-176 | At rest the counter is below the calls made iff the requests with a lost settle made more calls than there are of them; the comment says never |
| `UpstreamBudgets.LostSettleUndercharges` | apps/bff/src/plugins/upstream-budget.ts:169-176 | For every c >= 2 a run with one lost settle leaves its window charged for one call where c were made |
| `UpstreamBudgets.LostReplyIsNeverSettled` | apps/bff/src/lib/upstream-budget.ts:341-362 | A granted reservation whose reply is lost stays charged and can take no further step |
| `UpstreamBudgets.LandingMattersIff` | apps/bff/src/lib/upstream-budget.ts:394-405 | Whether a settle lands makes a difference iff the request made a number of calls other than one |
| `UpstreamBudgets.UpstreamBudget.Reserve` | apps/bff/src/lib/upstream-budget.ts:341-386 | Fails closed without touching the store; otherwise grants iff the live value is below the maximum of the subject tier, under the key of the window the instant lies in, with every field of the decision |
| `UpstreamBudgets.UpstreamBudget.Settle` | apps/bff/src/lib/upstream-budget.ts:394-405 | Applies the difference, skips a zero one, counts a failure and never fails |
| `UpstreamBudgets.RequestBudget.constructor` | apps/bff/src/plugins/upstream-budget.ts:136-147 | A request starts with an empty account and no reservation |
| `UpstreamBudgets.RequestBudget.ChargeUpstreamCall` | apps/bff/src/lib/upstream-budget.ts:160-163 | Adds one call to the account |
| `UpstreamBudgets.RequestBudget.PreHandler` | apps/bff/src/plugins/upstream-budget.ts:149-167 | The handler runs iff the store answered and the live value was below authenticatedMax, or anonymousMax, by tier; a refused request changes nothing |
| `UpstreamBudgets.RequestBudget.OnResponse` | apps/bff/src/plugins/upstream-budget.ts:177-187 | Settles what was reserved against the calls made, and nothing when nothing was reserved |
| `SingleFlights.OneFlightPerKey` | packages/upstream/src/single-flight.ts:65-86 | If work never re-enters its own key synchronously, every state of every run has at most one unfinished flight per key, and the map holds exactly those |
| `SingleFlights.ReentryDoublesIff` | packages/upstream/src/single-flight.ts:72-84 | A call starts a second unfinished flight for its key iff that key's work is being invoked and not yet registered |
| `SingleFlights.ReentryHappens` | packages/upstream/src/single-flight.ts:72-84 | Work that calls run for its own key at once reaches that state |
| `SingleFlights.CallsAreStartedOrJoined` | packages/upstream/src/single-flight.ts:65-86 | Between ticks started + joined is the number of calls and started the number of work invocations |
| `SingleFlights.JoinSharesTheFlight` | packages/upstream/src/single-flight.ts:66-70 | A joining caller holds the one unfinished flight of its key ever after |
| `SingleFlights.CallersGetTheWorks` | packages/upstream/src/single-flight.ts:65-86 | In every run whoever started or joined a flight holds outcome o iff the work of that flight settled with o |
| `SingleFlights.OutcomeIsTheWorks` | packages/upstream/src/single-flight.ts:76-85 | In every run the work of a flight has settled once, with the outcome the flight has, or not at all if it is pending |
| `SingleFlights.RegistrationLasts` | packages/upstream/src/single-flight.ts:77-84 | A key leaves the map only with the clean-up of the flight it maps to, and changes hands only under re-entry |
| `SingleFlights.OutcomesAreStable` | packages/upstream/src/single-flight.ts:76-85 | No later step changes the flight a caller holds, its key or its outcome |
| `SingleFlights.EmptyAtRest` | packages/upstream/src/single-flight.ts:76-82 | Once every flight is finished the map is empty |
| `SingleFlights.OnePerKey` | packages/upstream/src/single-flight.ts:65-86 | Two unfinished flights never share a key |
| `SingleFlights.CoalescedStep` | packages/upstream/src/single-flight.ts:65-86 | Every step keeps the map and the unfinished flights in agreement |
| `SingleFlights.SingleFlight.StartRun` | packages/upstream/src/single-flight.ts:65-76 | The head of run joins iff the key is in the map, else starts a flight |
| `SingleFlights.SingleFlight.FinishRun` | packages/upstream/src/single-flight.ts:84-85 | The tail of run registers the flight whose work has just returned |
| `SingleFlights.SingleFlight.Settle` | packages/upstream/src/single-flight.ts:76 | The flight settles with exactly the outcome of the work |
| `SingleFlights.SingleFlight.Finally` | packages/upstream/src/single-flight.ts:76-82 | The guarded delete removes the entry iff it is still this flight |
| `SingleFlights.SingleFlight.Has` | packages/upstream/src/single-flight.ts:96-98 | True iff a registered unfinished flight for the key exists |
| `Idempotency.OneExecutorIff` | apps/bff/src/lib/idempotency.ts:87-132 | Over whole runs at most one request per key executes at a time iff none was told to proceed while an executor that owns no live row was running |
| `Idempotency.SecondExecutorIff` | apps/bff/src/lib/idempotency.ts:104-132 | One step makes a second request for a key execute iff it is told to proceed, by an insert without conflict or a select that finds nothing, beside an executor that owns no live row |
| `Idempotency.SecondNeedsStray` | apps/bff/src/lib/idempotency.ts:126-132 | Whoever is joined that way owns no live row: it was itself told to proceed by a select, or has outlived its row |
| `Idempotency.SoleNeverIntruded` | apps/bff/src/lib/idempotency.ts:87-132 | Where at most one request per key ever executed, no request finished in place of a live owner |
| `Idempotency.OrderlyRunsAreSole` | apps/bff/src/lib/idempotency.ts:87-132 | If handlers finish within the lifetime of their row and no select tells a request to proceed, at most one request per key executes, whatever else interleaves |
| `Idempotency.AtMostOneOwner` | apps/bff/src/lib/idempotency.ts:98-144 | While a row is unexpired at most one request owns it; every other insert conflicts and every other select answers in-flight or hash conflict, in runs where no request without a live row finishes over an owner |
| `Idempotency.ReplaysExactly` | apps/bff/src/lib/idempotency.ts:113-159 | A completed key keeps exactly its response until it expires, whatever happens, iff no other request for it was still executing |
| `Idempotency.OwnerAnswersForGood` | apps/bff/src/lib/idempotency.ts:146-159 | So a live owner's completion is final iff it is the only executor of its key |
| `Idempotency.CompletedIsStable` | apps/bff/src/lib/idempotency.ts:147-177 | A completed row stays as it is until it expires iff no executor completes the key with another response |
| `Idempotency.ReplaysLatest` | apps/bff/src/lib/idempotency.ts:113-143 | Every claim on a completed, unexpired key gets the latest completion's response for the row's hash and a conflict for any other |
| `Idempotency.ReleaseKeepsCompleted` | apps/bff/src/lib/idempotency.ts:161-177 | A release never reopens a completed key, whoever releases |
| `Idempotency.LeasesAlwaysBacked` | apps/bff/src/lib/idempotency.ts:98-177 | Live owners have their rows in every state of a run iff no step of it is a completion or release, by a request that owns no live row, of a key that another request owns |
| `Idempotency.BackedStepIff` | apps/bff/src/lib/idempotency.ts:146-177 | The same for a single step |
| `Idempotency.OtherRowsUntouched` | apps/bff/src/lib/idempotency.ts:113-124 | No step changes a row of another user or key |
| `Idempotency.OtherUsersUntouched` | apps/bff/src/lib/idempotency.ts:113-124 | Nor does any run |
| `Idempotency.StaleReleaseIff` | apps/bff/src/lib/idempotency.ts:161-177 | While live owners have their rows, a release removes another request's live claim iff the releasing request owns nothing live and has the same key |
| `Idempotency.StaleCompleteIff` | apps/bff/src/lib/idempotency.ts:146-159 | While live owners have their rows, a completion replaces another response iff it comes from a request that owns nothing live |
| `Idempotency.SlowRequestEvictsSuccessor` | apps/bff/src/lib/idempotency.ts:161-177 | For every request slower than the lifetime a run exists in which its release evicts its successor |
| `Idempotency.VanishedRowDoubles` | apps/bff/src/lib/idempotency.ts:126-132 | At one instant: a released row makes a conflicted claim proceed without a row, the next claim owns the key, and the first can release or answer for it |
| `Idempotency.ExpiredRowDoubles` | apps/bff/src/lib/idempotency.ts:126-132 | Two claims on an expired row that has not been swept both proceed |
| `Idempotency.IdempotencyKeys.ClaimKey` | apps/bff/src/lib/idempotency.ts:98-144 | Both statements of a claim, with whatever other sessions do to the table between them |
| `Idempotency.IdempotencyKeys.InsertKey` | apps/bff/src/lib/idempotency.ts:104-111 | The insert creates the row iff there is none |
| `Idempotency.IdempotencyKeys.SelectKey` | apps/bff/src/lib/idempotency.ts:113-143 | The select and the four answers the program makes of it |
| `Idempotency.IdempotencyKeys.CompleteKey` | apps/bff/src/lib/idempotency.ts:147-159 | The update of the row, if it is there |
| `Idempotency.IdempotencyKeys.ReleaseKey` | apps/bff/src/lib/idempotency.ts:167-177 | The delete of the row, if it has no response |
| `CanonicalJson.CanonicalFormIsExact` | apps/bff/src/lib/idempotency.ts:74-85 | Two well-formed values have the same canonical text iff they are equal up to property order and undefined properties |
| `CanonicalJson.PreimageIsExact` | apps/bff/src/lib/idempotency.ts:62-72 | For single-line methods, two requests have the same fingerprint preimage iff method, route and body agree up to that equivalence, whatever the routes hold |
| `CanonicalJson.PreimageSplits` | apps/bff/src/lib/idempotency.ts:62-72 | For any method and route, two preimages are equal iff the bodies are equivalent and method and route read alike with a newline between |
| `CanonicalJson.CanonHasNoNewline` | apps/bff/src/lib/idempotency.ts:74-85 | Canonical text is a single line |
| `CanonicalJson.NewlineCollides` | apps/bff/src/lib/idempotency.ts:62-72 | With a newline in the method there is a collision for any texts around it: it can be read as the end of a shorter method |
| `CanonicalJson.OrderAndUndefinedDoNotMatter` | apps/bff/src/lib/idempotency.ts:67-68 | Swapping two properties or adding an undefined one gives an equivalent value |
| `CanonicalJson.EscapeInjective` | apps/bff/src/lib/idempotency.ts:79-84 | Escaped string contents determine the string, surrogate halves included |
| `CanonicalJson.EscapeIsMinimal` | apps/bff/src/lib/idempotency.ts:79-84 | A unit is printed as it is unless it must be escaped, in two units where such an escape exists and otherwise in six with lower-case digits |
| `CanonicalJson.OrdinaryIsPrinted` | apps/bff/src/lib/idempotency.ts:79-84 | Text without quotes, backslashes, controls and lone surrogates is printed unchanged |
| `JsonReaders.CanonReadsBack` | apps/bff/src/lib/idempotency.ts:74-85 | Round trip: an independent reader of the RFC 8259 grammar reads the canonical text of any body to an equivalent body with nothing left over |
| `JsonReaders.StringReadsBack` | apps/bff/src/lib/idempotency.ts:79-84 | An escaped string, read by the grammar of section 7, is the string |
| `CanonicalJson.CanonNeutral` | apps/bff/src/lib/idempotency.ts:80-84 | Every canonical text is balanced, with no delimiter outside its brackets and strings |
| `CanonicalJson.NeutralPrefixFree` | apps/bff/src/lib/idempotency.ts:80-84 | Balanced texts followed by a delimiter are prefix-free, so joined lists decode in one way |
| `CanonicalJson.CanonInjective` | apps/bff/src/lib/idempotency.ts:74-85 | Equal canonical text implies equivalent values |
| `CanonicalJson.EquivPrintsAlike` | apps/bff/src/lib/idempotency.ts:81-83 | Equivalent values have equal canonical text |
| `Merging.MergeIgnoresOrder` | packages/discovery/src/merge.ts:120-229 | Any two lists with the same candidates give the same sequence of (identity, score, sources) |
| `Merging.KeysAreExact` | packages/discovery/src/merge.ts:166-178 | A (identity, score, sources) is in the result iff some candidate has that non-empty identity, the score is the group maximum for one source and that maximum plus its log2(n) fold for n sources, and the sources are the sorted distinct sources |
| `Merging.AgreementRanksHigher` | packages/discovery/src/merge.ts:104-107 | With a strictly increasing log2 that is 0 at 1, of two results with one positive peak the one with more sources scores and ranks strictly higher; the score is the peak iff there is one source |
| `Merging.ResultsAreRanked` | packages/discovery/src/merge.ts:179 | The result is strictly sorted by score, then identity; no identity appears twice |
| `Ordering.LessIsLexicographic` | packages/discovery/src/merge.ts:179 | The tie-break is the lexicographic order on code units |
| `Merging.GroupsAreExact` | packages/discovery/src/merge.ts:135-164 | The map holds one entry per identity, with exactly the peak and the source set of its candidates |
| `Merging.AttributionIsKept` | packages/discovery/src/merge.ts:109-118 | Every attribution of a candidate is listed under its identity, once per source and url, the first one offered, in the order of those offers; nothing else is listed |
| `Merging.RecordingIdSurvives` | packages/discovery/src/merge.ts:151-163 | A merged track has a recording id iff some candidate of its identity has one; title and artist are those of one candidate; bestScore is the peak |
| `Merging.ArtistIdDependsOnOrder` | packages/discovery/src/merge.ts:151-163 | The artist id of a losing candidate is kept or dropped depending on the order of the candidates |
| `Merging.ArtistIdSurvivesIff` | packages/discovery/src/merge.ts:151-163 | A merged track has an artist id iff some candidate with one led: it outscored all earlier ones of its identity or was the first with a recording id |
| `Merging.TrackShows` | packages/discovery/src/merge.ts:151-163 | Names, recording id and artist id of a merged track each come from the last leading candidate that has one; a candidate leads iff it outscores all earlier ones of its identity or is the first with a recording id |
| `Merging.TakesOverIff` | packages/discovery/src/merge.ts:153-162 | The code lets a candidate take over iff it leads in that sense |
| `Merging.ArtistIdSurvives` | packages/discovery/src/merge.ts:213 | A merged artist has an artist id iff some candidate of its identity has one |
| `Merging.ArtistShows` | packages/discovery/src/merge.ts:195-215 | A merged artist shows the name of the first candidate and the first artist id any candidate brings |
| `Merging.MergeCandidates` | packages/discovery/src/merge.ts:135-181 | The map loop, the listing loop and the sort compute the specified merge |
| `Merging.AddCandidate` | packages/discovery/src/merge.ts:135-164 | The loop body on the map, in place |
| `Merging.ListGroups` | packages/discovery/src/merge.ts:166-178 | The listing loop, in map order |
| `Merging.MergeTracks` | packages/discovery/src/merge.ts:120-181 | Exactly the called-for results, strictly ranked, each with the attribution, names and ids of its candidates as above |
| `Merging.MergeArtists` | packages/discovery/src/merge.ts:183-229 | Exactly the called-for results, strictly ranked, each with the attribution, name and id of its candidates as above |
| `Envelopes.RotationRoundTrip` | packages/crypto/src/envelope.ts:178-233 | After sealing, through any sequence of rewraps under changing active keys and any other encryptions, the ciphertext is untouched, every configuration with the current key opens to the sealed plaintext, and no other context opens it |
| `Envelopes.AadInjective` | packages/crypto/src/envelope.ts:76-86 | No two contexts share associated data |
| `Envelopes.PrefixedDecodes` | packages/crypto/src/envelope.ts:76-86 | A length-prefixed part is determined by any text that starts with it |
| `Envelopes.U32IsBigEndian` | packages/crypto/src/envelope.ts:82-83 | A length is written as four bytes, highest first |
| `Envelopes.SplitInverts` | packages/crypto/src/envelope.ts:104-111 | Slicing nonce, ciphertext and tag inverts their concatenation |
| `Envelopes.OpensExactly` | packages/crypto/src/envelope.ts:104-126 | An issued payload opens under its own key and associated data, and under no other |
| `Envelopes.OpensIff` | packages/crypto/src/envelope.ts:104-126 | Fewer than 28 bytes are too short; any other payload opens iff its first 12 bytes, middle and last 16 were issued as nonce, body and tag under this key and associated data, and is a tag mismatch otherwise |
| `Envelopes.Check` | packages/crypto/src/envelope.ts:143-158 | A key set is accepted iff it is not empty, every key has 32 bytes and the active one is among them; which error otherwise |
| `Envelopes.Opened` | packages/crypto/src/envelope.ts:201-209 | Which error opening gives: the length overflow iff a part of the context is too long, then the unknown key iff it is not configured |
| `Envelopes.SealIsIntact` | packages/crypto/src/envelope.ts:178-198 | A sealed credential wraps its data key, which encrypts the plaintext |
| `Envelopes.IntactRun` | packages/crypto/src/envelope.ts:218-233 | Every lawful run of rewraps keeps that, and the ciphertext |
| `Envelopes.OpensUnderOwnContextOnly` | packages/crypto/src/envelope.ts:201-209 | An intact credential opens under its own context and no other |
| `Envelopes.RewrapSucceedsIff` | packages/crypto/src/envelope.ts:218-233 | A rotation step moves the row to the active key iff the configuration still holds the old key |
| `Envelopes.EnvelopeCipher.AssociatedData` | packages/crypto/src/envelope.ts:76-86 | The chunk loop computes the specified bytes, or fails on a part of 2^32 bytes or more |
| `Envelopes.EnvelopeCipher.Seal` | packages/crypto/src/envelope.ts:178-199 | Fails iff the plaintext is empty or the context too long; otherwise the sealed row, with the data key scrubbed |
| `Envelopes.EnvelopeCipher.Open` | packages/crypto/src/envelope.ts:201-209 | Opens through the wrapped data key, with each error the code raises |
| `Envelopes.EnvelopeCipher.Rewrap` | packages/crypto/src/envelope.ts:218-233 | One rotation step; succeeds iff the row is current or its data key opens |
| `Envelopes.EnvelopeCipher.Scrub` | packages/crypto/src/envelope.ts:195-197 | Every byte of the data key is zero |
| `LegalText.ImageIsExact` | apps/bff/src/lib/legal-documents.ts:320-327 | A text is left alone, and is a normal form of some text, iff it has no CR, no blank at a line end and at most one final newline |
| `LegalText.NormalizeIsIdempotent` | apps/bff/src/lib/legal-documents.ts:320-327 | Normalising twice is normalising once |
| `LegalText.NormalizeIsNormal` | apps/bff/src/lib/legal-documents.ts:320-327 | Every text reaches such a form in one pass |
| `LegalText.KeptLines` | apps/bff/src/lib/legal-documents.ts:316-327 | The lines of the normal form are the document's lines, trimmed at their ends, in order, without surplus empty lines at the end |
| `LegalText.SameFormIff` | apps/bff/src/lib/legal-documents.ts:316-327 | Two documents have one normal form iff they have the same such lines |
| `LegalText.CheckoutIsInvisible` | apps/bff/src/lib/legal-documents.ts:309 | Rewriting line endings to CRLF does not change the normal form |
| `LegalText.FinalNewlineIff` | apps/bff/src/lib/legal-documents.ts:313-314 | Adding the final newline is invisible iff the document, blanks aside, already ends its last line; the comment says always |
| `LegalText.FinalNewlineCanCount` | apps/bff/src/lib/legal-documents.ts:313-314 | A one-letter document shows the difference |

## Left out

- HTTP, fetch, AbortController, Fastify wiring, SQL and Redis drivers: an exchange is a nondeterministic outcome, a
  statement or script one atomic step on a map.
- Cryptographic strength, randomness, SHA-256 and HMAC: the cipher is ideal, nonces are distinct, and the fingerprint
  theorem is about the preimage of the hash.
- UTF-8 encoding of contexts and of the fingerprint preimage: contexts are given as bytes, texts as UTF-16 code units.
- Unicode normalisation behind merge identities, which are opaque texts here.
- `localeCompare`: identities are ranked by code unit. The merge theorems use only that the order is strict and total
  on the identities present, which the original order need not be for texts its locale equates.
- `Math.log2` and floating point: scores are real numbers and log2 is an arbitrary function.
- Numbers in JSON are their printed numerals, which `JsonReaders.ReadValue` takes as the longest run of numeral
  characters; NaN, -0 and values JSON.stringify treats specially are not modelled.
- The kill switch is a boolean read once per execution; its polling is left out.
- Redis rounds a remaining time to whole seconds; the model keeps milliseconds and counts expiry from the same clock.
- Skew between clocks, several processes, and upstream calls made after the response was sent.
- Postgres evaluates now() at the start of a transaction; the model takes the instant of the transaction's first
  statement. The default lifetime of a row is taken as 24 hours.
- Event callbacks that throw and a sleep that rejects.
- `mergeTracks` returns equal keys for reordered candidates; its titles, ids and attribution texts may differ, as
  `ArtistIdDependsOnOrder` shows, so no theorem says they agree.
- Scrubbing of decrypted data keys in open and rewrap, whose buffers nobody else holds.
- The budget's `spent` reader, snapshots of the breaker, `deleteByPrefix`, `claimOnce`, response statistics and
  percentiles: each follows from one body.
- Key shape validation, tier and exemption rules: single regular expressions and lookups.
- PacedClients: the continuation of a granted execution runs at the instant of the grant, as the pacer asks of its
  callers; the microtask between the two takes no time in the model.
- PacedQuotaIsNeverRefused: requires that the drain loop's sleeps end on time, because otherwise it is false, as
  `LateSleepIsRefused` shows; `LatePacedQuotaIsNeverRefused` is the theorem for late ones.
- ClientIsNeverRefused: is about unpaced clients with a fixed quota; `PacedClientIsNeverRefused` and
  `PacedQuotaIsNeverRefused` are the theorems for paced ones. For a client that adopts headers it is false, as
  `AdaptiveClientIsRefused` shows, and `KnowsWindowIff` is the exact condition.
- NeverWedges: is about the client with any pacer whatever; the pacer's own guarantees are stated about the pacer and
  about the two together.
- OverrunBound: requires the exact condition of `BudgetConservation` for its key, like ClampNeverFires, ConcurrencyCap,
  SequentialOverrun and LostSettleUnderchargesIff; nothing is said of keys whose counter was re-created.
- AtMostDoubleBurst: requires the exact condition of `CounterIsWindowHits` for the two windows an interval touches, like
  AdmittedByRank and AdmittedPerWindow for theirs, because `LateHitIsAdmittedAgain` breaks it.
- AtMostOneOwner: requires a run without intrusions, because otherwise it is false; `LeasesAlwaysBacked` is the exact
  condition.
- PreimageIsExact: requires single-line methods, because otherwise it is false, as `NewlineCollides` shows;
  `PreimageSplits` is the exact statement without that.
