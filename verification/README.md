# Verified model of the gateway's stateful core

The gateway relays LLM requests to upstream channels and accounts. Most of its controllers are plumbing; ten places
hold state machines, protocols or transformations whose promises range over whole runs or over every input. This
project models those places in Dafny and proves the promises. `dafny verify dfyconfig.toml` checks everything.

| module | models | main result |
|---|---|---|
| `Relay`, `RelayLog` | the two nested retry and failover loops of a relayed request | money, audit, exclusion and termination rules of every run |
| `KeepAliveWriter` | the writer shared by a heartbeat goroutine and the handler | every interleaving delivers the handler's JSON; when the response is byte for byte the same |
| `RateLimiter`, `RateLimiterRuns`, `ReservationRuns` | the in-memory limiter and its sweeper | agreement with an ideal log over unbounded history; when the sweeper is invisible |
| `DashboardSlots` | bounded admission over two Go channels | both bounds, no leak and no blocking receive under every interleaving |
| `LeaseCounter` | four Lua scripts over a Redis sorted set | every count is the number of live requests; when that fails |
| `Text`, `ModelNames`, `UpstreamModels` | reconciling a channel's models with its upstream | exactly when detecting and applying is a fixpoint |
| `MultiKey`, `MultiKeyRuns` | managing the keys of a channel and their three side maps | deletion with renumbering is a filter of the shown rows; exactly when it is not |
| `ModelsDev` | choosing among providers with a non-transitive price comparison | the choice is cheapest within one epsilon, without drift |
| `PriceDifferences` | the price difference table | rows and columns are exactly the genuine differences |
| `LikePattern` | escaping a search keyword for SQL LIKE | the query means "contains", for every keyword |
| `OggScanner` | the Ogg page loop of the Opus duration | parse of encode, for streams cut anywhere, and resynchronisation |
| `Wrappers`, `Tolerance` | a missing value; the price tolerance | shared by the modules above |

Code that updates fields is a class whose methods carry `ensures` that equate the new state with a step function of
the old state; loops are loops with invariants. The theorems are then about every sequence of steps.

## Where the code does less than its documentation

Each of these is proved as an exact condition, and the failing half by a concrete run or a whole failing family.

- A relayed request ends either served once or with an error and a refund if and only if the configured number of
  retries is not negative, or billing or the prompt audit already refused it (`Relay.Relay`). With a negative number
  the loop is never entered: no error, no dispatch, and the reserved quota is kept.
- Once part of the response is sent, the inner loop repairs nothing and fails over no more, but the outer loop does
  not ask. It goes on exactly when the error may be retried and no handled capacity error is left open; the next pass
  then dispatches exactly when it finds a channel and an account, the audit lets it through and the body can be read
  (`Relay.Attempt`). A run has a dispatch after a sending one if and only if such a pass begins after something was
  sent (`Relay.TryChannels`). With an upstream that always breaks off after the first part, every configured retry
  replays the response (`Relay.ReplayExample`).
- A reservation that has outlived its window still becomes a completed request when it is finalised, as long as no
  Reserve on its key and no sweep has pruned it (`ReservationRuns.LateFinalizeCounts`). A Finalize counts if and only
  if it presents the token under its own key and nothing has ended the reservation since
  (`ReservationRuns.FinalizeCountsExactly`).
- The sweeper of the rate limiter changes no decision if and only if `duration <= expiration + 1`
  (`RateLimiterRuns.SweeperInvisibleExactly`). Under the same condition, and only then, admissions and completed
  reservations stay within the limit in every window (`RateLimiterRuns.LimitHoldsExactly`,
  `ReservationRuns.CompletionsLimitedExactly`).
- Without an early heartbeat the response equals that of the bare writer if and only if the handler writes or flushes
  something, or leaves the headers as they were at its last WriteHeader (`KeepAliveWriter.FastResponseUnchanged`).
  Header edits after that with nothing written are lost.
- Applying all detected model changes leaves nothing pending under the same ignore list if and only if no detected
  name contains a comma (`UpstreamModels.ApplyAllIsFixpointExactly`); a name with one stays pending for ever
  (`UpstreamModels.CommaPendingForEver`). Under the ignore list as it is stored, a second condition is needed: no
  upstream name may be ignored only through an entry that is itself a detected name, because applying drops that
  entry (`UpstreamModels.ApplyAllStoredFixpointExactly`, `UpstreamModels.PatternExample`).
- `delete_key` shows exactly the remaining keys if and only if those keys, joined by newlines, are not taken for a
  JSON array of something else (`MultiKeyRuns.DeleteKeyView`). The keys `x`, `[1,` and `2]` without the first become
  `1` and `2` (`MultiKeyRuns.MisreadExample`).
- `delete_disabled_keys` leaves exactly the keys that are not auto-disabled if and only if there is one and the same
  holds of the joined text (`MultiKeyRuns.DeleteDisabledView`). When all are auto-disabled the empty key text is not
  written, and every key comes back enabled (`MultiKeyRuns.AllAutoDisabledComeBack`).
- With ttls that vary, a lease count never exceeds the number of live requests, and equals it if and only if the lease
  of each of them survived: since it was last acquired or refreshed, no call came after the key expiry set by the
  calls before it (`LeaseCounter.CountRightExactly`). That a call sets an expiry which another live lease outlasts
  matters only if no later call renews the key in time (`LeaseCounter.SafeWhereverCallsStop`, `LeaseCounter.RenewedInTime`).
- The cheapest-provider bound holds for the sorted fold and fails for other orders (`ModelsDev.UnsortedOrderDrifts`).

## What is taken as given

- Clocks are parameters and never run backwards; prices are `real`.
- Upstreams, billing, audits, account selection and channel selection answer through an environment that may answer
  anything, except that account selection never returns an excluded account (`LawfulRouter`).
- The error normalisers return an error when given one. `relayInfo.Billing` is set exactly when quota was reserved.
- The writer under the keep-alive writer behaves like Gin's: the first write or flush sends status and headers, later
  changes to them are not sent, and writes succeed. Header keys are canonical.
- Key texts are read by an arbitrary JSON array parser. Keys are not empty and hold no newline.
- The difference table is stated for distinct channel names and for prices that are not the literal text `same`.

## Model

| member | source | states |
|---|---|---|
| Relay.Relay | controller/relay.go:218-476 | over every run: one success that is the last event and no refund, or an error, no success and a refund of exactly what was charged, if and only if retries are not negative or the request was refused before the loop; the caller gets the reservation's error, the normalised prompt audit error, or the normalised error that the log blames: of the last audit, body, selection or dispatch that went wrong; the event rules hold; dispatches are bounded by attempts, failovers and three one-shot repairs |
| RelayLog.LawfulMeansRules | controller/relay.go:276-476 | the step-wise log discipline of the loops means the rules on the event sequence: nothing is dispatched after a success, a partial response or a rejected audit; at most one audit passes and every non-exempt dispatch follows it; failed-over accounts are pairwise distinct and not used again in that channel; after a dispatch that sent something there is no failover, and no dispatch before the outer loop goes on; a capacity error is followed by a failover or by the end |
| RelayLog.LawfulKeepsOrder | controller/relay.go:382-460 | the pairwise rules, for any two positions of the log |
| RelayLog.LawfulAudits | controller/relay.go:297-303 | every dispatch to a non-exempt account has a passed audit before it |
| RelayLog.LawfulAnswers | controller/relay.go:466-471 | after a handled capacity error comes a failover, or at most the final refund |
| RelayLog.FailedInEvents | middleware/distributor.go:528-531 | exclusion covers every account failed over from since the channel was last changed |
| RelayLog.SentInEvents | controller/relay.go:352-428 | after a sending dispatch either the outer loop has gone on or its pass is spent |
| Relay.EndIsReported | controller/relay.go:466-471 | a capacity error that no failover follows is the error the caller gets |
| Relay.Begin | controller/relay.go:218-225 | a charge exactly when quota is reserved |
| Relay.Finish | controller/relay.go:227-236 | the error that ended the loops, normalised; one refund exactly when a reserved request fails; nothing else in the log changes |
| Relay.TryChannels | controller/relay.go:256-476 | the outer loop ends, with the error that its log blames; it stops with an error only if retries are used up, capacity is exhausted, the audit rejected, or the error may not be retried; with negative retries it does nothing; a dispatch follows a sending one if and only if some pass that begins after something was sent gets as far as dispatching |
| Relay.Attempt | controller/relay.go:276-476 | one outer pass stops if and only if it was served, the audit rejected, a capacity error is left open or the error may not be retried, sent or not; otherwise it moves on to a later group or a higher retry count; it dispatches if and only if a channel and an account are found, the audit lets it through and the body is read, and after sending it ends with the upstream's answer |
| Relay.ServeAndJudge | controller/relay.go:293-475 | the pass over a channel that was found, and when the outer loop stops after it |
| Relay.GoOn | controller/relay.go:276-476 | the pass with the step to the next one, and when it replays a response already begun |
| Relay.InsistentReaches | controller/relay.go:466-476 | an upstream that always sends something and fails retryably is dispatched to in every pass |
| Relay.ReplayExample | controller/relay.go:276-476 | one such environment: as many dispatches as retries plus one, each after the first replaying |
| Relay.GetChannel | controller/relay.go:573-617 | the error of finding no channel exactly when no candidate group has one, otherwise what the account selection answers; the account is not excluded |
| Relay.NoteUnselected | controller/relay.go:279-291 | a failed selection is the error of the pass |
| Relay.EnterChannel | middleware/distributor.go:507-531 | the account that the new or current channel yields is not excluded |
| Relay.ResetExclusions | middleware/distributor.go:528-531 | exclusions survive within a channel and are dropped exactly on a change of channel |
| Relay.SelectGroup | service/channel_select.go:133-208 | the first group from the current one on that has a channel, the retry count it starts with, and progress of the pair (group, retries) |
| Relay.ServeChannel | controller/relay.go:293-464 | the inner loop ends; a channel is given up only when no repair and no failover is left; the context agrees with the log; it dispatches if and only if the first pass may send; each further dispatch is paid for by a failover or a one-shot repair, and there is none once something is sent |
| Relay.Pass | controller/relay.go:298-463 | one inner pass keeps the log lawful, dispatches exactly when the audit and the body allow, and consumes exactly one repair or failover if it asks for another |
| Relay.ApplyAudit | controller/relay.go:495-513 | it rejects exactly when the account is not exempt, no audit has passed and the audit objects; otherwise the account is exempt or the audit has passed; a rejection closes the log |
| Relay.GateAndRead | controller/relay.go:298-313 | the audit and the body are what stops a pass before it sends, and nothing else is |
| Relay.ReadBody | controller/relay.go:304-313 | an unreadable body ends the pass with status 413 or 400 |
| Relay.Dispatch | controller/relay.go:322-351 | what may follow a success, a partial response and any other error |
| Relay.SendAndRecover | controller/relay.go:322-463 | it dispatches exactly once and leaves only for a success, a partial response or for lack of alternatives |
| Relay.RepairOrRecover | controller/relay.go:352-379 | each repair flag is spent at most once, and nothing leads to another pass once anything is sent |
| Relay.Recover | controller/relay.go:380-463 | an incomplete stream fails over at most once per request, and only before anything is sent |
| Relay.RecoverIncomplete | controller/relay.go:382-408 | one failover per request after an incomplete stream; without one the stream's error stays |
| Relay.RecoverAccount | controller/relay.go:409-460 | it fails over exactly when nothing was sent, the disposition, the count and the time allow it and another account is found; it leaves as exhausted exactly for a capacity error |
| Relay.LeaveUnselected | controller/relay.go:452-459 | when no other account is found a capacity error stays the error and any other is replaced by the selection's |
| Relay.FailOver | controller/relay.go:428-451 | the excluded set grows by the failed account, and the next account is the one the selection answers, outside that set |
| Relay.ShouldRetry | controller/relay.go:641-683 | the retry decision as one condition, both directions |
| KeepAliveWriter.BodyIsPaddedJson | controller/non_stream_keepalive.go:47-112 | for every interleaving the body is newlines followed by exactly the handler's bytes |
| KeepAliveWriter.SameJsonText | controller/non_stream_keepalive.go:92-112 | so after leading whitespace the client reads the same text |
| KeepAliveWriter.FlagsExactly | controller/non_stream_keepalive.go:47-112 | when the application has taken over and when a heartbeat came first, by the calls alone |
| KeepAliveWriter.BareWriter | controller/non_stream_keepalive.go:17-30 | what the unwrapped writer delivers: all bytes, with the status and header of the first send |
| KeepAliveWriter.FastResponseUnchanged | controller/non_stream_keepalive.go:28-90 | status, headers and body equal the bare writer's, if and only if something is sent or no header edit follows the last commit |
| KeepAliveWriter.FastRunMirrors | controller/non_stream_keepalive.go:41-90 | without an early heartbeat wrapped and bare writer stay in step call by call |
| KeepAliveWriter.FastRunHeaders | controller/non_stream_keepalive.go:32-45 | which headers the wrapped writer holds and which have reached the underlying one |
| KeepAliveWriter.SlowResponseIsPinned | controller/non_stream_keepalive.go:63-112 | after a first heartbeat the status and the keep-alive headers are fixed, whatever the handler sets |
| KeepAliveWriter.KeepAliveHeaderMeaning | controller/non_stream_keepalive.go:98-106 | four headers set, the length withdrawn, every other header kept |
| KeepAliveWriter.StaysPinned | controller/non_stream_keepalive.go:63-82 | no later call changes what was pinned |
| KeepAliveWriter.NonStreamKeepAliveWriter.constructor | controller/non_stream_keepalive.go:140-146 | the handler starts with a copy of the original headers |
| KeepAliveWriter.NonStreamKeepAliveWriter.ReplaceHeader | controller/non_stream_keepalive.go:32-39 | the underlying headers become the handler's |
| KeepAliveWriter.NonStreamKeepAliveWriter.CommitApplicationHeader | controller/non_stream_keepalive.go:41-45 | headers are committed exactly before the first heartbeat |
| KeepAliveWriter.NonStreamKeepAliveWriter.WriteData | controller/non_stream_keepalive.go:47-61 | new state of a body write |
| KeepAliveWriter.NonStreamKeepAliveWriter.WriteStatus | controller/non_stream_keepalive.go:63-74 | new state of WriteHeader |
| KeepAliveWriter.NonStreamKeepAliveWriter.WriteStatusNow | controller/non_stream_keepalive.go:76-82 | new state of WriteHeaderNow |
| KeepAliveWriter.NonStreamKeepAliveWriter.FlushNow | controller/non_stream_keepalive.go:84-90 | new state of Flush |
| KeepAliveWriter.NonStreamKeepAliveWriter.WriteKeepAlive | controller/non_stream_keepalive.go:92-112 | new state of a heartbeat |
| RateLimiterRuns.RequestDecidesIdeally | common/rate-limit.go:65-95 | every decision is the one taken on the log of all admissions ever, whatever other keys and the sweeper do |
| RateLimiterRuns.IdealIsSpaced | common/rate-limit.go:65-95 | any `max + 1` consecutive admissions of the ideal log span at least `duration` seconds |
| RateLimiterRuns.AdmittedIsIdeal | common/rate-limit.go:65-95 | the requests the limiter itself admits are those of the ideal log |
| RateLimiterRuns.LimitHoldsExactly | common/rate-limit.go:34-95 | in every run at most `max` admissions fall into any `duration` seconds, if and only if duration is at most expiration plus one |
| RateLimiterRuns.EarlySweepBreaksLimit | common/rate-limit.go:34-49 | for every shorter expiration a run that admits one too many |
| RateLimiterRuns.QueueTracksIdeal | common/rate-limit.go:65-95 | the stored queue is the ideal log less entries outside every future window |
| RateLimiterRuns.SweeperInvisibleExactly | common/rate-limit.go:34-49 | the sweeper never changes a decision if and only if duration is at most expiration plus one |
| RateLimiterRuns.EarlySweepAdmitsTooMuch | common/rate-limit.go:34-49 | for every shorter expiration a run in which one request too many is admitted |
| RateLimiterRuns.RequestOnKey | common/rate-limit.go:65-95 | decision and new queue of the key, known or not |
| RateLimiterRuns.ReserveOnKey | common/rate-limit.go:102-141 | decision, token, queue and pending reservations of the key |
| RateLimiterRuns.FinalizeOnKey | common/rate-limit.go:146-170 | exactly one reservation goes, and one completion is added on success |
| RateLimiterRuns.SweepOnKey | common/rate-limit.go:43-59 | what a sweep does to one key |
| RateLimiterRuns.OtherKeysUntouched | common/rate-limit.go:65-170 | no operation touches another key |
| RateLimiterRuns.NoLimit | common/rate-limit.go:65-105 | a limit that is not positive admits always and changes nothing; a window that is not positive admits always |
| RateLimiterRuns.NoToken | common/rate-limit.go:146-149 | token 0 finalises nothing |
| RateLimiter.RemoveExpiredItems | common/rate-limit.go:183-201 | the suffix that begins at the first entry inside the window |
| RateLimiter.InMemoryRateLimiter.Request | common/rate-limit.go:65-95 | new state and answer |
| RateLimiter.InMemoryRateLimiter.Trim | common/rate-limit.go:112-126 | new state after pruning queue and reservations |
| RateLimiter.InMemoryRateLimiter.DropExpired | common/rate-limit.go:117-122 | the reservations still inside the window |
| RateLimiter.InMemoryRateLimiter.Reserve | common/rate-limit.go:102-141 | new state, token and answer |
| RateLimiter.InMemoryRateLimiter.Finalize | common/rate-limit.go:146-170 | new state |
| RateLimiter.InMemoryRateLimiter.Sweep | common/rate-limit.go:34-62 | new state of one sweep |
| RateLimiter.InMemoryRateLimiter.SweepReservations | common/rate-limit.go:50-59 | the reservations left by a sweep |
| ReservationRuns.CapacityNeverExceeded | common/rate-limit.go:97-141 | completed plus pending stays within the limit in every reachable state |
| ReservationRuns.SuccessesAreSpaced | common/rate-limit.go:97-170 | any `max + 1` consecutive completions span at least `duration` seconds, expiry and sweeping included |
| ReservationRuns.CompletionsLimitedExactly | common/rate-limit.go:34-170 | in every run at most `max` requests complete in any `duration` seconds, if and only if duration is at most expiration plus one |
| ReservationRuns.EarlySweepCompletesTooMuch | common/rate-limit.go:34-49 | for every shorter expiration a run that completes one too many |
| ReservationRuns.QueueTracksCompleted | common/rate-limit.go:163-169 | the stored queue is the log of completions less entries outside the window |
| ReservationRuns.FinalizeCapacity | common/rate-limit.go:156-162 | a failed Finalize gives back exactly one unit, a successful one none |
| ReservationRuns.IneffectiveFinalize | common/rate-limit.go:146-155 | a Finalize that finds no reservation changes nothing at all |
| ReservationRuns.TokensAreUnique | common/rate-limit.go:134-140 | tokens strictly increase over the whole run and all keys |
| ReservationRuns.PendingWasGranted | common/rate-limit.go:134-140 | a pending token was handed out earlier for that very key |
| ReservationRuns.WrongKeyHasNoEffect | common/rate-limit.go:152-155 | a token presented under another key has no effect |
| ReservationRuns.FinalizeAtMostOnce | common/rate-limit.go:146-170 | each token takes effect at most once in a run |
| ReservationRuns.FinalizeCountsExactly | common/rate-limit.go:97-170 | in any run a Finalize counts if and only if it follows the grant of its token, under the same key, and in between no Finalize of it, no Reserve on the key with a window it has outlived and no sweep it is too old for |
| ReservationRuns.PendingExactly | common/rate-limit.go:97-170 | a token is pending, with its original time, exactly as long as nothing has ended it |
| ReservationRuns.StepEnds | common/rate-limit.go:50-160 | the single operations that end a reservation, and that all others keep it |
| ReservationRuns.LateFinalizeCounts | common/rate-limit.go:146-170 | for every window and any later time a run in which an expired reservation becomes a completed request |
| DashboardSlots.AlwaysBalanced | controller/dashboard_query.go:23-49 | under every schedule of any number of callers both bounds hold and each channel's length is the number of callers that own a place in it |
| DashboardSlots.NextBalanced | controller/dashboard_query.go:23-49 | each single operation keeps that |
| DashboardSlots.ReceivesNeverBlock | controller/dashboard_query.go:27-38 | release and the deferred exit from the waiting room always find their place |
| DashboardSlots.EveryCallerAdvances | controller/dashboard_query.go:23-49 | no caller is ever stuck, and its operations move no one else |
| DashboardSlots.QuietMeansEmpty | controller/dashboard_query.go:23-49 | when all callers have finished, both channels are empty |
| DashboardSlots.AdmittedWhereverThereIsRoom | controller/dashboard_query.go:23-44 | a caller gets a free slot at once, else a free place to wait, and from there a slot that is free |
| DashboardSlots.RefusalsAreExplained | controller/dashboard_query.go:23-48 | over every schedule a caller is refused as busy only after finding all slots taken and then the whole waiting room taken or its time up, and as cancelled only after its context ended |
| DashboardSlots.StepExplained | controller/dashboard_query.go:23-48 | each step is explained by what the caller found |
| LeaseCounter.CountsAreExact | common/business_monitor_concurrency.go:13-53 | over every run with one ttl each returned count is the number of requests acquired or refreshed less than a ttl ago |
| LeaseCounter.StepAgrees | common/business_monitor_concurrency.go:13-53 | each script keeps the key in agreement with the history |
| LeaseCounter.CountingCallShowsLive | common/business_monitor_concurrency.go:13-53 | the members left by a counting script are exactly the live requests |
| LeaseCounter.ConstantTtlCovers | common/business_monitor_concurrency.go:13-36 | with one ttl no call shortens the key expiry below another lease |
| LeaseCounter.SafeExactlyWhenCovered | common/business_monitor_concurrency.go:13-36 | counts made at any time after one call are right if and only if no other live lease outlasts the key expiry it sets |
| LeaseCounter.CountRightExactly | common/business_monitor_concurrency.go:13-53 | in every run, with any ttls, a returned count never exceeds the number of live requests and equals it if and only if the lease of each of them survived |
| LeaseCounter.CountedExactly | common/business_monitor_concurrency.go:13-53 | the requests counted are exactly the live ones whose lease survived |
| LeaseCounter.LaterCountRightExactly | common/business_monitor_concurrency.go:37-42 | the same for a count made at any time after the run |
| LeaseCounter.ReplayHolds | common/business_monitor_concurrency.go:13-53 | the key holds leases that survived, all of them that are live, and the expiry last set |
| LeaseCounter.SafeWhereverCallsStop | common/business_monitor_concurrency.go:13-53 | counts stay right wherever the calls stop, if and only if every call of the run is covered |
| LeaseCounter.RenewedInTime | common/business_monitor_concurrency.go:13-36 | a run with an uncovered call in which every count is right |
| LeaseCounter.CoveredCountsAreExact | common/business_monitor_concurrency.go:13-53 | in every covered run the members left by a counting script are exactly the live requests |
| LeaseCounter.UncoveredLeaseIsLost | common/business_monitor_concurrency.go:13-36 | otherwise a count that misses a live request |
| LeaseCounter.LeaseKey.AcquireScript | common/business_monitor_concurrency.go:13-26 | new state and count |
| LeaseCounter.LeaseKey.RefreshScript | common/business_monitor_concurrency.go:27-36 | new state, without pruning |
| LeaseCounter.LeaseKey.CountScript | common/business_monitor_concurrency.go:37-42 | new state and count |
| LeaseCounter.LeaseKey.ReleaseScript | common/business_monitor_concurrency.go:43-53 | new state and count |
| UpstreamModels.ApplyAllIsFixpointExactly | controller/channel_upstream_update.go:143-236 | detecting again with the same ignore list after applying everything finds nothing, if and only if no detected name contains a comma |
| UpstreamModels.ApplyAllStoredFixpointExactly | controller/channel_upstream_update.go:781-829 | detecting again with the stored ignore list finds nothing, if and only if moreover no name off the channel is ignored only through an entry that was itself added |
| UpstreamModels.PatternLosesItsEntry | controller/channel_upstream_update.go:807-810 | adding a name spelled like an ignore entry makes a name that only this entry ignored pending |
| UpstreamModels.PatternExample | controller/channel_upstream_update.go:807-810 | the entry `regex:^ab` with the upstream names `regex:^ab` and `abc` |
| UpstreamModels.ApplyAllResult | controller/channel_upstream_update.go:781-829 | survivors in their old order, then the additions; no redirecting alias is dropped; nothing is left pending |
| UpstreamModels.RedetectFindsTheRemainder | controller/channel_upstream_update.go:781-829 | for any selection the stored pending lists are what a fresh detection finds, if and only if no added name contains a comma and the changed ignore list means the same for all names but the chosen ones |
| UpstreamModels.PlainNamesIgnoreAsChosen | controller/channel_upstream_update.go:213-224 | which is so when no detected name has the `regex:` prefix |
| UpstreamModels.CommaStaysPending | controller/channel_upstream_update.go:801-805 | a detected name with a comma is pending again after applying everything, under the old and the stored ignore list |
| UpstreamModels.CommaPendingForEver | controller/channel_upstream_update.go:781-829 | and after any number of rounds of applying and detecting |
| UpstreamModels.AppliedModels | controller/channel_upstream_update.go:794-805 | the new model list in closed form, free of duplicates and without removed aliases |
| UpstreamModels.AppliedIgnores | controller/channel_upstream_update.go:807-810 | the new ignore list has the old and the newly ignored names less the added ones |
| UpstreamModels.StoreAndRead | model/channel.go:290-295 | a clean comma-free list survives storing and reading |
| Text.TrimMeaning | controller/channel_upstream_update.go:100-100 | trimming takes off characters of the cut set at both ends and nothing else |
| Text.JoinOfSplit | model/channel.go:290-295 | splitting a list text loses nothing |
| UpstreamModels.ChannelRecord.DetectChanges | controller/channel_upstream_update.go:177-236 | new state of a detection |
| UpstreamModels.RemovedMeaning | controller/channel_upstream_update.go:226-236 | pending for removal are exactly the channel's names that the upstream does not offer and that redirect to no other, in their order |
| UpstreamModels.DetectedMeaning | controller/channel_upstream_update.go:185-225 | pending for addition are exactly the offered names that the channel does not have, no redirect targets and no entry ignores, in their order |
| UpstreamModels.IgnoredMeaning | controller/channel_upstream_update.go:214-220 | an entry ignores its very name, or after `regex:` what its pattern matches |
| UpstreamModels.SelectionMeaning | controller/channel_upstream_update.go:795-800 | only pending changes are selected, and adding wins over removing |
| UpstreamModels.ChannelRecord.StoreDetected | controller/channel_upstream_update.go:201-225 | the pending additions |
| UpstreamModels.ChannelRecord.StoreRemoved | controller/channel_upstream_update.go:226-236 | the pending removals |
| UpstreamModels.ChannelRecord.ApplyUpdates | controller/channel_upstream_update.go:781-829 | new state and what was added, dropped and changed |
| UpstreamModels.ChannelRecord.StoreIgnored | controller/channel_upstream_update.go:807-810 | the new ignore list |
| ModelNames.MergeModelNames | controller/channel_upstream_update.go:105-119 | the first list, then the names of the second that are new |
| ModelNames.NormalizeIsClean | controller/channel_upstream_update.go:98-103 | normalised names are trimmed, non-empty and distinct |
| ModelNames.NormalizeOfClean | controller/channel_upstream_update.go:98-103 | and normalising again changes nothing |
| ModelNames.NormalizeMeaning | controller/channel_upstream_update.go:98-103 | the normalised names are exactly the trimmed non-empty ones |
| ModelNames.NormalizeOrder | controller/channel_upstream_update.go:98-103 | in the order of their first occurrence |
| ModelNames.SubtractOfClean | controller/channel_upstream_update.go:121-130 | order-preserving difference |
| ModelNames.IntersectOfClean | controller/channel_upstream_update.go:132-141 | a clean list of the common names |
| ModelNames.FiltersMeaning | controller/channel_upstream_update.go:121-141 | difference and intersection of any lists, name by name, in the order of the first |
| ModelNames.MergeOfClean | controller/channel_upstream_update.go:105-119 | order-preserving union |
| ModelNames.MergeMeaning | controller/channel_upstream_update.go:105-119 | union of any lists: the first, then what is new in the second in its order |
| ModelNames.ApplySelectedOfClean | controller/channel_upstream_update.go:143-148 | survivors in order, then additions |
| MultiKeyRuns.DeleteKeyView | controller/channel.go:1736-1801 | the shown rows less the deleted one, renumbered, if and only if the remaining keys read back from their joined text; the last key stays |
| MultiKeyRuns.DeleteDisabledView | controller/channel.go:1816-1869 | the shown rows that are not auto-disabled, renumbered, if and only if there is one and, when anything is deleted, the remaining keys read back |
| MultiKeyRuns.AllAutoDisabledComeBack | model/channel.go:516-573 | when every key is auto-disabled, all keys return enabled |
| MultiKeyRuns.RebuildKeepsEntries | controller/channel.go:1760-1786 | status, time and reason follow every surviving key |
| MultiKeyRuns.RunsStayConsistent | controller/channel.go:1580-1883 | throughout every sequence of actions the size counts the keys and no side map points beyond them, if and only if what each deletion stores is read as good keys, enough for the times and reasons kept |
| MultiKeyRuns.ActionKeepsConsistency | controller/channel.go:1580-1883 | the same for each action; only a deletion that stores new key text can break it |
| MultiKeyRuns.RunDeletionsExactly | controller/channel.go:1736-1869 | over every sequence of actions all deletions show exactly the rows they should leave, if and only if each leaves keys, and keys that read back |
| MultiKeyRuns.StoredViewExactly | model/channel.go:176-198 | rebuilt keys are shown with their records exactly when their text reads back |
| MultiKeyRuns.StoredConsistentExactly | model/channel.go:516-573 | when the stored channel is consistent again |
| MultiKeyRuns.ArrayLinesAreMisread | model/channel.go:184-193 | deleting an ordinary first key from in front of lines that form a JSON array changes the other keys |
| MultiKeyRuns.MisreadExample | model/channel.go:184-193 | the keys `x`, `[1,` and `2]` |
| MultiKeyRuns.DisableView | controller/channel.go:1580-1621 | exactly the named row changes: manually disabled, with the time and reason recorded before |
| MultiKeyRuns.EnableView | controller/channel.go:1623-1663 | exactly the named row becomes enabled, without time or reason |
| MultiKeyRuns.AllSwitchView | controller/channel.go:1689-1734 | every enabled row becomes disabled, the others stay |
| MultiKeyRuns.EnableAllView | controller/channel.go:1665-1687 | every row becomes enabled, without time or reason |
| MultiKeyRuns.RowMeaning | controller/channel.go:1484-1527 | the key, its recorded status or enabled, and time and reason only of a key that is not enabled |
| MultiKeyRuns.BadIndexIsRefused | controller/channel.go:1580-1600 | a missing or out-of-range index changes nothing |
| MultiKeyRuns.CarryMeaning | controller/channel.go:1824-1854 | what is recorded of a surviving key under either deletion |
| MultiKeyRuns.ReadKeys | model/channel.go:176-198 | joined keys read back as they were exactly when the text is not taken for another JSON array |
| MultiKeyRuns.KeysAreLines | model/channel.go:195-197 | a text that is no JSON array holds one key per line |
| MultiKey.DisableLoop | controller/channel.go:1701-1713 | the status map with every enabled position disabled, and their number |
| MultiKey.DropLoop | controller/channel.go:1760-1786 | keys and maps rebuilt without the deleted position |
| MultiKey.DropAutoLoop | controller/channel.go:1824-1854 | keys and maps rebuilt without the auto-disabled positions, and their number |
| MultiKey.MultiKeyChannel.Disable | controller/channel.go:1580-1621 | new state, and refusal of a missing or out-of-range index |
| MultiKey.MultiKeyChannel.Enable | controller/channel.go:1623-1663 | new state, and refusal of a missing or out-of-range index |
| MultiKey.MultiKeyChannel.EnableAllKeys | controller/channel.go:1665-1687 | new state |
| MultiKey.MultiKeyChannel.DisableAllKeys | controller/channel.go:1689-1734 | new state, and refusal when nothing is enabled |
| MultiKey.MultiKeyChannel.Delete | controller/channel.go:1736-1814 | new state, and refusal to delete the last key |
| MultiKey.MultiKeyChannel.DeleteAutoDisabled | controller/channel.go:1816-1883 | new state, and refusal when nothing is auto-disabled |
| ModelsDev.ChosenIsCheapest | controller/ratio_sync.go:881-944 | in sorted order, a priced choice if there is any, cheaper than every priced offer plus one epsilon |
| ModelsDev.ZeroOnlyIfAllZero | controller/ratio_sync.go:881-893 | a zero price is chosen only if all valid offers are zero |
| ModelsDev.ChosenIsOffered | controller/ratio_sync.go:845-879 | the choice is a valid offer, and missing only if there is none |
| ModelsDev.OfferMeaning | controller/ratio_sync.go:845-879 | a candidate is exactly a catalogue price: no negative price, no paid output for free input, cache price only if not negative |
| ModelsDev.ChosenMeaning | controller/ratio_sync.go:906-948 | the choice states a catalogue price of one of the providers, and there is none only if no provider prices the model |
| ModelsDev.EarlierIsNoBetter | controller/ratio_sync.go:881-893 | among near-ties the first provider in order is kept: an earlier one is free against a price, or dearer |
| ModelsDev.LessMeaning | controller/ratio_sync.go:915-919 | the order is that of a proper prefix or a smaller first difference |
| ModelsDev.LaterNeverWinsTie | controller/ratio_sync.go:891-893 | in sorted order the tie-breaker never fires |
| ModelsDev.UnsortedOrderDrifts | controller/ratio_sync.go:881-893 | a catalogue on which another order exceeds the bound |
| ModelsDev.SortedListingIsUnique | controller/ratio_sync.go:915-919 | a key set has one sorted listing |
| ModelsDev.SelectCandidates | controller/ratio_sync.go:906-948 | the selection is the fold over the sorted providers, whatever the map iteration order; no selection only if no model has a valid offer |
| ModelsDev.FoldProvider | controller/ratio_sync.go:922-943 | one provider's models folded into the selection |
| PriceDifferences.RowsAreGenuine | controller/ratio_sync.go:536-696 | a row is in the table exactly when its field is synced and some channel supplies a value without local counterpart or unequal to it: numbers a billionth or more apart, different texts, or a number and a text |
| PriceDifferences.ValuesEqualMeaning | controller/ratio_sync.go:48-62 | when two present values count as equal |
| PriceDifferences.SyncFields | controller/ratio_sync.go:64-75 | the ten fields that are synced |
| PriceDifferences.ColumnsAreDifferingChannels | controller/ratio_sync.go:656-693 | the columns of every row are exactly the channels that differ anywhere |
| PriceDifferences.CellsAreFaithful | controller/ratio_sync.go:593-654 | each kept cell shows that channel's value, `same`, or nothing, and its own plausibility |
| PriceDifferences.ConfidenceMeaning | controller/ratio_sync.go:558-591 | a price is implausible exactly for the placeholder pair 37.5 and 1 |
| PriceDifferences.FilledRows | controller/ratio_sync.go:593-654 | the rows before pruning |
| PriceDifferences.DifferingMeaning | controller/ratio_sync.go:656-665 | the second pass finds exactly the channels that differ anywhere |
| PriceDifferences.BuildDifferences | controller/ratio_sync.go:536-696 | the passes together compute the specified table |
| PriceDifferences.CollectModels | controller/ratio_sync.go:542-556 | the models named locally or by any channel |
| PriceDifferences.FillRow | controller/ratio_sync.go:595-641 | one row's cells, and whether it is kept |
| PriceDifferences.FillModel | controller/ratio_sync.go:594-653 | the rows of one model |
| PriceDifferences.FillRows | controller/ratio_sync.go:593-654 | the rows of all models |
| PriceDifferences.FindDiffering | controller/ratio_sync.go:656-665 | the channels marked in some row |
| PriceDifferences.PruneRows | controller/ratio_sync.go:667-693 | narrowed rows, without those that say nothing |
| LikePattern.KeywordFilterMeansContains | controller/affiliate.go:144-158 | for every keyword, column value and collation the query is well formed and selects exactly the values that contain the keyword |
| LikePattern.EscapeIsPerCharacter | controller/affiliate.go:207-212 | the three replacements equal one escape per character |
| LikePattern.ParseEscaped | controller/affiliate.go:207-212 | an escaped keyword parses back to itself, literally |
| LikePattern.ParseKeywordPattern | controller/affiliate.go:145-145 | the pattern has no wildcard but the outer two |
| OggScanner.TotalGranules | common/audio.go:207-253 | ends on every byte string and returns the largest granule of the headers visited |
| OggScanner.PageSize | common/audio.go:241-245 | the sum of the segment table |
| OggScanner.SizeOfSegments | common/audio.go:241-245 | which is the length of the segments whose lengths the table lists |
| OggScanner.ScanOfTruncatedStream | common/audio.go:207-249 | on pages cut at any byte it visits exactly the page boundaries whose header survives, reads their granules and never resynchronises |
| OggScanner.TotalOfCompleteStream | common/audio.go:228-232 | on complete pages the result is the maximum of 0 and all signed granules |
| OggScanner.ResyncFindsFirstPage | common/audio.go:219-226 | bytes before the first capture pattern do not change the result |
| OggScanner.GranuleRoundTrip | common/audio.go:229-229 | a signed 64-bit granule is read back from its little-endian bytes |
| OggScanner.GranuleMeaning | common/audio.go:229-229 | eight bytes from offset 6, least significant first, in two's complement |
| OggScanner.HighestIsMaximum | common/audio.go:228-232 | the result is an upper bound and is attained |
| OggScanner.Next | common/audio.go:219-249 | the position moves by 1 or by at least 27 |

## Left out

- HTTP handlers, JSON binding, sessions, OAuth, mail and the web front end: plumbing without deep invariants.
- The database and the Redis client: every statement and script succeeds and is atomic.
- Around the relay loops: validation, token counting and pricing before the billing reservation, logging and metrics, the violation fee, recording errors against channels, the websocket upgrade, and the continuation target cleared between attempts.
- The number of outer relay attempts: only that the loop ends is stated, not a bound.
- Account routing itself: candidate loading, affinity and leases are not modelled beyond never returning an excluded account.
- The heartbeat timer and the stop function: heartbeats may come at any time between calls; the mutex makes each call one step.
- Rate limiter: `Reset`, changing limits on a live key, and mixing `Request` with `Reserve` on one key; the code gives no common bound there.
- ReservationRuns.CompletionsLimitedExactly: for limits below 2^64 - 2, which every Go `int` is.
- ReservationRuns.TokensAreUnique: for runs of fewer than 2^64 operations, since the counter wraps around after that.
- Dashboard slots: time-outs and cancellation may happen at any moment; fairness between waiters is not stated.
- Lease counter: negative ttls, and Redis deleting an expired key before it is next read, which cannot be seen by the scripts.
- Upstream models: fetching the list, the scheduled task with its automatic synchronisation, and notifications. The regular expressions of ignore entries are an arbitrary matcher.
- UpstreamModels.RedetectFindsTheRemainder: sets aside a selection that adds a name with a comma and at the same time ignores a `regex:` name whose pattern matches it; the split parts of the stored name then decide case by case.
- Multi-key: the paging, status filter, statistics and key preview of `get_key_status`, polling locks and cache refresh.
- Price differences: fetching, rounding and type conversion of values before they are compared. The two-level map is one map over (model, field).
- models.dev: conversion of the chosen prices to ratios.
- Opus: the pre-skip field, the division by the sample rate, and the other audio formats.
