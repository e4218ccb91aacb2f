# MemoryOS service cores, modelled in Dafny

MemoryOS keeps memories in PostgreSQL, indexes them in Qdrant, caches them in Redis and bills
tenants through Razorpay. This project models the stateful parts of that service that other
parts rely on, and proves what they promise over whole runs and interleavings.

`dafny verify dfyconfig.toml` checks everything.

## What is modelled

| file | what it models |
|---|---|
| `CircuitSpec.dfy` | the circuit breaker as pure transitions, on a bare record and on one process's view of the shared record |
| `CircuitBreaker.dfy` | the breaker as an object: a record mutated in place, refresh and store-disabled deadlines, the shared key |
| `CircuitRuns.dfy` | whole runs of calls that do not overlap; external failures |
| `CircuitOverlap.dfy` | runs of calls that overlap: a call passes the gate at one time and is recorded at another |
| `SharedBreaker.dfy` | several processes with cached copies over one shared record, and what one does when its store fails |
| `SharedOverlap.dfy` | such processes whose calls overlap: how long a stored opening lasts |
| `RetryWrapper.dfy` | the vector store's retry loop around the breaker |
| `SearchMerge.dfy`, `VectorSearch.dfy` | the search over several collections: merge, sort, cut; the governance search |
| `Cache.dfy` | the per-user cache with both invalidation schemes, against one simple map |
| `CacheProtocol.dfy` | generation mode as a concurrent protocol of two-step sets and gets |
| `Billing.dfy` | plan limits, the webhook, checkout and verification as transactions; histories of them |
| `Matching.dfy` | greedy matching of expected to predicted memories |
| `Sampling.dfy` | the stratified sample |
| `DriftRepair.dfy` | the repair tool for drift between the memory table and the index, with the outbox cycle it drains |
| `RateLimiter.dfy` | the fixed-window limiter on keys and tenants |
| `TenantPages.dfy` | keyset pagination of the operator's tenant list |
| `McpPages.dfy` | byte-budgeted pagination of the tenant's memory list |
| `DeadLetters.dfy` | operators retrying and discarding a dead-lettered job |
| `Sequences.dfy`, `Wrappers.dfy` | counting facts about sequences and sets, shared definitions |

Where the source updates an object or runs a loop, the model is a class or a method with a
loop, proved equal to a specification function; the theorems are about that function and about
runs of it.

## How the world enters

- Clocks are parameters (seconds, as `real` or `int`). Each breaker method reads the clock
  once here; the source reads it again in the helpers it calls, microseconds later.
- Whether the state store answers (`Io`), what the guarded operation does (`Outcome`), how an
  outbox chunk fares (`Verdict`), whether a commit succeeds, what the payment provider returns:
  all are parameters, and the theorems hold for every value of them unless they say otherwise.
- Hashes are taken as injective and JSON and base64 as identities, so keys and cursors are
  datatypes. A SCAN and a scroll return every key present exactly once, in any order.
- Each handler on the database is one transaction.

## Findings

Some properties the code seems meant to have do not hold of it. The code is modelled as it is,
and each comes with the exact condition or bound and an input that shows it.

- **A call that was running when the breaker opened can close it early.** Its late success
  resets the record whatever its state (`api/infra/circuit_breaker.py:268-272`), and its late
  failure takes the branch at `api/infra/circuit_breaker.py:320` once the failure window is
  over and the threshold is above one. As long as no other process writes the record, nothing
  else does: before its recovery timeout an open breaker leaves open in a run exactly on such
  an event (`CircuitOverlap.StaysOpenIff`), and it is certain to stay open exactly when no call
  was running as it opened (`CircuitOverlap.OpenIsSafeIff`).
  `CircuitOverlap.OverlapClosesOpenBreaker` reaches both endings from a fresh breaker in every
  configuration. The other run theorems are therefore about calls that do not overlap.
- **Another process's stale copy can overwrite a shared opening.** A process that fetched the
  closed record up to 0.1 s before the opening goes on letting calls through, and records their
  failures on its copy, which it then stores (`api/infra/circuit_breaker.py:339-394`;
  `SharedBreaker.StaleFailureOverwritesOpening`). With stores that answer, a stored opening is
  certain to last until its recovery timeout, whatever all processes do, exactly when as it is
  stored no call is running in any process and each process either has to refresh its copy
  first or holds an open one that does not recover before its refresh
  (`SharedOverlap.OpeningIsKeptIff`). A breaker to which external failures are reported also
  needs a threshold of one or a failure window that does not end before the timeout, since such
  a failure is counted without asking the gate. In this repository only the "redis" breaker,
  whose record is not shared, has them reported (`api/middleware/auth.py:137-145`).
- **The failure window tumbles.** `threshold` failures within the window length need not open
  the breaker: `n` of them open it from every reachable closed state exactly when
  `n >= max(T, 2T - 2)` (`CircuitRuns.FailuresOpenIff`).
- **External failures do not commute with observers** on an open breaker that is due to
  recover (`CircuitRuns.ExternalFailureCommutes`).
- **`apply_plan_limits` leaves the tenant row alone**, so it keeps the budget's and the
  tenant's tier equal exactly when the tenant already has the tier
  (`BillingRuns.PlanLimitsKeepAgreement`, `BillingRuns.PlanLimitsBreakAgreement`).
- **A full repair run is not always complete.** Suppose every outbox chunk is delivered, and no
  pending row is to put an inactive memory into the scanned collection or to delete an active
  one from it. Then the run makes the index equal to the active memories exactly when every
  missing memory has a pending upsert into the scanned collection, or has no open upsert at all
  and belongs to that collection (`DriftRepair.RepairTool.Run`). A row stranded in `processing`
  blocks its memory's repair (`DriftRepair.StrandedRowBlocksRepair`), and a memory of another
  collection is counted as missing and stays so (`DriftRepair.OtherCollectionIsNotRepaired`).
- **Draining the outbox may never end.** A failed privacy deletion is made pending again
  without limit (`api/tasks/vector_sync_tasks.py:262-271`), and the drain takes rows of every
  kind. It ends, however its chunks fare, exactly when no privacy deletion is pending
  (`DriftRepair.DrainEndsIff`); with one, `DriftRepair.PrivacyNeverDrains` never ends.
- **A retried job can lose its queue slot.** Slots are given back after the commit that frees
  the row: by a retry whose commit failed, and by the worker that gave the job up. A retry
  that reserves in between reuses the slot, commits, and loses it, before or after its commit
  (`DeadLetters.LateReleaseDropsSlot`, `DeadLetters.WorkerReleaseDropsSlot`). A retry is safe
  from this, in every later state until a task of the job ends, exactly when no release is
  pending at the moment it reserves (`DeadLetters.SlotKeptIff`).
- **The tenant cursor treats a missing last call as the epoch**, while the sort puts it last.
  Following the cursors delivers every tenant, for every page size, exactly when real
  timestamps are after the epoch (`TenantPages.PagesAreTheListIff`);
  `TenantPages.EpochTimestampHides` is the smallest table that loses a tenant.
- **Small samples may break their quotas.** From size 15 on the final cut never breaks one of
  the first six, from size 8 on never a category quota, and both bounds are exact
  (`Sampling.QuotasBreakBelow15`, `Sampling.CategoriesBreakBelow8`). The seventh, of small
  disagreements, is kept along with them for all candidates at five sizes only: 19, 21, 22, 23
  and 31 (`Sampling.SevenQuotasSurviveIff`).
- **The "redis" breaker's guards on a disabled store never take effect**, since that breaker
  never touches a store and so never disables it (`CircuitOverlap.RedisGoesByRecord`).
- **A duplicate delivery of a task gives back the slot of the job it does not run**
  (`api/tasks/extraction_tasks.py:1913-1939`; `DeadLetters.EndedTaskTakesSlot`).
- **The greedy matching may find only half** of the pairs that are possible, and never less
  (`Matching.GreedyIsHalfOptimal`, `Matching.HalfIsTight`).

## Model

| member | source | states |
|---|---|---|
| Breaker.CircuitBreaker.LoadState | api/infra/circuit_breaker.py:339-369 | the cached record is kept until the refresh deadline, then replaced by the stored one; a failing store is left alone for 30 s |
| Breaker.CircuitBreaker.SaveState | api/infra/circuit_breaker.py:371-394 | the record becomes the local one and, if the store is in use and answers, the shared one |
| Breaker.CircuitBreaker.CoerceRecoveryState | api/infra/circuit_breaker.py:251-266 | an open record whose recovery timeout has passed becomes half-open and is saved, any other is kept |
| Breaker.CircuitBreaker.CurrentState | api/infra/circuit_breaker.py:171-175 | observing may itself move the breaker to half-open; the phase shown is that of the new view |
| Breaker.CircuitBreaker.BeforeCall | api/infra/circuit_breaker.py:244-249 | the gate admits exactly when the record, refreshed and coerced, is not open |
| Breaker.CircuitBreaker.NoteSuccess | api/infra/circuit_breaker.py:268-272 | a success resets the record unless it is closed without failures |
| Breaker.CircuitBreaker.NoteFailure | api/infra/circuit_breaker.py:274-321 | the loaded record mutated in place and saved has the value of the pure failure transition |
| Breaker.CircuitBreaker.ForceOpenNow | api/infra/circuit_breaker.py:189-198 | the record is open from now with the threshold as its count |
| Breaker.CircuitBreaker.RecordExternalFailure | api/infra/circuit_breaker.py:216-233 | counts as a failure unless the local record is open, which is judged without refreshing or coercing it |
| Breaker.CircuitBreaker.CallSync | api/infra/circuit_breaker.py:152-169 | the operation runs exactly when the gate admits; what comes back is its answer or the very error it raised, or, if it did not run, the fallback's answer or the open-circuit error; and it is recorded |
| CircuitRuns.PlayKeepsInv | api/infra/circuit_breaker.py:244-323 | the invariant of every run: the window holds exactly the last failures of the success-free streak and began at the first of them |
| CircuitRuns.CountIsTheWindow | api/infra/circuit_breaker.py:274-323 | after every run a closed breaker counts the failures since the last success that lie in its window, below the threshold; any other holds the threshold |
| CircuitRuns.LookingOnlyRecovers | api/infra/circuit_breaker.py:171-187 | any number of observations change nothing but the phase, from open to half-open, and that exactly if one comes after the recovery timeout |
| CircuitRuns.OpensOnlyAfterThreshold | api/infra/circuit_breaker.py:311-323 | unless forced, the breaker opens only on a failure that completes `threshold` failures without a success within one window length |
| CircuitRuns.NothingRunsBeforeRecovery | api/infra/circuit_breaker.py:244-266 | from an open breaker no history whatever runs an operation before the recovery timeout has passed |
| CircuitRuns.TrialDecides | api/infra/circuit_breaker.py:251-309 | the first call after the timeout is let through; its success closes the breaker, its failure opens it for another timeout |
| CircuitRuns.EnoughFailuresOpen | api/infra/circuit_breaker.py:311-323 | from any reachable closed state max(T, 2T-2) failing calls within one window length end open |
| CircuitRuns.OneFewerMayNotOpen | api/infra/circuit_breaker.py:311-323 | for every configuration a run with one failure fewer that ends closed |
| CircuitRuns.FailuresOpenIff | api/infra/circuit_breaker.py:311-323 | for every configuration and every n: n failing calls within one window length open the breaker from every reachable closed state if and only if n >= max(T, 2T-2) |
| CircuitRuns.LateFailureCloses | api/infra/circuit_breaker.py:311-321 | a failure recorded while open closes the breaker if and only if the window has expired and the threshold is above one |
| CircuitRuns.ExternalFailureCommutes | api/infra/circuit_breaker.py:216-266 | an external failure and an observation commute exactly off open, recovered breakers, and what the two orders give there |
| CircuitRuns.StepViewFollows | api/infra/circuit_breaker.py:152-233 | on a record no one else writes, one step of the breaker object is one step of the run model, and it invokes the operation exactly when the log says so |
| CircuitRuns.PlayViewFollows | api/infra/circuit_breaker.py:339-394 | hence the object goes through the states of the run model and invokes the operations of exactly the calls logged as run |
| CircuitOverlap.AdjacentIsOneCall | api/infra/circuit_breaker.py:152-169 | a call recorded right after it passed the gate is one call of the runs without overlap |
| CircuitOverlap.MovedViewFollows | api/infra/circuit_breaker.py:189-323 | the breaker object's methods move its record as the events of overlapping runs do, when no one else writes it |
| CircuitOverlap.RedisGoesByRecord | api/infra/circuit_breaker.py:244-249 | through every run of the "redis" breaker its store is never touched nor disabled, so its gate goes by the record alone |
| CircuitOverlap.StaysOpenIff | api/infra/circuit_breaker.py:268-323 | on a record no other process writes, every reachable open breaker stays open through a run before its recovery timeout if and only if no call running at its start succeeds in it, or fails in it after the window with a threshold above one |
| CircuitOverlap.OpenIsSafeIff | api/infra/circuit_breaker.py:152-323 | on such a record it stays open in every such run if and only if no call is running |
| CircuitOverlap.OverlapClosesOpenBreaker | api/infra/circuit_breaker.py:152-169 | in every configuration, runs from a fresh breaker in which a call admitted earlier closes the open breaker by a late success, and by a late failure |
| SharedBreaker.CopiesAreShortLived | api/infra/circuit_breaker.py:339-394 | under any interleaving of processes no cached copy outlives the 0.1 s refresh interval |
| SharedBreaker.OpeningReachesEveryone | api/infra/circuit_breaker.py:339-394 | once an opening is stored at `o` and no one writes after it, every process with a reachable store rejects every call in [o + 0.1, o + recovery), whatever it had cached |
| SharedBreaker.StaleCopyMayAdmit | api/infra/circuit_breaker.py:339-369 | within the 0.1 s a process may still admit calls, so the bound cannot be dropped |
| SharedBreaker.StaleFailureOverwritesOpening | api/infra/circuit_breaker.py:274-394 | a run in which such a process stores its closed copy over the opening, after which the opener itself lets calls through |
| SharedBreaker.CallIsGateAndEnd | api/infra/circuit_breaker.py:152-169 | a guarded call is the gate's move and, exactly if it is let through, the move of its success, or of a failure for an error of any kind |
| SharedBreaker.GateGoesByCopy | api/infra/circuit_breaker.py:244-266 | the gate rejects exactly if the copy, refreshed and recovered, is open; without the store, exactly while the process's own copy is open and its timeout has not passed |
| SharedBreaker.WritesAreFresh | api/infra/circuit_breaker.py:371-394 | what a process has written, stored or not, it does not refresh for 0.1 s |
| SharedBreaker.SuccessReadsNothing | api/infra/circuit_breaker.py:268-272 | recording a success never depends on whether the store can be read |
| SharedBreaker.FailedReadGoesOffline | api/infra/circuit_breaker.py:359-369 | a failed read changes nothing shared and puts the store out of use for 30 s; the process goes on with the copy it has |
| SharedBreaker.FailedWriteGoesOffline | api/infra/circuit_breaker.py:371-394 | a failed write leaves the shared record and puts the store out of use for 30 s; the process keeps the copy it could not store |
| SharedBreaker.OfflineReadsNothing | api/infra/circuit_breaker.py:339-394 | as long as its store is out of use a process's copy goes as its own moves alone take it, whatever is stored and whatever others do |
| SharedBreaker.OfflineWritesNothing | api/infra/circuit_breaker.py:371-394 | and the shared record and all other processes go as if that process were not there |
| SharedBreaker.OpenCopyOutlastsStore | api/infra/circuit_breaker.py:339-369 | a process that cannot read the store keeps its open copy and rejects every call before the recovery timeout, whatever is stored meanwhile |
| SharedOverlap.OpeningIsKeptIff | api/infra/circuit_breaker.py:152-394 | in every reachable state in which an opening was just stored, the shared record is open after every continuation before the recovery timeout if and only if no call is running anywhere, every copy is due for refresh or open until it is, and, where external failures are reported, the window cannot end first |
| SharedOverlap.KeptOpeningAdmitsNothing | api/infra/circuit_breaker.py:244-266 | and then no process lets any call through before the timeout |
| SharedOverlap.RunningAreLetIn | api/infra/circuit_breaker.py:152-169 | running are exactly the calls that a gate has let through and that have not ended since |
| SharedOverlap.StaleCopyCloses | api/infra/circuit_breaker.py:268-394 | two calls let through on a copy that is not open lose the opening, for every threshold |
| SharedOverlap.OldCopyRecovers | api/infra/circuit_breaker.py:251-266 | a kept older opening whose timeout passes before its refresh overwrites the new one with half-open |
| SharedOverlap.LateReportCloses | api/infra/circuit_breaker.py:216-323 | an external failure reported by a process that has just started, after the window, closes the record |
| RetryWrapper.WithRetries | api/db/vector_store.py:112-141 | the loop over the breaker object has the view, reply, runs and sleep of the specification, about which the rows below speak outcome by outcome |
| RetryWrapper.RetriesAreBounded | api/db/vector_store.py:112-141 | at most `max_retries` runs, and at most initial * (2^(max_retries-1) - 1) of sleep in all |
| RetryWrapper.NeverRunsWhileOpen | api/db/vector_store.py:119-136 | no run starts on a breaker that is open and has not recovered |
| RetryWrapper.ReturnsRealAnswers | api/db/vector_store.py:119-141 | a returned value is the answer of the last run, never a default |
| RetryWrapper.OtherOutcomesSettle | api/db/vector_store.py:119-136 | after k connection errors, the first attempt that is refused or ends otherwise settles the loop: its answer, its own error, the forced fallback of a response error, or the breaker's refusal is the reply, after k + 1 runs (k if refused) and the first k sleeps |
| RetryWrapper.OnlyConnectionErrorsExhaust | api/db/vector_store.py:127-141 | if every attempt ends in a connection error the loop makes all its runs and sleeps, and replies the fallback exactly if there is one and the breaker then shows open, else the connection error |
| RetryWrapper.NoAttempts | api/db/vector_store.py:137-141 | without a single attempt the reply is the fallback on the same condition, else that there is no result |
| RetryWrapper.SleepsInAll | api/db/vector_store.py:127-136 | the first n sleeps together are initial * (2^n - 1) |
| SearchMerge.PutAllHoldsBest | api/db/vector_store.py:265-271 | the merged dictionary holds for each id one of its points with the highest score, and no other id |
| SearchMerge.SortSorts | api/db/vector_store.py:273-277 | the stable descending sort orders the points by score and keeps exactly them, one per id |
| SearchMerge.MergedIsTop | api/db/vector_store.py:246-277 | merged, sorted and cut, the answers are the top of all answered points |
| SearchMerge.TruncationLosesNothing | api/db/vector_store.py:246-277 | asking each collection for only its own top `limit` still gives the top `limit` of the union, each id at its best score over all collections, with shared ids and ties |
| SearchMerge.TopScoresAreUnique | api/db/vector_store.py:273-277 | the scores of a top are determined, so ties cannot change them |
| SearchMerge.SameScoresAsFullMerge | api/db/vector_store.py:246-277 | the same scores in the same order as merging everything untruncated |
| SearchMerge.EqualsKeepOrder | api/db/vector_store.py:265-277 | each id has the first of its best points, scores fall with a missing one counted as zero, and points of equal score come in the order in which their ids were first answered |
| VectorSearch.MergeList | api/db/vector_store.py:265-271 | the inner loop adds one collection's list to the merged points |
| VectorSearch.QdrantService.SearchMemories | api/db/vector_store.py:246-277 | the search over the shared breaker returns the top of the merged lists, or the first failure, after which no collection is queried |
| VectorSearch.GathersByReplies | api/db/vector_store.py:246-264 | with and without `require_available`: the lists gathered are, collection by collection, the answer of its last run if its retries returned one and empty if they fell back, and the search ends at the first collection whose retries raised, or fell back under `require_available` |
| VectorSearch.SearchByReplies | api/db/vector_store.py:246-277 | hence a search is found exactly if no collection ends it, and is then the top of the union of those lists |
| VectorSearch.QueriesAreBounded | api/db/vector_store.py:112-136 | each collection is queried at most three times, with at most 1.5 s of sleep |
| VectorSearch.GovernanceListsAreAnswers | api/db/vector_store.py:248-264 | with `require_available` every merged list was answered by its own collection's query in its last run |
| VectorSearch.GovernanceSearchIsComplete | api/db/vector_store.py:246-277 | a governance search that returns a list returns the top of the union of all collections, no collection silently missing |
| Cache.ShelfHoldsLastSet | api/db/cache.py:135-263 | after any history a read finds exactly the last value set since the last invalidation of that user |
| Cache.OtherUsersAreUntouched | api/db/cache.py:135-335 | no operation on other users changes what a user reads |
| Cache.CacheService.constructor | api/db/cache.py:60-66 | an empty cache in either mode |
| Cache.CacheService.Get | api/db/cache.py:135-209 | in both modes a read returns what the simple map holds |
| Cache.CacheService.Set | api/db/cache.py:161-236 | in both modes a set changes the simple map at one place; a TTL of zero or less is refused |
| Cache.CacheService.SetHotTierMemory | api/db/cache.py:265-299 | the same for one hot-tier memory, by key or by hash field |
| Cache.CacheService.HeldTierIsShelf | api/db/cache.py:301-325 | the scan and the hash both hold exactly the user's hot tier of the simple map |
| Cache.CacheService.GetHotTierMemories | api/db/cache.py:301-335 | every hot-tier memory of the user exactly once, with its value |
| Cache.CacheService.DeleteMatching | api/db/cache.py:251-259 | deleting a hundred scanned keys at a time removes every matching key and no other |
| Cache.CacheService.InvalidateUserCache | api/db/cache.py:238-263 | in both modes the simple map loses exactly that user's entries |
| CacheProtocol.GenerationsGrow | api/db/cache.py:103-109 | generations only grow and each invalidation makes a new one, so none is reused |
| CacheProtocol.GenerationsCount | api/db/cache.py:103-109 | between any two states of a run a user's generation rises by exactly the number of its invalidations |
| CacheProtocol.RunsAreFaithful | api/db/cache.py:161-236 | in every reachable state each pending or stored generation is the one its request read at its first step |
| CacheProtocol.NoStaleRead | api/db/cache.py:85-249 | under every interleaving a get that starts after an invalidation never returns a value whose set read its generation before it |
| CacheProtocol.FreshReadIsServed | api/db/cache.py:85-249 | a stored value is found by a get of its slot when no invalidation of the user lies between the two generation reads |
| CacheProtocol.AnswersWereSet | api/db/cache.py:135-236 | everything a get finds was set, with that very payload, by a set of that user for the very slot asked for, or for a hot-tier memory if the whole tier is asked for |
| CacheProtocol.SetIsFound | api/db/cache.py:135-236 | from the write of a set until its key expires or is written again, a get of that slot, or of the whole tier, that read the same generation finds its payload, and the get of the slot nothing else |
| CacheProtocol.SetWritesOnce | api/db/cache.py:161-236 | a set writes once |
| Billing.BillingStore.ReceiveWebhook | api/routers/razorpay_webhooks.py:61-166 | the handler commits all its effects with the receipt, or rolls all back; its answer in each case |
| Billing.BillingStore.CreateCheckout | api/routers/billing.py:221-316 | a row is inserted only without a current or reusable subscription; otherwise the latest reusable one is offered, created for that plan in the last half hour, or the request refused; what is offered is a subscription as asked for with a link |
| Billing.BillingStore.VerifyCheckout | api/routers/billing.py:319-353 | only a created subscription of the tenant with a good signature becomes authenticated; a bad signature changes nothing; the reply in each case |
| Billing.BillingStore.ApplyPlanLimits | api/config/plan_limits.py:84-106 | the budget row takes the tier and its limits, nothing else changes |
| BillingRuns.ProcessedExactlyOnce | api/routers/razorpay_webhooks.py:61-108 | any history ends as that of its committed deliveries alone, each committed once; the receipts are exactly theirs |
| BillingRuns.RowMirrorsLastDelivery | api/routers/razorpay_webhooks.py:110-116 | the whole row of a subscription is what its last committed delivery made it, whatever duplicates, refusals, checkouts and verifications follow, but that a created one may have been verified since |
| BillingRuns.RowReadsAsReported | api/routers/razorpay_webhooks.py:110-116 | field by field: the period and the pending change as reported or cleared, status and customer as reported or kept, the rest as it was |
| BillingRuns.ReceivedIffReceipted | api/routers/razorpay_webhooks.py:61-108 | a delivery is answered as received exactly if its receipt is stored afterwards, which it is exactly if it was already, or its subscription is stored, on a paid plan that is configured and that it names; a refusal changes nothing and gives the first reason |
| BillingRuns.HistoriesKeepAgreement | api/routers/razorpay_webhooks.py:135-160 | every history keeps budget tier, tenant tier and limit columns in agreement |
| BillingRuns.PlanLimitsKeepAgreement | api/config/plan_limits.py:84-106 | `apply_plan_limits` keeps them in agreement if and only if the tenant is already on that tier |
| BillingRuns.PlanLimitsBreakAgreement | api/config/plan_limits.py:84-106 | a tenant in agreement that it takes out of it |
| BillingRuns.NewestCurrentWins | api/routers/razorpay_webhooks.py:118-160 | for every order of events the tenant ends on the tier of its strictly latest subscription, once activated and always reported current |
| BillingRuns.LapsedIsOverridden | api/routers/razorpay_webhooks.py:118-149 | once the latest subscription is not current, an older one's activation takes the tenant over |
| BillingRuns.DeliveryDecides | api/routers/razorpay_webhooks.py:118-160 | a committed delivery puts tenant and budget on the subscription's tier (activated, charged) or on Free (cancelled, completed, expired, halted), unless a newer subscription is current; then, and for every other kind, it leaves both |
| BillingRuns.EndsOnFree | api/routers/razorpay_webhooks.py:150-160 | the end of a subscription leaves tenant and budget on Free with the limits of Free exactly if no newer subscription is current, and else as they were |
| BillingRuns.LastDecisionRules | api/routers/razorpay_webhooks.py:118-160 | after every history the tenant is on the tier decided last, or where it was if none was |
| BillingRuns.LatestDecides | api/routers/razorpay_webhooks.py:118-160 | a strictly latest subscription decides whenever it starts or ends, and an older one never does while the latest is current |
| BillingRuns.LatestSubscriptionRules | api/routers/razorpay_webhooks.py:118-160 | the tenant of a strictly latest subscription ends as its last start or end says if and only if no later decision, which can only be an older subscription's while it is not current, says otherwise |
| BillingRuns.CheckoutInserts | api/routers/billing.py:221-299 | exactly when a checkout inserts a row, and the row it inserts: no current subscription, no created one of that plan in the last half hour |
| BillingRuns.VerificationAuthenticates | api/routers/billing.py:319-345 | a verification changes exactly the status of a created subscription of the tenant, and only with a good signature |
| PlanLimits.HigherTiersAllowMore | api/config/plan_limits.py:10-56 | a higher tier allows strictly more calls, tokens and requests a minute; reads are never limited; Free alone blocks |
| Matching.ScanFindsBest | scripts/evaluate_extraction.py:148-157 | the scan finds the first of the most similar predictions of the right category |
| Matching.FindBest | scripts/evaluate_extraction.py:151-157 | the inner loop computes that scan |
| Matching.MatchExpectedToPredicted | scripts/evaluate_extraction.py:138-166 | the four results are those of the greedy matching of positions |
| Matching.GreedyPartitions | scripts/evaluate_extraction.py:147-166 | every expected memory is matched or missing, every prediction matched or left over, none twice |
| Matching.GreedyIsMaximal | scripts/evaluate_extraction.py:147-164 | pairs agree in category and are similar enough, and no missing memory could be paired with a leftover |
| Matching.GreedyIsHalfOptimal | scripts/evaluate_extraction.py:138-166 | at least half as many pairs as any valid matching, for any similarity |
| Matching.HalfIsTight | scripts/evaluate_extraction.py:138-166 | inputs on which it finds one pair of two |
| Matching.GreedyTakesBest | scripts/evaluate_extraction.py:147-166 | every pair takes, of all predictions of its category that the pairs before it left, the most similar one and of those the first; pairs, missing memories and leftovers keep the order of the lists |
| Matching.GreedyConserves | scripts/evaluate_extraction.py:138-166 | matched and missing make up the expected, matched and left the predicted memories, with multiplicities |
| Sampling.TakeInto | scripts/blind_importance_review.py:45-51 | the inner function's loop over the snapshot of the pool |
| Sampling.TakeTakes | scripts/blind_importance_review.py:45-51 | a take loses no item, takes only its stratum, and stops only at the quota or when the stratum is exhausted |
| Sampling.SelectSample | scripts/blind_importance_review.py:39-63 | the whole selection from the shuffled candidates |
| Sampling.SampleIsSubset | scripts/blind_importance_review.py:39-63 | a sub-multiset of the candidates of size min(size, candidates) that starts with as much of the strata as fits |
| Sampling.QuotasSurviveTheCut | scripts/blind_importance_review.py:53-63 | from size 15 on, at least 2 and size/8 of each priority category, 3 and size/6 pending and 4 and size/4 large disagreements, or all there are |
| Sampling.CategoriesSurviveTheCut | scripts/blind_importance_review.py:53-63 | from size 8 on, at least 2 and size/8 of each priority category, or all there are |
| Sampling.QuotasBreakBelow15 | scripts/blind_importance_review.py:53-63 | for every smaller size, candidates that lose a quota to the cut |
| Sampling.CategoriesBreakBelow8 | scripts/blind_importance_review.py:53-63 | the same for the category quotas below 8 |
| Sampling.SevenQuotasSurviveIff | scripts/blind_importance_review.py:53-63 | with the small-disagreement quota, 4 and size/4, all seven hold for all candidates if and only if the size is 19, 21, 22, 23 or 31 |
| Sampling.SmallIsLastInLine | scripts/blind_importance_review.py:57-63 | a sample that misses the small-disagreement quota is full, and holds nothing but small disagreements after the other strata |
| DriftRepair.ScanListsMissing | scripts/repair_vector_drift.py:84-113 | from any row on, keyset pages of any size list exactly what is missing of the rest |
| DriftRepair.ScanMissingMemories | scripts/repair_vector_drift.py:75-113 | for any page size of at least one, exactly the active memories without a vector, in id order, each once |
| DriftRepair.ScanOrphanVectorIds | scripts/repair_vector_drift.py:116-151 | exactly the vector ids without an active memory, each once |
| DriftRepair.EnqueuedCovers | scripts/repair_vector_drift.py:154-194 | uncapped, exactly one new row for each missing memory without an open upsert |
| DriftRepair.EnqueuedInOrder | scripts/repair_vector_drift.py:154-194 | in the order of the memories, so no memory gets two |
| DriftRepair.EnqueuedUnlessOpen | scripts/repair_vector_drift.py:168-176 | a missing memory gets a row if and only if every upsert of it in the outbox is done or failed |
| DriftRepair.CappedIsPrefix | scripts/repair_vector_drift.py:164-166 | a cap enqueues exactly the first rows that would be enqueued without it |
| DriftRepair.CapReached | scripts/repair_vector_drift.py:164-166 | once the cap is reached nothing more is enqueued |
| DriftRepair.RepairTool.EnqueueMissingRepairs | scripts/repair_vector_drift.py:154-194 | the loop appends those rows, up to the cap, and counts them |
| DriftRepair.RepairTool.DeleteOrphanVectors | scripts/repair_vector_drift.py:197-209 | batch by batch the index loses exactly the listed ids |
| DriftRepair.CycleProgresses | api/tasks/vector_sync_tasks.py:65-135 | with no privacy deletion pending, a cycle that claims anything leaves less work, however its chunks fare |
| DriftRepair.CycleClaims | api/tasks/vector_sync_tasks.py:79-92 | a delivered cycle settles exactly the first hundred pending rows |
| DriftRepair.FailureIsContained | api/tasks/vector_sync_tasks.py:101-135 | a cycle of which one chunk fails leaves undone exactly the rows of that chunk, ten at most |
| DriftRepair.CycleReaches | api/tasks/vector_sync_tasks.py:95-135 | deletions win over upserts of the same cycle, a chunk that fails after the collection's group has reached the index, and nothing enters or leaves it otherwise |
| DriftRepair.PrivacyNeverDrains | api/tasks/vector_sync_tasks.py:257-274 | with one pending whose chunks keep failing, no number of cycles drains the outbox |
| DriftRepair.DrainEndsIff | scripts/repair_vector_drift.py:212-222 | draining ends for every way its chunks can fare if and only if no privacy deletion is pending, and always if every chunk is delivered |
| DriftRepair.DrainsCompose | api/tasks/vector_sync_tasks.py:95-274 | over any number of cycles rows only settle, being given up at the third failure and privacy deletions never, and the index changes by pending rows alone |
| DriftRepair.DeliveredCycle | api/tasks/vector_sync_tasks.py:158-241 | but for memories that a pending row is to delete, a delivered cycle keeps what is indexed or still to be upserted |
| DriftRepair.RepairTool.ProcessOutboxUntilEmpty | scripts/repair_vector_drift.py:212-222 | if the drain ends: nothing is left pending; done upserts are indexed and nothing else enters or leaves the index but by a pending row; if all is delivered, every pending upsert of a memory that no row is to delete is indexed |
| DriftRepair.DeliverableAfterEnqueue | scripts/repair_vector_drift.py:164-192 | after enqueueing, every missing memory is deliverable if and only if the drift was repairable |
| DriftRepair.RepairTool.Run | scripts/repair_vector_drift.py:225-267 | every run, full or partial: orphans are deleted exactly if asked for, missing memories enqueued exactly if asked for and up to the cap, the outbox drained exactly if asked for, nothing in a dry run; with no pending row that adds an inactive memory or deletes an active one, a full uncapped run keeps every active memory's vector and leaves no orphan, and if every chunk is also delivered the index equals the active memories if and only if the drift was repairable |
| DriftRepair.StrandedRowBlocksRepair | scripts/repair_vector_drift.py:168-176 | a missing memory whose upsert is stranded in processing: found missing, not enqueued, not repairable |
| DriftRepair.OtherCollectionIsNotRepaired | scripts/repair_vector_drift.py:99-113 | a memory of another collection: found missing, enqueued to that collection, not repairable |
| RateLimiter.RateLimiterMiddleware.Increment | api/middleware/rate_limiter.py:132-152 | increments a live counter and starts a new one with its expiry |
| RateLimiter.RateLimiterMiddleware.Handle | api/middleware/rate_limiter.py:40-108 | forbidden and unscoped requests move no counter; the key is checked before the tenant, which only adds count against |
| RateLimiter.BumpCounts | api/middleware/rate_limiter.py:23-29 | an increment within its counter's minute always finds it alive, keeps its expiry, one to two minutes after that minute, and disturbs no other counter |
| RateLimiter.HistoriesTally | api/middleware/rate_limiter.py:75-108 | after every history each counter is the number of requests counted against it in its minute |
| RateLimiter.VerdictIsByTally | api/middleware/rate_limiter.py:40-108 | after every history the next request is forbidden, passed or limited by its gate, by what its key had counted in its minute against its limit (its own, at least 1, or 60), and then by what its tenant had; a request that is not counted moves no counter |
| RateLimiter.KeyPassesExactly | api/middleware/rate_limiter.py:75-91 | of N requests on a key in a minute exactly min(N, limit) pass the key's check |
| RateLimiter.TenantAdmitsExactly | api/middleware/rate_limiter.py:93-106 | over all keys of a tenant exactly the first `limit` adds of a minute that pass their keys' checks are admitted |
| RateLimiter.AnyMinutePassesAtMostTwice | api/middleware/rate_limiter.py:75-91 | any sixty seconds, aligned or not, pass at most twice the limit |
| RateLimiter.RetryLandsInNextMinute | api/middleware/rate_limiter.py:189-192 | waiting as told lands in the next minute, at its first second |
| TenantPages.NextLeavesLess | api/routers/internal.py:956-986 | each cursor leaves strictly fewer tenants to come, so following them ends |
| TenantPages.ClausesAgreeIff | api/routers/internal.py:956-975 | the WHERE clause agrees with ORDER BY ... NULLS LAST if and only if real timestamps are after the epoch |
| TenantPages.RestOfList | api/routers/internal.py:956-975 | what the query selects after the k-th tenant is the rest of the sorted list |
| TenantPages.PageOfList | api/routers/internal.py:971-986 | each page is the next `limit` tenants, and its cursor the last of them |
| TenantPages.PagesAreTheList | api/routers/internal.py:928-986 | for every page size the concatenated pages are the whole list in order, each tenant once, if real timestamps are after the epoch |
| TenantPages.PagesAreTheListIff | api/routers/internal.py:928-986 | the pages of every size are the whole list if and only if real timestamps are after the epoch; paging one by one alone decides it |
| TenantPages.EpochTimestampHides | api/routers/internal.py:928-969 | a tenant hidden from the pages when a timestamp is the epoch itself |
| McpPages.FitPage | api/routers/mcp.py:468-483 | the loop takes the longest prefix the budget allows and computes the effective cursor |
| McpPages.PageFitsBudget | api/routers/mcp.py:468-477 | a page is non-empty while memories remain, within 7000 bytes unless it holds one, and stops only before a memory that would exceed them |
| McpPages.RequestDelivers | api/routers/mcp.py:457-490 | a page is a prefix of what follows the cursor, of at most `limit` memories and 7000 bytes unless it is just one, and no shorter than both allow; it names its last memory as the next cursor exactly when more remain |
| McpPages.NextFollows | api/services/memory_service.py:580-610 | the WHERE clause of the next cursor resumes right after the last delivered memory |
| McpPages.PagesAreTheList | api/routers/mcp.py:450-490 | for any summary sizes, following the effective cursor delivers every memory once, in order, and ends |
| DeadLetters.LeavesOncePerDeadLettering | api/routers/internal.py:1599-1638 | under every interleaving of retries and discards the job leaves `dead` at most once per dead-lettering |
| DeadLetters.RetryAlone | api/routers/internal.py:2255-2336 | an undisturbed retry of a dead job with room queues it with its slot, attempts reset, and its count too unless it is a runtime job; a failed commit leaves the slot to give back; anything else leaves all as it was |
| DeadLetters.DiscardAlone | api/routers/internal.py:1610-1638 | an undisturbed discard deletes exactly a dead job that is not a runtime job |
| DeadLetters.OnlyHolderChangesJob | api/routers/internal.py:1599-1607 | while a request holds the row, no sequence of steps of others, operators or worker, changes the job |
| DeadLetters.RuntimeJobsArePreserved | api/routers/internal.py:2263-2305 | a runtime-guarded job is never deleted, and its count of created memories never falls and is changed by the worker alone |
| DeadLetters.SlotSurvives | api/routers/internal.py:2285-2334 | a retry that reserves while no release is pending, and commits, keeps its slot in every later state until a task of the job ends |
| DeadLetters.SlotKeptIff | api/routers/internal.py:2285-2334 | in every reachable state a retry about to be granted its slot cannot end committed without it, whatever the others do until a task ends, if and only if no release is pending |
| DeadLetters.NoSlotLeaks | api/routers/internal.py:2326-2334 | if releases reach the queue store, no failed retry leaks a slot: with nobody in progress and nothing pending only a job that is to be run has one |
| DeadLetters.LateReleaseDropsSlot | api/routers/internal.py:2330-2334 | two operators' retries, the first failing, that leave a committed retry without a slot |
| DeadLetters.WorkerReleaseDropsSlot | api/tasks/watchdog_tasks.py:160-173 | a job retried before the worker that gave it up releases its slot is left without one |
| DeadLetters.EndedTaskTakesSlot | api/tasks/extraction_tasks.py:1913-1939 | whatever ends a task takes the slot once released, and of these only an ignored duplicate delivery leaves the job to be run without one |

## Left out

- CircuitBreaker.call: the asynchronous call with its timeout, TCP preflight, locks and telemetry; it gates and records as `call_sync` does.
- QdrantService.search_memories_async: the same merge over `breaker.call` without the retry loop.
- Floating-point rounding of times and scores, which are exact reals here.
- SharedBreaker.OpeningReachesEveryone: is about a process whose own store accesses succeed; one that has disabled its store goes by its own copy, as `SharedBreaker.OfflineReadsNothing` and its neighbours say.
- CircuitRuns.PlayViewFollows: is about a record that no other process writes; several writers are the subject of `SharedBreaker` and `SharedOverlap`.
- SharedOverlap.OpeningIsKeptIff: every store access succeeds; processes that have disabled their store go by their own copies.
- Fallback-degraded modes: with the Redis breaker open the cache reads generation 0 and the limiter counts 0 and lets everything pass.
- Cache: Redis failures in the middle of an invalidation, and stored values that are not valid JSON of the expected kind, which a read reports as absent.
- Cache.CacheService.Get: expiry is not part of the sequential cache; in `CacheProtocol` any entry may expire at any step.
- Cache.CacheService.SetHotTierMemory: the hash's expiry, set by a second command, is not modelled.
- Billing.BillingStore.ReceiveWebhook: size limit, signature, JSON parsing and the plan cache are left out, and the duplicate that loses the insert race answers like any duplicate.
- Billing.BillingStore.CreateCheckout: signatures, the provider's own state, and a subscription the provider created for a request that then failed.
- Billing.BillingStore.ApplyPlanLimits: the reset date of the budget row.
- Matching.MatchExpectedToPredicted: `similarity` is any function of two texts.
- Sampling.SelectSample: takes the candidates already shuffled; the theorems hold for every order.
- DriftRepair.RepairTool.ProcessOutboxUntilEmpty: called only where the drain ends; where it does not, the original does not return.
- DriftRepair.RepairTool.Run: writers other than the tool during the run, embedding failures, and the cycle and done/failed counters of the summary.
- RateLimiter.RateLimiterMiddleware.Handle: path, permission and credential matching, reduced to whether the request passes through, is forbidden or is counted.
- TenantPages: the SQL aggregates behind the sort columns, which are given here, and malformed cursors, which the code answers with status 400.
- McpPages: the text of a summary, of which only the encoded size matters; blocked users and category filters, which choose the list that is paged.
- DeadLetters: what makes a runtime job fit for recovery, dispatch to the worker and its failure after the commit, a process that dies between a commit and its release, and the expiry of slots in Redis.
- Plan quotas, conflict resolution, re-embedding, authentication, encryption, and the reporting endpoints.
