# Verified models of the rate limiter, its schedulers, the report graphs and the agent loop

This project models the parts of the repository that decide who may run, what is charged and what a
language model is shown, and proves properties of all their runs.

* **The in-memory rate limiter.** `ExpiryHeap`, `Rolling` and `Concurrency` are the heaps with
  back-pointers and the two kinds of limit as classes that change in place, `RollingSpec` and
  `ConcurrencySpec` what they store; `MemoryBackend` is the backend over them. Each method is proved to do
  what a pure step (`Limiter`, with the requests and definitions of `Limits`) does. `LimiterFacts` reads
  its folds off key by key, and `LimiterRuns` proves what every run keeps; `Ledger` is the same limiter as
  a plain list of grants that is never purged, `LedgerStores` relates one store to its lines, and
  `LedgerRefinement` proves that the backend answers like the ledger. `Admission` and `LimiterHistory` say
  what is answered and written down without naming what computes it. `LedgerSafety`, `Decreases`,
  `LazyDeletion`, `Requirements` (whose keys are told apart with `Numerals`) and `Registry` draw the
  consequences; `AdminApi` is the admin interface over registry and backend.
* **The scheduler.** `SchedulerSpec` and `SchedulerState` are the queues, as values and as objects.
  `SchedulerSystem` puts the run loop, its channels, any number of workers and the backend into one state
  machine with lost requests and lost replies; `SchedulerSafety` proves its invariant and what follows.
* **The two batchers.** `Submitter` and `Submissions`, and `BatcherSpec`/`Batcher`.
* **The report graphs.** `Ancestry`, `AncestorSearch`, `CyclicGraphs` and `Graph`, and `Components` with
  `ComponentIds`.
* **The agent turn.** `History`, `CompactionSpec`, `Compaction` and `CompactionExact`, `AgentTurnSpec` and
  `AgentTurn`.
* `Wrappers` holds the option type.

`dafny verify dfyconfig.toml` checks everything.

## How things are modelled

* Go's `container/heap` is the usual sift-up and sift-down over the repository's `Less`, `Swap`, `Push` and
  `Pop`; both heaps share the class `Slot`.
* Times are integers in nanoseconds; a zero time is `None`. Amounts are unbounded;
  `Requirements.WordTestIsExact` says exactly when 64-bit arithmetic gives the same decisions.
* One call of the backend runs under its mutex and is one step. The jitter of the scheduler, the lease ids
  it draws, lost messages, what the transfer service, the language model and the tools answer, clock
  readings and token counters are parameters.
* Where the code ranges over a map or a set the order is left open.
* The fraction one tenth of a window in a denial's wait is `windowSeconds * 100` milliseconds; the fractions
  0.8 and 0.25 of the compaction policy are integer divisions rounded up, which agree with the floating
  point ones for limits below 2^50.
* Runs assume that a request names each limit at most once (`Requirements.BuildIsDistinct` shows that the
  scheduler's do), that a limit keeps its kind when it is raised, that time does not go backwards, and, for
  the ledger, that a lease id is granted once.

## Where the code falls short

Each with its exact condition.

* A lease id granted again after its release can lose its live hold
  (`LazyDeletion.ReusedLeaseKeepsItsHoldExactly`, `ReusedLeaseLosesItsHold`).
* A request that names a limit twice can exceed it (`Requirements.GrantsFitExactly`,
  `DuplicateKeysOvercommit`).
* Amounts near the 64-bit limit wrap in the admission test (`Requirements.WordTestIsExact`).
* A pending decrease to zero is never applied, and blocks its limit until the limit is defined anew
  (`Decreases.DecreaseAppliesExactly`, `LoadedZeroBlocks`).  The admin interface refuses a capacity of
  zero (`AdminApi.PendingDecreaseWaitsForUsageOnly`); a state loaded from the registry file is not checked
  (`internal/registry/persistence.go:13-35`, `cmd/ratelimiterd/main.go:126-138`).
* Two admin PUTs for one limit that interleave, or one that interleaves with the recording of an applied
  decrease, can leave registry and backend in different states (`Registry.InterleavedPutsAgreeExactly`,
  `InterleavedPutsDisagree`, `RecordingAgreesExactly`, `OwnDecreaseRecordedFirst`).
* Two pairs of provider and model share a queue of the scheduler when a provider holds a colon
  (`SchedulerSpec.QueuesAreSharedExactly`).
* A user message or developer text that starts with the summary prefix disappears in a compaction without
  being summarised (`CompactionSpec.LatestMessageSurvives`, `SummaryLikeMessageIsDropped`, `InstructionsSurvive`,
  `AgentTurn.EveryPromptCarriesTheText`).
* On a parent graph where two unmeasured revisions reach each other the search for measured ancestors can
  miss some, because it remembers what it found while an ancestor was still being visited
  (`CyclicGraphs.CompleteExactly`, `SmallestMiss`).  What it finds is right on every graph.

## Model

| member | source | states |
|---|---|---|
| ExpiryHeap.Push | internal/backend/memory/rolling.go:36-40 | an entry pushed keeps the heap ordered by expiry and every entry knowing its own place |
| ExpiryHeap.Pop | internal/backend/memory/rolling.go:42-49 | removes the earliest entry, leaves an ordered heap of exactly the others, each knowing its place |
| ExpiryHeap.RootIsMinimal | internal/backend/memory/rolling.go:26-28 | in an ordered heap nothing expires before the root |
| Rolling.RollingLimit.Cleanup | internal/backend/memory/rolling.go:60-74 | the purge removes exactly the reservations that are due; `used` stays the sum of what is left and the index points only into the heap |
| Rolling.RollingLimit.AddReservation | internal/backend/memory/rolling.go:76-81 | adds one reservation with its amount and expiry and files it under its lease |
| Rolling.RollingLimit.ReduceReservation | internal/backend/memory/rolling.go:83-98 | lowers the filed reservation to the new amount, never raises it, and keeps `used` the sum |
| RollingSpec.RemoveUsed | internal/backend/memory/rolling.go:67-72 | dropping an entry lowers the sum by exactly its amount, so the saturating branch of the purge is never taken |
| RollingSpec.ReduceUsed | internal/backend/memory/rolling.go:88-97 | lowering an entry lowers the sum by exactly the difference, so the saturating branch is never taken |
| RollingSpec.PurgeAfterRemove | internal/backend/memory/rolling.go:60-74 | taking one due entry off and then purging is the purge |
| Concurrency.ConcLimit.Cleanup | internal/backend/memory/concurrency.go:57-69 | drops every heap entry that is due and every hold whose id is on such an entry |
| Concurrency.ConcLimit.AddHold | internal/backend/memory/concurrency.go:71-74 | holds the lease and pushes one heap entry, whether or not the lease was held |
| LazyDeletion.NoExpiredHoldSurvives | internal/backend/memory/concurrency.go:57-74 | every hold is backed by a heap entry, so none outlives its expiry past a purge |
| LazyDeletion.PurgeDropsExactlyTheExpired | internal/backend/memory/concurrency.go:57-74 | while lease ids are granted once, entries left behind by completed leases never evict a live hold: a purge drops a hold if and only if it has expired |
| LazyDeletion.RegrantSurvivesExactly | internal/backend/memory/concurrency.go:57-74 | a new hold survives every purge before it expires if and only if no entry an earlier grant of its id left behind expires before it |
| LazyDeletion.ReusedLeaseKeepsItsHoldExactly | internal/backend/memory/reserve.go:46-87 | a lease is granted and, after any run that closes it, granted again under the same id, under whatever definition the limit then has: the second hold survives every purge before it expires if and only if the first was already due by then or expires no sooner |
| LazyDeletion.ReusedLeaseLosesItsHold | internal/backend/memory/complete.go:19-29 | for instance a hold of ten seconds, given back and taken again after five, is lost after ten |
| Requirements.KeysDiffer | pkg/ratelimiter/requirement_keys.go:6-23 | the four limit keys of a request differ, whatever the provider, model and tenant are called |
| Requirements.BuildIsDistinct | pkg/ratelimiter/requirements.go:21-35 | every request that is built names each limit once |
| Requirements.BuildAsksExactly | pkg/ratelimiter/requirements.go:21-35 | which limits a request names, and how much it asks of each |
| Requirements.RequirementsEqualIsSetEquality | internal/backend/memory/leases.go:21-35 | on duplicate-free lists the replay test is equality as sets, although it only looks one way |
| Requirements.ReplayReservesNothing | internal/backend/memory/reserve.go:20-28 | asking again for a granted lease, in whatever order the requirements are listed, gives the same answer and changes nothing |
| Requirements.WordTestIsExact | internal/backend/memory/reserve.go:64-68 | in 64-bit arithmetic the admission test is right for every possible usage if and only if nothing is asked for or amount plus capacity stays below the word |
| Requirements.CommitAddsTotal | internal/backend/memory/reserve.go:75-92 | committing a request adds the total it names to a rolling limit |
| Requirements.GrantsFitExactly | internal/backend/memory/reserve.go:57-92 | no grant of given requirements takes a rolling limit of given capacity over it, whatever its usage, if and only if the amounts they name for it add up to the largest of them or the largest alone exceeds the capacity |
| Requirements.DuplicateKeysOvercommit | internal/backend/memory/reserve.go:57-83 | naming a limit twice gets a request past the per-requirement test and over the capacity |
| Limiter.RetryAfter | internal/backend/memory/retry.go:14-40 | the wait of a denial is always positive, which Reserve relies on as its denial flag; of a rolling limit a tenth of its window, between its bounds |
| MemoryBackend.Backend.Reserve | internal/backend/memory/reserve.go:13-93 | the loops over heaps, maps and objects do what the abstract step does: replay, refuse while decreasing, purge, check all, commit all or nothing |
| MemoryBackend.Backend.Precheck | internal/backend/memory/reserve.go:17-44 | the early answers, in the order the code tests them |
| Admission.MalformedIsRefused | internal/backend/memory/reserve.go:17-19 | without a lease id or requirements the request is invalid |
| Admission.RecordedLeaseExactly | internal/backend/memory/reserve.go:20-28 | a lease on record is allowed if and only if it asks for the same set of requirements, and is invalid otherwise; the backend stays as it is |
| Admission.DecreasingIsNamed | internal/backend/memory/reserve.go:30-39 | the first limit being decreased is named, with the wait for it |
| Admission.UnknownIsNamed | internal/backend/memory/reserve.go:40-44 | with none of those, the first limit that is not defined is named |
| Admission.AdmissionIsExact | internal/backend/memory/reserve.go:46-92 | a new lease is granted if and only if every limit it names has room beside what it lists as live; otherwise it is told the longest wait of the full ones and nothing is written |
| LimiterHistory.LinesAreTheGrants | internal/backend/memory/reserve.go:75-90 | after any run each limit lists exactly the grants answered, in order, each with its time, amount and one window or timeout; an amount is lowered only once the lease is closed, and a hold given back exactly then |
| MemoryBackend.Backend.MaxRetry | internal/backend/memory/reserve.go:57-73 | the longest wait any full limit asks for, 0 when none is full |
| MemoryBackend.Backend.CommitAll | internal/backend/memory/reserve.go:75-87 | one entry in the store of every requirement |
| MemoryBackend.Backend.Complete | internal/backend/memory/complete.go:10-48 | releases the holds, gives back unused tokens, records debt, forgets the lease |
| Admission.CompletionIsExact | internal/backend/memory/complete.go:14-47 | closing a lease gives back its holds, lowers its grants to the least actual below the reservation, owes the excess where the limit allows it, and touches no other line |
| Admission.UnknownLeaseChangesNothing | internal/backend/memory/complete.go:14-17 | completing a lease that is not on record changes nothing |
| MemoryBackend.Backend.ApplyDefinition | internal/backend/memory/apply.go:10-37 | installs a new or larger definition, records a smaller one as a pending decrease |
| Decreases.DefinitionStates | internal/backend/memory/apply.go:10-36 | a limit that is new or no smaller takes effect at once, a smaller capacity waits beside the old definition |
| LimiterHistory.DefinitionKeepsLines | internal/backend/memory/apply.go:10-36 | defining a limit moves no line |
| MemoryBackend.Backend.ApplyState | internal/backend/memory/apply.go:40-49 | loads a state with its store |
| MemoryBackend.Backend.TryApplyDecrease | internal/backend/memory/apply.go:52-99 | purges, compares what is free with what is to go, and applies or leaves the decrease |
| Admission.DecreaseIsExact | internal/backend/memory/apply.go:51-88 | a decrease is applied if and only if it is pending, its target is positive and below the capacity, and the live lines fit it; and what then changes |
| MemoryBackend.Backend.AvailableCapacity | internal/backend/memory/helpers.go:33-52 | capacity less usage, not below zero |
| LimiterRuns.RunKeeps | internal/backend/memory/reserve.go:57-83 | in every reachable state what a rolling limit has used and what a concurrency limit holds is at most its capacity, which is its definition's, through any mix of grants, completions, raises and decreases |
| LimiterRuns.InstallKeeps | internal/backend/memory/apply.go:101-125 | a new limit starts empty and a raised one keeps what it holds, within the new capacity |
| LimiterRuns.TryApplyDecreaseKeeps | internal/backend/memory/apply.go:52-99 | a decrease is applied only when what the limit holds fits it |
| LedgerRefinement.BackendRefinesLedger | internal/backend/memory/reserve.go:46-92 | over every run the purging, indexed backend answers exactly like a ledger that lists every grant once and never purges |
| LedgerRefinement.ReserveRefines | internal/backend/memory/reserve.go:13-93 | one request is granted or denied by both alike, with the same reply |
| LedgerRefinement.CompleteRefines | internal/backend/memory/complete.go:10-48 | one completion does the same to both |
| LedgerRefinement.ApplyDefinitionRefines | internal/backend/memory/apply.go:10-37 | so does one definition |
| LedgerRefinement.TryApplyDecreaseRefines | internal/backend/memory/apply.go:52-99 | one decrease is applied by both or by neither |
| LedgerSafety.SlidingWindow | internal/backend/memory/rolling.go:60-98 | in every run, at every instant from its last step on, the current amounts of all grants made in the last window add up to at most the capacity |
| LedgerSafety.TokensConserved | internal/backend/memory/complete.go:31-46 | over every run the tokens reported for a debt-policy limit equal the tokens settled on completed leases plus the recorded debt |
| LedgerSafety.SettleOne | internal/backend/memory/complete.go:31-46 | one actual is accounted for to the token: its reserved part on the reservation, the rest as debt |
| Decreases.DecreasingRefuses | internal/backend/memory/reserve.go:30-39 | a new lease on a limit that is to decrease is refused outright and nothing changes |
| Decreases.DecreaseBlocks | internal/backend/memory/apply.go:31-37 | over every run, from a requested decrease on every new lease on the limit is refused until the decrease is applied or overridden |
| Decreases.DecreaseAppliesExactly | internal/backend/memory/apply.go:52-99 | a pending decrease is applied if and only if its target is positive, below the current capacity, and no less than what the limit still holds |
| Decreases.ExpiredDecreaseApplies | internal/backend/memory/apply.go:52-99 | once everything the limit holds has expired one call applies any target strictly between zero and the capacity |
| Decreases.LoadedZeroBlocks | internal/backend/memory/apply.go:40-70 | a loaded state that waits for a decrease to zero refuses every new lease and is never applied, over every run that does not define the limit anew |
| Registry.NextStateIsTheBackends | internal/registry/registry.go:51-78 | the state read off a registry that agrees with the backend is exactly what the backend will record |
| Registry.RegistryAgrees | internal/api/admin_put.go:16-37 | after any sequence of atomic PUTs, applied decreases and traffic, registry and backend hold the same states and every store has its definition's capacity |
| Registry.Registry.NextStateFor | internal/registry/registry.go:51-78 | a definition is active when it is new or no smaller, else the old one stays and waits for the smaller capacity |
| AdminApi.Handler.PutLimit | internal/api/admin_put.go:16-37 | over the registry and the backend that change in place, a PUT refuses an invalid definition without a trace, and else is the atomic PUT and answers the state recorded |
| AdminApi.Handler.TryApplyDecrease | internal/backend/memory/apply.go:51-99 | a decrease is applied in the backend and, if it was, recorded in the registry |
| AdminApi.PendingDecreaseWaitsForUsageOnly | internal/api/admin_put.go:60-85 | after any run of valid PUTs, applied decreases and traffic a pending decrease is applied if and only if what the limit still holds fits it: the guards never block it |
| Registry.InterleavedPutsAgreeExactly | internal/api/admin_put.go:16-37 | two PUTs that both read before either is recorded: for both orders of recording, the condition on the capacities under which registry and backend agree |
| Registry.InterleavedPutsDisagree | internal/api/admin_put.go:16-37 | for instance 10 raised to 20 and to 15 leaves the limit active in the registry and decreasing in the backend |
| Registry.RecordingAgreesExactly | internal/backend/memory/apply.go:80-97 | an applied decrease is recorded after the lock is released: when it overwrites a PUT, or the PUT overwrites it, the condition under which registry and backend agree |
| Registry.OwnDecreaseRecordedFirst | internal/backend/memory/apply.go:80-97 | when the decrease applied is that of the PUT, they agree if the decrease is recorded last and disagree if it is recorded first |
| SchedulerState.WorkQueue.PushBlocked | pkg/ratelimiter/scheduler_state.go:116-121 | inserts before the first item that is no earlier |
| SchedulerSpec.InsertIsSorted | pkg/ratelimiter/scheduler_state.go:116-121 | insertion keeps the list sorted and adds exactly the item |
| SchedulerSpec.InsertIsExact | pkg/ratelimiter/scheduler_state.go:116-121 | position by position: the item comes right after the earlier ones, before those of its own time |
| SchedulerSpec.QueuesAreSharedExactly | pkg/ratelimiter/scheduler_state.go:152-154 | two jobs share a queue if and only if provider and model are the same, or a colon in a provider makes them look so |
| SchedulerState.WorkQueue.PromoteReady | pkg/ratelimiter/scheduler_state.go:105-113 | the promotion loop moves the due items to the ready list |
| SchedulerSpec.PromotionIsExact | pkg/ratelimiter/scheduler_state.go:105-131 | position by position: those ready before come first, then exactly the due jobs in the order in which they were blocked; the rest stays as it is |
| SchedulerSpec.FirstInFirstOut | pkg/ratelimiter/scheduler_state.go:39-131 | over any events the jobs of one provider and model are dispatched in the order in which they became ready |
| SchedulerState.SchedulerState.NextReady | pkg/ratelimiter/scheduler_state.go:58-76 | takes the head of the first queue with ready work at or after the cursor and moves the cursor past it |
| SchedulerState.SchedulerState.NextBlockedTime | pkg/ratelimiter/scheduler_state.go:79-91 | the wake time is the minimum over all queues, and there is none if and only if nothing is blocked |
| SchedulerSpec.NextReadyFailsOnlyWhenIdle | pkg/ratelimiter/scheduler_state.go:58-76 | no job is found if and only if no queue has ready work |
| SchedulerSpec.BoundedWait | pkg/ratelimiter/scheduler_state.go:58-102 | a queue that stays non-empty is served after at most n-1 dispatches from others, n being the final number of queues, even when queues are appended and the cursor wraps |
| SchedulerSafety.DoKeeps | pkg/ratelimiter/scheduler_run.go:12-54 | every step of the run loop, of any worker, of the backend and of the admin keeps the system invariant, with replies lost at will |
| SchedulerSafety.JobsLeaveInOrder | pkg/ratelimiter/scheduler_run.go:12-54 | so they are in every interleaving of the scheduler |
| SchedulerSafety.ReplyDecides | pkg/ratelimiter/scheduler_worker.go:17-39 | only an allowed job starts; a denied one comes back under a new lease and not before the wait it was told, one whose reply is lost under the lease it has |
| SchedulerSafety.JobsAskAndReportExactly | pkg/ratelimiter/scheduler_worker.go:63-89 | what a job asks for, and that it reports its tokens on exactly the limits it reserved tokens on |
| SchedulerSafety.ConcurrencyIsBounded | pkg/ratelimiter/scheduler_worker.go:17-39 | in every reachable state of every interleaving the jobs of one provider and model inside Execute with an unexpired hold are at most the capacity of their concurrency limit |
| SchedulerSafety.RollingIsBounded | pkg/ratelimiter/scheduler_worker.go:17-39 | in the same states what a rolling limit has granted and is not yet out of its window fits its capacity |
| SchedulerSafety.JobsAndLeasesOnce | pkg/ratelimiter/scheduler_worker.go:17-47 | in every reachable state each submitted job is in exactly one place, each lease has been granted, started and completed at most once and in that order, and no lease has reserved or held twice on one limit |
| SchedulerSafety.LostReplyIsRecovered | pkg/ratelimiter/scheduler_worker.go:17-39 | however often the reply to a granted lease is lost, the next request for it is allowed and adds no reservation |
| Submitter.TotalTransfers | internal/tbutil/submitter.go:134-140 | the number of transfers in a batch |
| Submitter.Submitter.Flush | internal/tbutil/submitter.go:73-106 | sends the pending items as one batch and answers each |
| Submitter.Submitter.Respond | internal/tbutil/submitter.go:87-124 | shifts the batch's error codes to each item's own positions; an answer whose channel has no room is dropped |
| Submitter.Submitter.Run | internal/tbutil/submitter.go:32-71 | the loop over arrivals and ticks, up to its last flush, does what the abstract run does |
| Submitter.RepliesAreOwn | internal/tbutil/submitter.go:73-124 | an item's transfers are in the batch whole and in place, its answer holds exactly the codes reported for them, numbered from its first, and is delivered if and only if its channel has room |
| Submitter.EveryItemAnsweredOnce | internal/tbutil/submitter.go:32-106 | for any arrivals, ticks and outcomes no batch is over the limit, no item is split, and every item is answered exactly once, with its own part of its batch's outcome or with the rejection |
| Submitter.EveryAnswerIsDelivered | internal/backend/tb/helpers.go:17-21 | with channels that have room, as those of the backend do, no answer is dropped |
| Submissions.BatchesAreDue | internal/tbutil/submitter.go:46-69 | a batch is full, or sent at a tick or because the next item does not fit, with all that was pending; a tick leaves nothing |
| Submissions.ArrivalsAreSplit | internal/tbutil/submitter.go:51-60 | the items that fit a batch are taken in order of arrival, the others rejected |
| Submissions.AnswerIsExact | internal/tbutil/submitter.go:83-106 | an item is answered with the failure of its batch, or with the last code reported for each of its own transfers and no other |
| Submitter.ReserveChain | internal/backend/tb/reserve.go:55-73 | one transfer per requirement, all linked but the last |
| Submitter.Complete | internal/backend/tb/complete.go:53-161 | the submissions of a completion, one after the other until one is refused |
| Submitter.ReleaseVoids | internal/backend/tb/complete.go:53-66 | exactly the concurrency requirements with a reserved amount are voided, by that amount, unlinked |
| Submissions.ReleaseIsExact | internal/backend/tb/complete.go:53-66 | the voids of a release, in the order of the requirements |
| Submissions.CompletionIsExact | internal/backend/tb/complete.go:80-161 | what each actual submits, field by field, for each answer of the service, until a submission is refused |
| Submissions.ActualIsSettled | internal/backend/tb/complete.go:105-161 | settling an actual leaves reservation and debt at exactly what was used, unless the service refuses, or denies the excess of a limit without debt |
| Submitter.ReplacementExpiresInTime | internal/backend/tb/helpers.go:76-87 | what replaces a reservation expires when that would have, or less than a second later |
| Submitter.CompletionItemsEndUnlinked | internal/backend/tb/complete.go:53-202 | whatever the service answers, every item a completion submits ends unlinked, and a link only ties a smaller reservation to the void of the one it replaces |
| Submitter.ChainsStayInside | internal/tbutil/submitter.go:73-85 | in a batch of such items no linked chain leaves the item it starts in |
| Submitter.NoChainIsSplit | internal/tbutil/submitter.go:32-106 | in every run whose arrivals end unlinked no chain in any batch leaves its item |
| Batcher.Client.BatchReserve | pkg/ratelimiter/local/client.go:50-66 | a batch is its requests made one after the other |
| Batcher.Client.BatchComplete | pkg/ratelimiter/local/client.go:69-80 | so is a batch of completions |
| Batcher.Batcher.Flush | pkg/ratelimiter/batcher_run.go:44-62 | reserves first, then completions, each in queue order |
| Batcher.Batcher.Run | pkg/ratelimiter/batcher_run.go:10-42 | the loop does what the abstract run does |
| BatcherSpec.BatchingIsSequential | pkg/ratelimiter/batcher_run.go:10-106 | for any arrivals and ticks every request is called once, each caller gets one reply, backend and replies are those of the calls made one at a time, and no flush is over the limit |
| BatcherSpec.FlushOrder | pkg/ratelimiter/batcher_run.go:44-62 | a flush calls every item once, reserves before completions and those of one kind in the order in which they stand |
| BatcherSpec.CallsAreInOrder | pkg/ratelimiter/batcher_run.go:10-106 | over any run requests of one kind are called in the order in which they arrived; a reserve overtakes a completion if and only if both are in one flush |
| BatcherSpec.FlushesWhenFullOrTicked | pkg/ratelimiter/batcher_run.go:10-42 | a flush is of full size or what was pending at a tick, and a tick leaves nothing |
| Graph.BuildParentMap | web/src/report/graph.ts:4-14 | the parents of each child, in edge order |
| Graph.ParentMapIsGraph | web/src/report/graph.ts:4-14 | the map is the graph of the edges: a parent is listed if and only if there is such an edge |
| Graph.Search.NearestMeasuredAncestors | web/src/report/graph.ts:26-48 | the recursion over memo and visiting set answers and remembers what the functional search does |
| AncestorSearch.FindIsSound | web/src/report/graph.ts:26-48 | on every graph the search finds only measured ancestors reachable through unmeasured revisions |
| AncestorSearch.FindAllIsComplete | web/src/report/graph.ts:26-56 | when no two unmeasured revisions reach each other through unmeasured ones it finds all of them, whatever is asked for in whatever order |
| Ancestry.AcyclicHasNoLoop | web/src/report/graph.ts:17-57 | in particular on every acyclic graph |
| CyclicGraphs.CompleteExactly | web/src/report/graph.ts:26-56 | only then: the search is complete whatever measured revisions are attached, however parents are listed and questions ordered, if and only if no two unmeasured revisions reach each other |
| CyclicGraphs.SecondSearchMisses | web/src/report/graph.ts:31-33 | of two such revisions, a point that enters at one and is asked for second misses a measured parent of the other |
| CyclicGraphs.SmallestMiss | web/src/report/graph.ts:31-33 | for instance with parents x-u, u-v, u-m, v-u and y-v nothing is found for y after x, although m is nearest |
| Graph.ComputeMinimalEdges | web/src/report/graph.ts:17-57 | an edge for each ancestor the search answers and no other, once each when the points are distinct |
| Graph.ClosureIsAncestry | web/src/report/graph.ts:17-57 | when no two unmeasured revisions reach each other, two revisions are connected by emitted edges if and only if both are measured and one is an ancestor of the other |
| Graph.EdgeIsNeeded | web/src/report/graph.ts:17-57 | an edge with no measured revision between its ends cannot be dropped |
| Components.ComputeComponents | web/src/report/components.ts:7-68 | for any points: the components partition the non-empty revision ids, each is a whole connected component of its bucket, no two have the same id, and an empty id stays pending |
| Components.Explore | web/src/report/components.ts:39-58 | the breadth-first search finds exactly the revisions connected to its seed |
| Components.ExhaustedIsComponent | web/src/report/components.ts:39-58 | a search with an empty queue has found exactly the component of its seed, and nothing links out of it |
| Components.SameIdIsConnected | web/src/report/components.ts:7-68 | two revisions have the same component id if and only if edges inside one bucket connect them |
| ComponentIds.IdIsInjective | web/src/report/components.ts:60-62 | different bucket or number, different id, whatever colons the bucket holds |
| CompactionSpec.NormalizeFillsIn | internal/agent/compaction_policy.go:40-60 | one limit is enough to have all three, in order; normalizing twice changes nothing |
| Compaction.FilterSummaryItems | internal/agent/compaction_helpers.go:4-13 | old summaries are left out |
| Compaction.LastEnvironmentIndex | internal/agent/compaction_helpers.go:16-23 | the last environment item |
| Compaction.SelectRecentUserMessages | internal/agent/compaction_helpers.go:26-54 | keeps the longest run of latest user messages within the budget, at least one; the fallback loop never finds anything |
| Compaction.SelectToolOutputs | internal/agent/compaction_helpers.go:57-78 | keeps the last outputs up to the limit, or without one those after the last user message |
| Compaction.FindToolCallIndex | internal/agent/compaction_helpers.go:100-114 | the nearest earlier call with the id |
| Compaction.SelectToolCallsForOutputs | internal/agent/compaction_helpers.go:81-97 | keeps exactly the calls found for kept outputs |
| Compaction.MergeKeep | internal/agent/compaction_helpers.go:129-135 | joins two arrays of flags in place |
| Compaction.CompactHistory | internal/agent/compaction.go:13-80 | the arrays and loops compute the compaction said item by item, with every early return and failure |
| CompactionExact.LimitsAreExact | internal/agent/compaction_policy.go:40-60 | the value of every limit that is left out |
| CompactionExact.CompactIsExact | internal/agent/compaction.go:13-80 | a history is compacted if and only if it is over its soft limit, there is a provider and the summary of what is left out succeeds; then the kept items stay in order, followed by a summary that is not empty, and the three token counts are theirs |
| CompactionExact.TextStaysExactly | internal/agent/compaction.go:29-36 | instructions stay, of the environment items the last one, other text of the assistant goes |
| CompactionExact.MessagesStayExactly | internal/agent/compaction_helpers.go:26-54 | a user message stays if and only if it and those after it fit the budget, or those after it cost nothing |
| CompactionExact.OutputsStayExactly | internal/agent/compaction_helpers.go:57-78 | with a limit the last outputs stay, that many; without one those after the last user message |
| CompactionExact.UserItemsHaveOneKind | internal/agent/compaction.go:88-110 | how the kinds of user items are told apart |
| CompactionSpec.CallStaysWithOutput | internal/agent/compaction_helpers.go:57-114 | in a paired history a call is kept if and only if the output after it is |
| CompactionSpec.CompactKeepsPairs | internal/agent/compaction.go:26-67 | compaction never separates a call from its output |
| CompactionSpec.PickPartitions | internal/agent/compaction_helpers.go:117-126 | what is not an old summary is kept or summarised, nothing twice |
| CompactionSpec.OneSummaryIsLeft | internal/agent/compaction.go:55-67 | at most one summary is left, at the end |
| CompactionSpec.InstructionsSurvive | internal/agent/compaction.go:29-33 | developer and user instructions survive, if and only if they do not start like a summary, and are never summarised |
| CompactionSpec.EnvironmentSurvives | internal/agent/compaction.go:34-36 | the latest environment item survives |
| CompactionSpec.LatestMessageSurvives | internal/agent/compaction.go:38-39 | the latest user message survives, whatever its size, if and only if it does not start like a summary; if it does it is not summarised either |
| CompactionSpec.SummaryLikeMessageIsDropped | internal/agent/compaction_helpers.go:4-13 | for instance a latest user message that starts like a summary is in neither the compacted history nor the text to summarise |
| CompactionSpec.OutputLimitIsMet | internal/agent/compaction_helpers.go:59-68 | with a limit, that many tool outputs are left, or all if there are fewer |
| History.PairedIsAdjacent | internal/agent/call/stream.go:28-37 | pairing, said from the front of a history, is pairing at every item |
| History.TextIsPaired | internal/agent/session_build.go:9-28 | the text items a session starts from are paired |
| AgentTurn.Session.HandleResponseStream | internal/agent/call/stream.go:12-50 | each call is appended with its output at once, ids are made up when missing, an unknown event or a broken stream ends it |
| AgentTurnSpec.RespondAppends | internal/agent/call/stream.go:12-50 | a reply only appends, one item per message and two per call, and asks for a follow-up if and only if it called a tool |
| AgentTurnSpec.ReplyIsExact | internal/agent/call/stream.go:12-50 | position by position: event by event up to the first unknown one, the text of a message, or a call with its name, arguments and given or made-up id and then the output of the tool under that id; and when the reply counts as read to its end |
| AgentTurn.Session.RunCall | internal/agent/call/runner.go:12-77 | the whole loop: which prompts are sent, how it ends, what it leaves; every prompt paired and within the limits |
| AgentTurn.PromptsAreSafe | internal/agent/call/runner.go:21-65 | across any number of streams and compactions every prompt has each call followed by its own output is within the token limit and sent within the time limit, and there are at most as many prompts as steps allowed |
| AgentTurn.EveryPromptCarriesTheText | internal/agent/call/runner.go:21-65 | the text of the turn is the latest of its kind in every prompt of the turn, however often the history is compacted; one that starts like a summary is in a prompt if and only if nothing was compacted before |
| AgentTurn.NextPromptCarriesTheReply | internal/agent/call/runner.go:21-65 | another prompt follows only a reply that was read to its end and called a tool; unless compacted it is the prompt before it and then what the model said and the tools answered, event by event |
| AgentTurn.EndingKeepsPairs | internal/agent/call/runner.go:21-65 | however the loop ends, the session is left paired |
| AgentTurn.EndingIsExact | internal/agent/call/runner.go:21-65 | the reasons for which the loop ends, spelled out for each ending |
| AgentTurn.StepLimitEndsTheLoop | internal/agent/call/helpers.go:63-74 | with a step limit the loop ends, whatever the model answers |

## Left out

- Registry.RegistryAgrees: takes an admin PUT, and an applied decrease with its recording, as one atomic step each; the other lemmas of the module say when interleaved ones agree.
- Graph.EdgeIsNeeded: for acyclic graphs only; on a cycle an edge may be replaced by the way round.
- Batcher.Client.BatchReserve: the branch for a backend error is not modelled, since the in-memory backend returns none; nor are the batcher's deadlines and error replies for other limiters.
- The transfer service's own ledger, its accounts, capacity transfers and error codes: the behaviour of a foreign service.
- The retry back-off of that backend, with float powers and random jitter; the scheduler's jitter is any non-negative value.
- HTTP handlers and clients, decoding and trimming of definitions, registry files, configuration, command line: input and output.
- Items still in channels when the scheduler, a batcher or the submitter is shut down; real timers (a tick may come at any time).
- Jobs without an Execute function, observers, logging, verbose output, hooks after a call, tool-call counts.
- The text of a summary and the trimming of the prompt that asks for it; a trimmed summary prompt may separate a call from its output.
- Overflow of `time.Duration`, context deadlines, statuses other than active and decreasing.
- Report candles, component links and edge coordinates.
- Sorting in the registry's list, debug snapshots.
