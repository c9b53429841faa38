# Verified models of the job and resume backend

This project models the stateful protocols of the backend in Dafny and proves what each of them
keeps. Resume storage, leases, the parse executor and the key cache are modelled event by event, under
every interleaving and failure. The catalog is modelled one operation after the other (`Catalogs`,
`Collection`), and its transactions against each other where they race (`IngestRaces`, `SweepRaces`).
`dafny verify dfyconfig.toml` checks all of it. Each module is one component.

| module | component |
|---|---|
| `ResumeSaga`, `ResumeSafety`, `ResumeAssumptions`, `ResumeRetirement`, `ResumeReconciliation`, `ResumeStarvation`, `ResumeRequests`, `ResumeServices` | the resume storage saga: transactional rows and cleanup intents against a non-transactional object store |
| `RateLimiting`, `RateLimitAgreement`, `RateLimitBursts`, `RateLimitWaits` | the capacity-bounded fixed-window rate-limit store |
| `Leases`, `Rotation` | the Redis lease around a collection task; the rotating scheduler |
| `ParseExecutor`, `JwksCache` | the bounded parse executor; the key cache of the token verifier |
| `IpAddresses`, `ClientIp`, `IpRules` | address normalisation, proxy-chain peeling, the allow-list and its lockout guard |
| `Listings`, `Text`, `Titles`, `CanonicalMerge`, `LegacyJobs`, `LegacyColumns`, `Deduplication`, `Catalogs`, `CatalogInvariants`, `Sightings`, `Discovery`, `Collection`, `IngestRaces`, `SweepRaces` | the canonical job catalog, its merge rules, the dual write to the legacy table, and concurrent transactions |
| `Wrappers`, `Facts` | the optional value; facts about numbers and sets |

## How the models are built

Components that change state in place are classes whose methods follow the source statement by
statement and are proved against functions on values; the theorems are about those functions and
about whole runs of them.

**The saga.** Every `await` of `upload`, `replace`, `delete` and `reconcile_storage_cleanups` is one
event. Events of any number of requests and reconcilers interleave with each other, with the clock
and with crashes; every storage call and every commit may fail, and a delete may take effect and still
raise. Three assumptions are stated as a value (`Assumptions`, with `TRUSTED` turning them all on), and
`ResumeAssumptions` shows that each is needed: a raised commit committed nothing, a request is finished
or gone before its 15 minute reservation ends, and a raised upload left no object. One clock serves the
application and the database. The version check of the mapper comes before the CHECK constraints of the
same flush. Deleting a cleanup row that is gone already is a no-op, because that table has no version
column. A commit that would delete a cleanup row locked by a reconciler is blocked until it fails or the
lock goes.

**Times** are integers or reals, monotone where a theorem says so. Floating-point clocks are reals.
Deduplication confidence is in tenths; no sum the code can form differs from the floating-point
comparison at the threshold. Money is in hundredths.

**The database** is taken as transactions, savepoints, CHECK and unique constraints, advisory and row
locks, and a version check. What a query may answer is a predicate (`IsBatch`, `AnswersUrl`,
`AnswersCandidates`), and results hold for every answer it allows. Companies are identified by the
normalised name their table keeps unique. `casefold`, the word characters of Unicode and the parsing of
addresses are parameters. In `SweepRaces` each statement reads what is committed when it starts, a
writer that waited for a row re-reads that row alone, and a flush writes only the columns that differ
from what was loaded.

## What the proofs found

- A row in PARSE_FAILED can never be deleted or replaced: both leave `parse_error_code` in place and
  the CHECK constraint aborts the transaction (`ResumeRetirement.DeleteCommitsIff`,
  `ResumeRetirement.ReplaceCommitsIff`, `ResumeRetirement.SettledRowsAreFinal`).
- `replace` answers storage-unavailable both when nothing happened and when the replacement is in
  effect (`ResumeServices.ResumeService.Replace`).
- Cleanup intents that keep failing are not postponed. While the store refuses a fixed set of keys,
  another intent is removed in the end exactly when fewer than `limit` refused ones come before it
  (`ResumeStarvation.RemovedIff`).
- Recent use does not protect a rate-limit counter: an eviction earlier in the same window is
  never made up for (`RateLimitAgreement.RecentUseIsNotEnough`). The bounded store agrees with an
  unbounded counter over a history exactly when no request of the key follows an eviction of its live
  entry while its unbounded window is still open (`RateLimitAgreement.StoreAgrees`); an eviction takes
  `maxKeys` other keys (`RateLimitAgreement.EvictionTakesACrowd`).
- Any window-long interval admits at most 2L - 1 requests of a key, not 2L, and L more for each time
  the key's live entry is evicted in it; 2L - 1 is reached (`RateLimitBursts.BurstBound`,
  `RateLimitBursts.BurstBoundIsReached`).
- A scheduler cursor that is not a number is never repaired; every round then takes the first batch
  (`Rotation.GarbageStarves`).
- Requests that observed the same key fetch refetch more than once exactly when a refetch failed and
  another of them comes a cooldown after the last one, that fetch still being the latest
  (`JwksCache.RepeatedIff`). A refresh serves keys past their time to live exactly when they were past
  it when it got the lock and it does not refetch (`JwksCache.StaleServedIff`).
- A title of which nothing stays in normal form, such as `!!!`, passes every check and empties the stored
  normalised title (`CanonicalMerge.TitleEmptiedIff`, `CanonicalMerge.PunctuationEmptiesTitle`); no other
  field that a row has can be lost (`CanonicalMerge.RunsEmptyNothing`).
- A sweep and a collection that overlap can leave a job inactive beside an active source, in either order
  of their commits (`SweepRaces.JoinOvertakesSweep`, `SweepRaces.SweepOvertakesJoin`). The catalog stays
  consistent exactly when no transaction commits a decision that others have overtaken
  (`SweepRaces.ConsistentIffNoneOvertaken`).
- Normalisation takes IPv4-mapped addresses out of IPv6 networks wider than /96, and out of no other
  (`IpAddresses.NormalizedMembership`).
- README.md:15, README.md:178 and docs/job-ingestion.md:26 say that cross-source merging is disabled;
  the code merges (app/jobs/ingestion/service.py:103-114). The model follows the code.
- The freshness sweep spares a provider's freshest listing whenever the safety window starts no
  earlier than the stale threshold; settings do not enforce that
  (`CatalogInvariants.SweepSparesTheFreshest`).
- The two merge implementations agree as long as no canonical write failed and a job has one listing;
  a canonical write fails after a legacy one exactly when salary bounds cross, and the tables then
  disagree exactly when the legacy write changed a common column (`Collection.CanonicalFailsOnlyOnSalary`,
  `Collection.RefusedWriteDisagrees`).

## Model

| member | source | states |
|---|---|---|
| ResumeSafety.StepIsSafe | app/resumes/service.py:56-502 | whatever a single event of any request, reconciler or crash does, no object is orphaned, no live resume dangles and every row satisfies its CHECKs afterwards |
| ResumeSafety.RunIsSafe | app/resumes/service.py:56-502 | the same after every run of interleaved events: each stored object belongs to a live resume or to an intent, each live resume has its object and no intent names it |
| ResumeSafety.EmptyIsSafe | app/resumes/service.py:34-54 | the system starts in a safe state |
| ResumeSafety.ReplaceKeepsInv | app/resumes/service.py:252-267 | the atomic swap of new row, retired row, new intent and dropped intent keeps the invariant when it commits |
| ResumeSafety.CompensateKeepsInv | app/resumes/service.py:204-275 | so does turning to compensation instead, when parsing or the final commit fails |
| ResumeSafety.DeleteLostKeepsInv | app/resumes/storage.py:110-130 | a delete that takes effect and still raises, in a request or in a reconciler, keeps the invariant |
| ResumeSafety.ReconcileStorageKeepsInv | app/resumes/service.py:422-431 | a reconciler never deletes the object of a live resume, whether the delete succeeds, is refused, or loses its response |
| ResumeSafety.ReconcileCommitKeepsInv | app/resumes/service.py:432-441 | committing a batch, whatever its outcomes, orphans nothing |
| ResumeSafety.SettleAt | app/resumes/service.py:422-436 | after a batch an intent is gone if its object was deleted, counted and annotated if not, and untouched if it was not in the batch |
| ResumeAssumptions.LateUploadOrphans | app/resumes/service.py:443-461 | without the deadline an upload that outlives its reservation leaves an orphaned object |
| ResumeAssumptions.LateCommitDangles | app/resumes/service.py:447-456 | without the deadline a publication that outlives its reservation leaves a live resume without its object |
| ResumeAssumptions.LostUploadOrphans | app/resumes/storage.py:84-108 | an upload that raises although the object was stored leaves an orphaned object |
| ResumeAssumptions.LostCommitDangles | app/resumes/service.py:147-154 | a commit that raises although it committed makes compensation delete a live resume's object |
| ResumeRetirement.DeleteCommitsIff | app/resumes/service.py:366-392 | a soft delete commits exactly when the row is unchanged since it was loaded, is not PARSE_FAILED and has no intent yet |
| ResumeRetirement.ReplaceCommitsIff | app/resumes/service.py:255-275 | a replacement commits exactly under the same condition on the row it retires |
| ResumeRetirement.ParseFailedDeleteFails | app/resumes/service.py:366-392 | a PARSE_FAILED row does arise: in a possible run from the empty system a rejected upload stores it and its owner's delete ends in a database error |
| ResumeRetirement.LoserChangesNoRow | app/resumes/service.py:268-275 | a request that loses the version check changes no row and goes on to compensate |
| ResumeRetirement.PublicationAddsOne | app/resumes/service.py:97-156 | publishing adds exactly one live row under a fresh identifier |
| ResumeRetirement.ReplacementSwapsOne | app/resumes/service.py:252-267 | a replacement retires exactly one live row and adds exactly one |
| ResumeRetirement.DeletionTakesOne | app/resumes/service.py:366-384 | a deletion retires exactly one live row and adds none |
| ResumeRetirement.OtherEventsKeepRows | app/resumes/service.py:416-502 | reservation, storage, compensation, reconciliation and crashes change no row |
| ResumeRetirement.StepOnRows | app/domain/resumes.py:92-107 | no event loses a row, changes its owner or revives it |
| ResumeRetirement.LiveResumesConserved | app/resumes/service.py:56-414 | over any run the number of live resumes is the initial one plus publications minus deletions |
| ResumeRetirement.SettledRowsAreFinal | app/domain/resumes.py:92-107 | over any run a deleted row and a PARSE_FAILED row stay exactly as they are |
| ResumeRetirement.OneWinner | app/domain/resumes.py:178-186 | once a row is retired, no other request that loaded it can commit its change, whatever happens in between |
| ResumeReconciliation.RoundRuns | app/resumes/service.py:416-441 | one complete batch: which objects and intents it removes and the counts it reports |
| ResumeReconciliation.CountsAddUp | app/resumes/service.py:416-441 | removed and failed add up to the batch |
| ResumeReconciliation.Converges | app/resumes/service.py:416-441 | after k successful batches exactly max(0, m - k * limit) of m due intents are left, so ceil(m / limit) batches empty the journal and fewer do not; then storage holds exactly the live resumes' objects |
| ResumeReconciliation.BatchExists | app/resumes/repository.py:154-168 | the query for due intents has an answer in every state |
| ResumeReconciliation.RoundsExist | app/resumes/service.py:416-441 | from every quiet state the reconciler can be run any number of times |
| ResumeReconciliation.CrashOnlyRepeatsWork | app/resumes/service.py:422-441 | a reconciler that dies anywhere in its batch loses nothing: draining afterwards ends where the undisturbed drain ends |
| ResumeReconciliation.ReconcilersAreDisjoint | app/resumes/repository.py:154-168 | two reconcilers running at once never hold the same intent |
| ResumeReconciliation.FailedRoundRepeats | app/resumes/service.py:425-436 | a batch that fails throughout leaves the queue order as it was, so the next batch is the same one |
| ResumeReconciliation.FailuresStarve | app/resumes/repository.py:154-168 | while the whole first batch keeps failing, every round takes it again and changes only its attempts and errors |
| ResumeStarvation.RunKeepsUids | app/resumes/repository.py:129-168 | over any run the primary keys of intents are distinct, so the query's order is strict |
| ResumeStarvation.ReachedInTime | app/resumes/service.py:416-441 | with fewer than `limit` refused intents ahead of it, an intent is removed after n rounds when n times the room left exceeds the accepted ones ahead |
| ResumeStarvation.NeverReached | app/resumes/repository.py:154-168 | with `limit` of them ahead, no number of rounds removes it |
| ResumeStarvation.RemovedIff | app/resumes/service.py:416-441 | while the store refuses a fixed set of keys, an intent outside it is eventually removed exactly when fewer than `limit` refused ones come before it |
| ResumeRequests.StrangersFindNothing | app/resumes/repository.py:25-43 | a deletion finds exactly the caller's own rows, a replacement those of them that are not deleted; a request that finds nothing ends there and changes nothing |
| ResumeRequests.RetiredForItsOwner | app/resumes/service.py:343-365 | over any run a row is retired only by a request that its own owner began for it |
| ResumeRequests.PublishedForItsOwner | app/resumes/service.py:83-95 | over any run a row appears only through a request that its owner began with that identifier |
| ResumeRequests.RetirementWrites | app/resumes/service.py:252-267 | a retired row keeps all but status, time and version, and a new intent names its object, due at once |
| ResumeRequests.PublicationWrites | app/resumes/service.py:97-148 | a published row is PARSED, or PARSE_FAILED with the parser's code, its object is stored and no intent names it |
| ResumeRequests.RemovalKnowsItsIntent | app/resumes/service.py:276-287 | a request that goes on to remove a retired object holds the intent that names it |
| ResumeRequests.ClearingDropsIt | app/resumes/service.py:492-502 | clearing removes exactly that intent |
| ResumeRequests.RowsStayConsistent | app/domain/resumes.py:92-107 | over any run deletion time, error code and status go together, and versions never fall |
| ResumeRequests.DeadlineIsAQuarterHour | app/resumes/service.py:443-453 | over any run the deadline of a storing request is 900 seconds after it began |
| ResumeRequests.ObjectIsProtected | app/resumes/repository.py:154-168 | until then no reconciler may take the intent of the object it stores |
| ResumeServices.OtherStep | app/resumes/service.py:56-502 | what a suspended request can rely on while others run |
| ResumeServices.ResumeService.ReserveCleanup | app/resumes/service.py:443-461 | the reservation is durable before anything is stored, or the request ends |
| ResumeServices.ResumeService.ClearCleanupBestEffort | app/resumes/service.py:492-502 | clearing an intent never changes the answer, whether it succeeds or not |
| ResumeServices.ResumeService.RemoveWithJournal | app/resumes/service.py:479-490 | the answer for each way the delete can end, and the intent stays for as long as the object does |
| ResumeServices.ResumeService.UploadObject | app/resumes/service.py:69-81 | a refused upload publishes nothing and answers storage-unavailable |
| ResumeServices.ResumeService.ParseObject | app/resumes/service.py:99-118 | an execution error compensates in both flows, a domain error only when replacing |
| ResumeServices.ResumeService.CommitRow | app/resumes/service.py:142-150 | the final transaction commits, fails, or is not reached in time |
| ResumeServices.ResumeService.PublishRow | app/resumes/service.py:142-154 | each way the final transaction can end and what the tables hold then |
| ResumeServices.ResumeService.Upload | app/resumes/service.py:56-156 | the exact answer for every way its awaits can end, under every schedule of other requests: the resume is PARSED or PARSE_FAILED in the tables with its object, or in none of them; a request without an answer took 15 minutes |
| ResumeServices.ResumeService.Replace | app/resumes/service.py:158-289 | not found exactly for rows that are missing, another owner's or deleted, and then nothing changes; every other answer is determined by how the awaits end, up to a lost race, and tells whether the replacement took effect |
| ResumeServices.ResumeService.Delete | app/resumes/service.py:343-414 | not found exactly for rows that are missing or another owner's, and then nothing changes; every other answer is determined by how the awaits end, up to a lost race; on success the row is retired and its object gone |
| ResumeServices.ResumeService.ReconcileStorageCleanups | app/resumes/service.py:416-441 | the reported counts, and after a commit exactly the failed intents of the batch left, each with one attempt more and the error noted |
| RateLimiting.BoundedMemoryRateLimitStore.CollectExpired | app/security/rate_limit.py:44-48 | exactly the keys whose own window has passed |
| RateLimiting.BoundedMemoryRateLimitStore.EvictOldest | app/security/rate_limit.py:57-58 | capacity keeps the entries used last, in order |
| RateLimiting.BoundedMemoryRateLimitStore.Consume | app/security/rate_limit.py:41-60 | one request's whole effect on the ordered store; admission by its count, and the wait for the end of its window |
| RateLimiting.RouteRateLimiter.Check | app/security/rate_limit.py:74-90 | one consumption under the joined key with its count and wait, or the failure policy with the store untouched |
| RateLimiting.StoreKeysAreDistinct | app/security/rate_limit.py:83-85 | two route groups and clients share a counter only if both are equal, provided group names hold no colon |
| RateLimiting.CountedIsCurrent | app/security/rate_limit.py:52-60 | a request is counted in a window that is not over, and the decision is within the limit exactly by that count, with a wait short of the window's end by under a millisecond |
| RateLimitAgreement.StoreKeepsLiveCounters | app/security/rate_limit.py:41-60 | after any history the store is within capacity, in order of last use, and holds each key's last counter unless that expired or was evicted live |
| RateLimitAgreement.CountedIs | app/security/rate_limit.py:49-56 | a request counts on from its key's last counter, and from one if that was evicted live since |
| RateLimitAgreement.EvictionTakesACrowd | app/security/rate_limit.py:57-58 | a live entry is evicted only after as many other keys as there is room for were used since |
| RateLimitAgreement.AgreesIffUndisturbed | app/security/rate_limit.py:41-60 | for a key whose counters agree, the next request is decided like by an unbounded counter under every limit, wait included, exactly when its entry was not evicted live since its last use or its unbounded window is over |
| RateLimitAgreement.StoreAgrees | app/security/rate_limit.py:41-60 | over any history every request of a key is decided alike exactly when none of them follows such an eviction within its unbounded window |
| RateLimitAgreement.FewOthersAgree | app/security/rate_limit.py:52-58 | in particular while fewer than `maxKeys` other keys were used since |
| RateLimitAgreement.StoreIsBoundedLru | app/security/rate_limit.py:55-58 | the store never exceeds its capacity, holds a key once, and lists keys in order of last use |
| RateLimitAgreement.RecentUseIsNotEnough | app/security/rate_limit.py:52-58 | a key used last and never overtaken since can still be admitted where the unbounded counter refuses |
| RateLimitAgreement.OthersAfterRequest | app/security/rate_limit.py:44-50 | a request leaves no other entry whose window is over and, while there is room, all whose is not |
| RateLimitWaits.CounterIs | app/security/rate_limit.py:52-56 | after any history a key's counter holds the time of the request that opened its window and the number of its requests since |
| RateLimitWaits.DecisionIs | app/security/rate_limit.py:52-60 | over any history a request is admitted exactly if no more than `limit` requests were made since the one that opened its window, and the wait runs from there |
| RateLimitWaits.WaitOpensAWindow | app/security/rate_limit.py:59 | a client that returns after exactly the wait it was told opens a new window if and only if its entry was evicted or the wait was rounded up |
| RateLimitBursts.BurstBound | app/security/rate_limit.py:52-60 | with fixed limit L and window W any half-open interval of length W admits at most 2L - 1 requests of a key, and L more for each live eviction of the key in it; none for L = 0 |
| RateLimitBursts.BurstBoundUnevicted | app/security/rate_limit.py:52-60 | so at most 2L - 1 when the interval sees none |
| RateLimitBursts.BurstBoundIsReached | app/security/rate_limit.py:52-60 | for every positive limit some history reaches that bound |
| RateLimiting.RetryIsRoundedUp | app/security/rate_limit.py:59 | the wait falls short of the remaining time by under a millisecond and equals it rounded up exactly unless its fraction, past the first second, lies in (0, 0.001) |
| RateLimiting.WaitingHelps | app/security/rate_limit.py:53-59 | waiting as told starts a new window exactly when the wait was rounded up |
| Leases.RedisCollectionLease.Release | app/queue/locks.py:35-41 | only its own unexpired token is deleted; a second release and an unreachable server change nothing |
| Leases.RedisCollectionLockManager.Acquire | app/queue/locks.py:52-58 | a lease is given exactly when the key is free or expired, with the configured lifetime |
| Leases.RunJobCollection | app/queue/tasks/scrape.py:57-168 | the section is entered exactly with a valid target, a collector and the lease; each ending has its own status; and the lease is released on every way out |
| Leases.StepKeepsInv | app/queue/tasks/scrape.py:106-168 | every event keeps each running task's lease its own until after its timeout |
| Leases.ReleaseSparesOthers | app/queue/locks.py:12-17 | a release never takes away a lease another task owns |
| Leases.TaskMoves | app/queue/tasks/scrape.py:106-168 | a task enters the section with a token nobody holds and only when the key is free, leaves it, and ends with its release, or dies |
| Leases.ReleaseFrees | app/queue/locks.py:12-17 | a release that reaches Redis frees the key exactly if it is still the task's own |
| Leases.RunKeepsInv | app/queue/tasks/scrape.py:106-168 | over any run no two tasks of one target are in the section together, if leases outlive timeouts |
| Leases.ShortLeaseOverlaps | app/core/config.py:368-371 | otherwise some run has two of them in it |
| Leases.ExclusiveIffLeaseOutlivesTask | app/core/config.py:368-371 | mutual exclusion over all runs holds if and only if the lease outlives the task timeout, which settings validation demands |
| Rotation.OffsetStore.RotateQueries | app/queue/scheduler/collection.py:42-74 | which targets a round takes and what it stores, for every stored value and every Redis failure, a lost response to the cursor write included |
| Rotation.RoundsAreOneWalk | app/queue/scheduler/collection.py:60-74 | consecutive rounds are one walk around the circle of targets |
| Rotation.WalkIsEven | app/queue/scheduler/collection.py:70-74 | a walk of m steps visits each of n targets floor(m/n) or ceil(m/n) times |
| Rotation.RotationIsFair | app/queue/scheduler/collection.py:42-74 | from any cursor that is a number, k rounds of b of n targets take each floor(kb/n) or ceil(kb/n) times, and all of them within ceil(n/b) rounds |
| Rotation.BatchIsDistinct | app/queue/scheduler/collection.py:70-74 | from any cursor and however Redis answers, no batch takes a target twice |
| Rotation.GarbageStarves | app/queue/scheduler/collection.py:56-68 | from a stored value that is no number every round takes the first batch and repairs nothing |
| Rotation.ClaimsAreSpaced | app/queue/scheduler/collection.py:174-178 | granted claims of one source are an interval apart |
| Rotation.ClaimsIff | app/queue/scheduler/collection.py:174-178 | a tick claims a source exactly when every earlier claim has expired |
| Rotation.ClaimsHaveTheirOwnWindow | app/queue/scheduler/collection.py:192-202 | so no two claims produce the same job identifiers |
| Rotation.CollectEnabledTargets | app/queue/scheduler/collection.py:33-39 | the loop computes the specification of which targets remain |
| Rotation.EnabledTargetsAreFirst | app/queue/scheduler/collection.py:33-39 | a target remains exactly when it is the first enabled one of its identity |
| Rotation.IdentitiesOnce | app/queue/scheduler/collection.py:33-39 | no identity remains twice |
| Rotation.KnownIdentities | app/queue/scheduler/collection.py:33-39 | the identities that remain are exactly those of enabled targets |
| Rotation.RemainingInOrder | app/queue/scheduler/collection.py:33-39 | the targets that remain keep the order in which they are configured |
| Rotation.SourceInOrder | app/queue/scheduler/collection.py:157-161 | the group of a source are all targets that name it, in order |
| Rotation.GroupBySource | app/queue/scheduler/collection.py:157-161 | each source gets its targets in order, the first hundred |
| ParseExecutor.StepMovesOneSlot | app/resumes/execution.py:43-72 | each event moves one permit or none, and gives one back only after its worker ended |
| ParseExecutor.SlotsAreConserved | app/resumes/execution.py:39-72 | over any run free permits and held slots add up, and unfinished workers never exceed the maximum |
| ParseExecutor.ReleasedExactlyOnce | app/resumes/execution.py:47-72 | over any run every acquired slot is released once, and a call cancelled while waiting releases none |
| ParseExecutor.EntersIff | app/resumes/execution.py:43-45 | over any run a waiting call can enter exactly while fewer slots are held than there are |
| ParseExecutor.SlotComesBack | app/resumes/execution.py:47-72 | a held slot is free again once its worker ended and what ended it was delivered or called back |
| ParseExecutor.CallersCanLeave | app/resumes/execution.py:57-60 | a cancelled call leaves nothing in the queue, and its slot to the callback |
| ParseExecutor.BoundedThreadResumeParseExecutor.Parse | app/resumes/execution.py:43-66 | how success, domain error, parser error, timeout and cancellation end and who still owes the release |
| JwksCache.SupabaseJwtVerifier.FetchKeys | app/auth/verifier.py:161-172 | a failed fetch keeps keys and stamp, a successful one replaces both |
| JwksCache.SupabaseJwtVerifier.GetCachedKeys | app/auth/verifier.py:134-145 | what is served was fetched just now or is younger than the time to live |
| JwksCache.SupabaseJwtVerifier.RefreshForUnknownKey | app/auth/verifier.py:147-159 | it refetches only what the caller observed and only after the cooldown, which a failed attempt starts too |
| JwksCache.SupabaseJwtVerifier.GetSigningKey | app/auth/verifier.py:125-132 | the answer and the state after both steps, with any steps of other requests between them |
| JwksCache.UnknownFetchesAreSpaced | app/auth/verifier.py:150-159 | unknown-key fetches, failed ones included, are a cooldown apart |
| JwksCache.AgeFetchesAreSpaced | app/auth/verifier.py:134-145 | successful age-driven fetches are a time to live apart |
| JwksCache.KeysAreTheLastFetched | app/auth/verifier.py:161-172 | over any run the cache holds the keys and the time of the last successful fetch, whichever step made it |
| JwksCache.FetchesIff | app/auth/verifier.py:134-159 | over any run a step goes to the network exactly when the last fetch is too old, or is the one the caller observed with the last unknown-key fetch a cooldown ago |
| JwksCache.FetchBudget | app/auth/verifier.py:134-172 | so in any interval of any run both kinds are linearly bounded in its length |
| JwksCache.OneRefetchPerObservation | app/auth/verifier.py:150-159 | requests that observed the same fetch replace the keys at most once between them |
| JwksCache.RepeatedIff | app/auth/verifier.py:147-159 | over any run the observers of one fetch attempt a refetch twice exactly when an attempt failed and another of them comes, with that fetch still the latest, a cooldown after the last attempt |
| JwksCache.StaleServedIff | app/auth/verifier.py:147-159 | a refresh that answers serves keys at or past their time to live exactly when they were so when it got the lock and it does not refetch |
| JwksCache.FailedRefreshIsRepeated | app/auth/verifier.py:156-158 | under all positive settings two requests, each after its own look at the cache, attempt a refetch of the same keys |
| JwksCache.RefreshCanServeStaleKeys | app/auth/verifier.py:147-159 | under all positive settings some such request is served keys at their time to live |
| IpAddresses.MakeNetwork | app/security/ip.py:25 | host bits are cleared and the address stays in its network |
| IpAddresses.ContainsIff | app/security/ip.py:33-35 | a network holds exactly the addresses from its base on that its host bits count |
| IpAddresses.NormalizeIpIs | app/security/ip.py:15-20 | addresses in ::ffff:0:0/96 become their last four bytes, all others stay |
| IpAddresses.MappedNetworksAreNarrow | app/security/ip.py:26-29 | a masked IPv4-mapped base forces a prefix of at least 96, so the clamp never fires |
| IpAddresses.NormalizeNetworkTwice | app/security/ip.py:23-30 | normalising a network again changes nothing |
| IpAddresses.NormalizedMembership | app/security/ip.py:15-35 | between IPv6 values normalisation changes membership exactly for a mapped address in a network wider than /96 |
| IpAddresses.EmbeddedMembership | app/security/ip.py:15-35 | an IPv4 address is in a normalised IPv6 network exactly when its mapped form was in the original, at least /96, one |
| ClientIp.TrustedClientIpResolver.constructor | app/security/ip.py:41-42 | the trusted networks are normalised one by one |
| ClientIp.TrustedClientIpResolver.Resolve | app/security/ip.py:44-81 | the caller for every peer, header form, blank part and unparseable value |
| ClientIp.TrustedClientIpResolver.Peel | app/security/ip.py:76-81 | the loop from the right finds the client hop of the chain |
| ClientIp.ClientOf | app/security/ip.py:76-81 | that hop is the rightmost untrusted one, or the leftmost if all are trusted |
| ClientIp.ClientIsUnique | app/security/ip.py:76-81 | no other hop qualifies |
| ClientIp.UntrustedPeerIsTheClient | app/security/ip.py:57-58 | an untrusted peer is the client whatever it forwards |
| ClientIp.NoPeerNoClient | app/security/ip.py:51-56 | without a parseable peer there is no client |
| ClientIp.TrustedPeerIff | app/security/ip.py:60-81 | behind a trusted peer there is a client exactly when values were forwarded and every part parses: the rightmost part that is no proxy, or the leftmost |
| ClientIp.ValuesAre | app/security/ip.py:60-64 | given values come before headers, and the lower-case header before the other |
| ClientIp.OnePart | app/security/ip.py:68 | a value without a comma is one part, stripped |
| ClientIp.PrependedValues | app/security/ip.py:60-81 | parseable header values prepended left of an untrusted hop change nothing, and an unparseable one voids the chain |
| ClientIp.PartsJoin | app/security/ip.py:68 | values joined by a comma read like separate ones |
| ClientIp.PrependedInOneValue | app/security/ip.py:60-81 | the same holds of what is prepended inside one comma-joined header |
| IpRules.IpSecurityService.CreateRule | app/security/service.py:97-134 | a network already stored is refused and nothing changes; otherwise its normal form is added |
| IpRules.IpSecurityService.UpdateRule | app/security/service.py:136-189 | an update is made exactly when networks stay distinct and the actor stays admitted |
| IpRules.IpSecurityService.DeleteRule | app/security/service.py:191-217 | a deletion is made exactly when the actor stays admitted |
| IpRules.IpSecurityService.GuardLockout | app/security/service.py:227-252 | the guard accepts exactly when enforcement, its database up, would admit the actor under the new rules |
| IpRules.IpSecurityService.EnforceAllowlist | app/security/middleware.py:77-106 | a bypassing address is admitted; of the others, with the database up exactly those in the network of an enabled rule, and with it down all or none by the failure policy |
| IpRules.AdmitsIff | app/security/middleware.py:77-106 | the same for every setting of the allow-list |
| IpRules.UpdateIff | app/security/service.py:149-170 | an edit is made exactly when its network is no other rule's and the actor passes a bypass, the edited rule or another enabled one |
| IpRules.DeleteIff | app/security/service.py:200-207 | a deletion is made exactly when the actor passes a bypass or another enabled rule |
| IpRules.ChangeKeepsRulesValid | app/security/service.py:108-134 | stored networks stay normalised and distinct |
| IpRules.CreateOnlyAdds | app/security/service.py:97-134 | creating a rule takes access from nobody |
| IpRules.NoRunLocksOutItsEditor | app/security/service.py:149-170 | over any run, whoever makes all its edits and deletions is admitted after it, whatever others create |
| IpRules.OthersCanBeLockedOut | app/security/service.py:227-252 | the guard protects the actor only: another admitted address can be locked out |
| Deduplication.SevenTenths | app/jobs/ingestion/deduplication.py:121-127 | seven tenths with the exact title amount to: a matching description, or the same place with the same type or a close date |
| Deduplication.SameOpeningIff | app/jobs/ingestion/deduplication.py:39-127 | that formula on the columns, with its limits of a hundred characters and three days |
| Deduplication.WeighIdentity | app/jobs/ingestion/deduplication.py:56-91 | title, location and type evidence is reported exactly when it holds, with its weight, and a conflict refuses |
| Deduplication.WeighSupport | app/jobs/ingestion/deduplication.py:93-119 | so is the evidence of descriptions and posting dates |
| Deduplication.EvaluateCrossSourceCandidate | app/jobs/ingestion/deduplication.py:39-135 | a merge is decided exactly for the same opening; the reason is that of the first rule that applies, each piece of evidence is listed exactly when it holds, and the confidence is the sum of their weights |
| CanonicalMerge.RejectedIff | app/domain/jobs.py:180-197 | a refresh is rejected exactly when the listing alone would be or a one-sided bound crosses the stored opposite one |
| CanonicalMerge.CompleteRangesAreAccepted | app/repositories/canonical_jobs.py:414-430 | ranges that are complete and ordered, or absent, are never rejected |
| CanonicalMerge.RunsEmptyNothing | app/repositories/canonical_jobs.py:396-438 | over any run of normalised listings no canonical field but the normalised title loses its value, and ranges stay ordered |
| CanonicalMerge.TitleEmptiedIff | app/repositories/canonical_jobs.py:404-406 | a refresh empties the normalised title exactly when the title is given, is not "Unknown ..." and has an empty normal form |
| CanonicalMerge.RunEmptiesTitleIff | app/repositories/canonical_jobs.py:404-406 | after any run it is empty exactly when the last accepted title has an empty normal form, or none came and it was empty |
| CanonicalMerge.PunctuationEmptiesTitle | app/jobs/ingestion/normalization.py:134-135 | an accepted listing titled "!!!" does it |
| Titles.EmptyFormIff | app/jobs/ingestion/normalization.py:134-135 | the normal form of a title is empty exactly when its folded text has no word character and none of + / # & . - |
| CanonicalMerge.SameListingAgain | app/repositories/canonical_jobs.py:396-441 | the same listing again leaves the content as it is |
| CanonicalMerge.LatestValueWins | app/repositories/canonical_jobs.py:396-441 | after any run each slot of a row (title with its normalised form, location with its own, each other field) is as the last accepted listing that brings something for it has it, or as before |
| CanonicalMerge.CreatedCarries | app/repositories/canonical_jobs.py:297-337 | a new row has every slot as its listing has it |
| LegacyJobs.MergeValues | app/repositories/jobs.py:209-234 | the loop over columns leaves each column by its own rule |
| LegacyJobs.GlobalJobRepository.UpsertWithOutcome | app/repositories/jobs.py:75-119 | the row written and its status, or a refusal by a CHECK constraint with every row as before |
| LegacyJobs.RunKeepsRows | app/repositories/jobs.py:203-234 | over any run rows stay, no column its rule protects loses its value, no other does but the normalised title when the listings are normalised, and the experience range stays ordered |
| LegacyJobs.NormalizedTitleIsTheLast | app/repositories/jobs.py:209-234 | the normalised title is that of the last stored listing, whatever that is |
| LegacyColumns.UpsertShows | app/repositories/jobs.py:85-116 | an upsert leaves each column as the listing has it, if the row is new or the listing brings something for it, and else as it was |
| LegacyColumns.UpsertTakenIff | app/domain/jobs.py:180-197 | it is taken exactly when the resulting experience bounds are not negative and not crossed |
| LegacyColumns.LatestMarkWins | app/repositories/jobs.py:49-119 | after any run of upserts and touches each of the 21 columns shows the last of them that brings something for it |
| LegacyJobs.GlobalJobRepository.TouchSeen | app/repositories/jobs.py:49-69 | listed rows are seen and active, nothing else changes, repeated identifiers count once |
| LegacyJobs.CompleteRowsStayComplete | app/jobs/collection.py:234-249 | a row with all core details keeps them over any run |
| Catalogs.FirstMatch | app/jobs/ingestion/service.py:109-114 | the first candidate that merges, and none if none does |
| Catalogs.CanonicalJobRepository.TouchSourcesSeen | app/repositories/canonical_jobs.py:105-144 | listed sources and their jobs are seen and active, nothing else changes, and the count is of sources |
| Catalogs.CanonicalJobRepository.DeactivateStaleSources | app/repositories/canonical_jobs.py:250-295 | the sweep's whole effect and count, nothing if the provider is not healthy |
| Catalogs.CanonicalJobRepository.CreateJob | app/repositories/canonical_jobs.py:297-337 | a job with the listing's content, or nothing when a CHECK constraint refuses |
| Catalogs.CanonicalJobRepository.RefreshSource | app/repositories/canonical_jobs.py:369-443 | both rows after a refresh, or neither changed when a CHECK constraint refuses; what they hold is told by `LatestListingWins` and `LatestValueWins` |
| Catalogs.RefreshContent | app/repositories/canonical_jobs.py:403-441 | the assignments compute the merge that the laws are proved of |
| Catalogs.CanonicalJobIngestionService.FindJob | app/jobs/ingestion/service.py:97-114 | the job of the same provider's URL, else the first merging candidate |
| Catalogs.CanonicalJobIngestionService.Ingest | app/jobs/ingestion/service.py:61-137 | the catalog after one listing, whose hash the source then has, and the action reported by the hash before; or the catalog unchanged when refused |
| Catalogs.CanonicalJobIngestionService.TouchSeen | app/jobs/ingestion/service.py:139-148 | repeated identifiers are touched and counted once |
| CatalogInvariants.IngestWrites | app/jobs/ingestion/service.py:61-137 | an accepted ingestion writes one source and one job, both seen now and active, and re-points nothing |
| CatalogInvariants.StepKeepsConnected | app/repositories/canonical_jobs.py:105-295 | each operation keeps: every job has a source, every source its job, a job is active exactly when a source is, rows satisfy their CHECKs |
| CatalogInvariants.RunKeepsConnected | app/jobs/ingestion/service.py:61-148 | so does every run of operations one after the other, whatever the clock does |
| CatalogInvariants.RunExtends | app/jobs/ingestion/service.py:64-128 | over any run known identities keep their job, jobs and first sightings stay, and no field but the normalised title loses its value |
| CatalogInvariants.StepEmptiesTitleIff | app/repositories/canonical_jobs.py:403-406 | an operation empties a job's normalised title exactly when it is an accepted ingestion of one of its sources that renames it to a title with an empty normal form |
| CatalogInvariants.JoinsOnlyTheSameOpening | app/jobs/ingestion/service.py:97-114 | a new listing joins a job only through its provider's URL or as the first same opening of the same employer, and joins whenever either exists among the answers |
| CatalogInvariants.NothingIsMissed | app/repositories/canonical_jobs.py:235-248 | when nothing is joined and fewer than ten candidates came back, no job of the employer is the same opening |
| CatalogInvariants.RecordsTheJoinedJob | app/jobs/ingestion/service.py:116-128 | the source recorded points to the joined job, or to a new one exactly when none was joined |
| CatalogInvariants.JoiningKeepsContent | app/jobs/ingestion/service.py:122-125 | joining marks the job seen and changes no content |
| CatalogInvariants.IngestingAgain | app/jobs/ingestion/service.py:70-94 | once a listing created or refreshed its job, ingesting it again succeeds and changes only timestamps |
| CatalogInvariants.RunKeepsTimed | app/repositories/canonical_jobs.py:123-142 | with observation times that do not decrease, a job's last sighting is its sources' maximum, its first their minimum, and no source was scraped after it was last seen |
| CatalogInvariants.LateTouchBreaksTimes | app/repositories/canonical_jobs.py:123-130 | one touch with an earlier time breaks that |
| CatalogInvariants.SweepIsConfined | app/repositories/canonical_jobs.py:259-277 | a sweep deactivates exactly the stale sources of a healthy provider |
| CatalogInvariants.SweepSparesTheFreshest | app/queue/tasks/freshness.py:20-35 | a sweep deactivates a provider's freshest listing exactly when it was seen within the safety window but before the threshold |
| Sightings.IngestTells | app/repositories/canonical_jobs.py:369-402 | an accepted ingestion leaves the listing's hash, and its URL, dates and raw data where it brings them or the source is new |
| Sightings.AgainIsReobserved | app/jobs/ingestion/service.py:70-87 | the next accepted listing of the identity is reported as observed again if it has the same hash, and as changed if not |
| Sightings.LatestListingWins | app/repositories/canonical_jobs.py:384-401 | after any run of ingestions, touches and sweeps each part of a source is that of the last accepted listing that brings something for it |
| Sightings.TouchIs | app/repositories/canonical_jobs.py:105-144 | which sources and jobs a touch marks as seen and active, and that it changes nothing else |
| Sightings.TouchedSurvivesSweep | app/repositories/canonical_jobs.py:105-293 | a listing touched at the threshold or later is active after the sweep, and so is its job |
| Sightings.StaleIsSwept | app/repositories/canonical_jobs.py:259-293 | a stale listing of a healthy provider is inactive after it, and its job unless another source keeps it |
| Sightings.CandidateOrder | app/repositories/canonical_jobs.py:235-248 | candidates come latest posting first, undated ones last, ties by identifier |
| Sightings.MissingCandidate | app/repositories/canonical_jobs.py:235-248 | an eligible job is missing among the candidates only behind ten others |
| Collection.CollectionCoordinator.PersistItem | app/jobs/collection.py:181-218 | one item's effect on both tables: the canonical write is attempted only after the legacy one, and neither undoes the other |
| Collection.CollectionCoordinator.PersistRawJobs | app/jobs/collection.py:169-231 | a batch stores its items one by one and counts them as specified |
| Collection.CollectionCoordinator.Run | app/jobs/collection.py:99-167 | each distinct candidate is either touched in both tables or handed to the detail fetch, never both; the tables and the reported numbers afterwards |
| Collection.CollectionCoordinator.SelectRecent | app/jobs/collection.py:132-152 | the two selections split the candidates by whether their details are recent |
| Collection.StoredDetailsAreRecent | app/jobs/collection.py:132-142 | a listing stored in a row with all core details, even if this refresh lacked them, is not fetched again for exactly six hours |
| Collection.RecentIff | app/jobs/collection.py:132-142 | details are recent exactly when the row was scraped in the last six hours and is complete, or its payload is no migration stub |
| Collection.SkippedWereFetched | app/jobs/collection.py:132-142 | what is skipped as recent was found by this run and scraped in the last six hours |
| Collection.TouchedInBoth | app/jobs/collection.py:143-147 | a touched listing is seen and active in both tables |
| Discovery.UniqueCandidates | app/jobs/collection.py:118-121 | the first position and the last candidate of each identifier |
| Discovery.FirstIdsInOrder | app/jobs/collection.py:118-121 | each identifier stands where it is first found |
| Collection.CountsAddUp | app/jobs/collection.py:178-231 | inserted, updated, skipped and failed add up to the batch, and canonical failures are among the stored ones |
| Collection.CountsAre | app/jobs/collection.py:178-231 | each number of the report counts the items that ended so |
| Collection.EndOfItem | app/jobs/collection.py:180-219 | when an item ends as unreadable, refused, inserted, skipped or updated, and what each leaves |
| Collection.RefreshedAgree | app/repositories/canonical_jobs.py:403-436 | the column-wise legacy merge and the canonical merge keep equal rows equal |
| Collection.CanonicalFailsOnlyOnSalary | app/domain/jobs.py:180-197 | from agreeing tables a canonical write is refused after a legacy one exactly when the salary bounds cross |
| Collection.RunKeepsInStep | app/jobs/collection.py:180-219 | after every run of stores, touches and sweeps in which no canonical write failed, both tables know the same identities and agree on every listing that shares its job with no other |
| Collection.EmptyTablesAreInStep | app/jobs/collection.py:91-97 | empty tables agree |
| Collection.RefusedWriteDisagrees | app/jobs/collection.py:191-200 | after a canonical write refused beside a legacy one, a new listing is in the legacy table only, and a known unshared one agrees exactly when the legacy write changed no common column |
| Collection.RefusedWriteHappens | app/jobs/collection.py:191-200 | a batch of two from empty tables in which that happens and the tables disagree |
| Collection.SharedJobDisagrees | app/jobs/ingestion/service.py:122-128 | a listing that joins a job with another description disagrees with it from the start |
| IngestRaces.OneSourcePerIdentity | app/repositories/canonical_jobs.py:63-85 | under any interleaving of transactions an identity has at most one source, pending or committed, and a committed one keeps its job |
| IngestRaces.OneJobPerIdentity | app/jobs/ingestion/service.py:64-128 | under any interleaving no identity gets a second job, every created job keeps its source, and every source has its job |
| IngestRaces.UnlockedLookupsCollide | app/repositories/canonical_jobs.py:70-75 | without the advisory lock two transactions both insert, which would leave two jobs for one identity |
| SweepRaces.StepKeepsInv | app/repositories/canonical_jobs.py:105-295 | under any interleaving no write re-points a source or inserts one twice, and every job written to is there |
| SweepRaces.SeesItsOwn | app/jobs/ingestion/service.py:64-128 | a transaction reads what would be there if it committed now |
| SweepRaces.NoTwoWriters | app/repositories/canonical_jobs.py:118-142 | over any interleaving no two open transactions have written the same job or the same source |
| SweepRaces.CollectionKeepsConsistentIff | app/repositories/canonical_jobs.py:105-144 | the commit of a collection keeps jobs active exactly when one of their sources is, if and only if what it sets active still has its counterpart |
| SweepRaces.SweepKeepsConsistentIff | app/repositories/canonical_jobs.py:265-293 | the commit of a sweep does, if and only if the jobs it deactivates have no other active source and the other jobs of its stale sources have one |
| SweepRaces.ConsistentIffNoneOvertaken | app/repositories/canonical_jobs.py:105-295 | over any interleaving of touches, ingestions and sweeps every committed state is consistent exactly when no transaction commits overtaken |
| SweepRaces.UndisturbedIsConsistent | app/repositories/canonical_jobs.py:105-295 | so it is whenever each transaction is the only one to commit since a collection began or a sweep looked |
| SweepRaces.JoinOvertakesSweep | app/repositories/canonical_jobs.py:279-293 | a listing that joins a job after a sweep looked and commits first leaves the job inactive beside its active source |
| SweepRaces.SweepOvertakesJoin | app/jobs/ingestion/freshness.py:8-11 | so does a sweep that commits between the loading and the flush of a joining listing, which sets active again only what it loaded inactive |

## Left out

- Collectors (what discovery and the detail fetch return is arbitrary), transport, HTML and JSON scraping, PDF extraction and resume heuristics: parsing is success, domain error or execution error.
- Normalisation of titles, URLs, companies and roles, content hashes and target identities: taken as given, collision-free values.
- JWT signature and claim checks, Supabase REST, and the internals of Redis and PostgreSQL.
- Routes, schemas, settings validation (but for the lease rule), logging, audit rows and their sanitising, migrations.
- Matching scores, search, pagination and the search execution lifecycle: easy bounds and a library sort.
- The profile rows written beside a resume: they live and die with its row.
- Object expiry of the mapper after a rollback, and event-loop scheduling below the granularity of an `await`.
- Column widths and the 32-bit range of integer columns; the one clock shared by application and database.
- Statement timeouts: a commit waiting for a row lock either waits on or fails.
- The order of cleanup rows with equal due times: the primary key stands for the random one.
- Timestamps of legacy rows other than the two columns a touch writes, and the title and company columns, which the two tables merge by different rules.
- Deadlocks between ingestion transactions that lock several identities in different orders.
- Concurrency of catalog operations beyond the sources, jobs and activity flags of `IngestRaces` and `SweepRaces`: merged content, timestamps, candidate searches and the legacy table are modelled one operation after the other.
- A listing that fails after its job was stored and before its source was: its savepoint undoes both, as if it had not begun.
- IpRules.IpSecurityService.CreateRule: does not model the integrity error of a commit, because the advisory lock and the proved distinctness leave it no occasion.
