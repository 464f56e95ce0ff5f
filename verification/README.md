# Verification of the khrazhevnik engine layer

khrazhevnik is a caching proxy and mirror for Linux package repositories. This project models its engine
layer in Dafny 4.11 and proves what the layer promises: that the two stores of the pull-through cache stay
consistent in every interleaving, that resumption, quotas, eviction, access accounting, session revocation
and the shared claim table of background tasks do what they are for, and that the Range header and the
remote table format are read and written without loss.

Run `dafny verify dfyconfig.toml` to check everything.

## How the model is built

Each engine appears twice. A state machine over values (`State`, `Label`, `Enabled`, `Step`) takes one atomic
step at a time: one access to a store, one section under a mutex, one channel operation. Its invariants hold
after every step, so they hold in every interleaving and on every failure path. Lemmas on the data themselves
(times, sizes, status codes, characters) say what the functions in which the steps are written mean, and
concrete values where a format is fixed. A class with the engine's own fields then carries the methods of the
source, each proved equal to its step; methods that are interrupted (`Fetch`, `Upload`, `Flush`,
`DrainBackgroundDeletes`, the wait for another caller's flight) receive the steps of everybody else as a
parameter, so their contracts hold whatever others do in between. The cache and the publish engine also keep the
run so far in a ghost field: what a call did is stated about the steps that it has added, and every one of them
is its own or one of those that others had in store.

Environment, clock and randomness are parameters: every store access has a fault flag, upstream is an
arbitrary response (status, validators, announced length, body, cut off or not), the clock is read wherever
the source reads it, and map iteration in Go is an arbitrary choice of elements. Hash functions, the HTTP
date parser, `time.Duration` text, the proxy URL check and the ecosystem's classifier and family resolver are
uninterpreted functions.

| module | what it models |
|---|---|
| `Text`, `Sums` | the Go string functions that are called, the order of strings, sums over sets |
| `VersionedKeys` | storage keys of versions and the filter that recognises them |
| `CacheModel`, `CacheRuns` | the cache as a state machine: flights, index, blobs, negative cache, deletions; runs and restarts |
| `CacheEngine` | Fetch, FetchMeta and Prefetch among other callers |
| `BackgroundDeletes` | the counter and the idle channel of background deletions, and the drain at shutdown |
| `TaskRegistry`, `BackgroundTask` | the claim table, the semaphore, the history cap; a task's state and log |
| `Backoff`, `Scheduler`, `PlannedSync` | the pause of a dying runner; reconcile and the life of runners; one tick |
| `Publish`, `PublishEngine` | uploads, quota and commit |
| `EvictionOrder`, `Eviction`, `EvictionEngine` | the retention rule, and the pass that applies it |
| `AccessKeeper` | batched access accounting |
| `Sessions` | issue, validation and revocation of sessions |
| `MirrorDiff`, `MirrorResume`, `MirrorPool`, `Mirror` | the diff, resume over the cache, the worker pool, retries, bandwidth, job records |
| `ByteRanges`, `RangeServing` | the Range header, If-Range, multipart lengths |
| `RemoteFormat` | the line format of exported remotes |

## What turned out not to hold

The code is modelled as it is; where a promise fails the project proves when it holds.

- At its ceiling the pause of a runner does not depend on the time that has passed: with the production tick
  seven deaths in a row leave a mirror without a runner for good, as long as reconcile keeps wanting it
  (`Backoff.PauseEndsUnlessCapped`, `Backoff.SevenDeaths`, `Scheduler.CeilingIsForGood`), and
  `Scheduler.GivenUpHappens` is a run that gets there.
- Deleting an object while its replacement is between stat and second check lets a single upload exceed the
  byte quota: `Publish.StaleCheck` says exactly when, `Publish.QuotaBroken` takes 10 bytes to 14, and
  `Publish.QuotaUnderDeletions` bounds the excess.
- A multipart response announces a wrong length exactly when some slice does not open; with a sound medium
  that is a suffix of zero bytes or an empty object (`RangeServing.ServeMultipart`, `EmptySliceIsZeroSuffix`),
  as in `bytes=0-0,-0` (`ZeroSuffixBreaksLength`).
- A version key need not be unique across runs: two nonces collide if and only if one printed nonce continues
  the other with a digit that is not 0 (`VersionedKeys.CollisionExactly`; 1 and 37 do, 1 and 72 do not).
- Batched accounting reads times before the epoch as zero (`AccessKeeper.ClampingShows`, `BatchedIsDirect`).
- A validation that reads the expiry before a token expires and asks the store after its revocation has
  expired too still accepts the token. The revocation outlives the token, so the window begins only then
  (`Sessions.RevokedNeverAccepted`, exact by `AcceptedExactly`, and met by `AcceptedAfterRevocation`).
- A version can be left behind for good: a flight whose double check fails to read the index replaces a record
  it does not know of, and nothing deletes the old version. `CacheRuns.ReplacedForgottenExactly` says when,
  and `VersionsNeverForgotten` that nothing but that and a failed deletion does it within a run.
- A diff reads the index and then the storage: a path whose version is replaced and deleted in between is
  fetched again although it is there (`MirrorResume.SettledIsSelected`).
- `mirror.go:58-59` documents an error threshold of 0 as "any number of errors is tolerable"; the constructor
  (lines 127-129) turns every value that is not positive into five per cent. The model follows the code.

## Model

| member | source | states |
|---|---|---|
| `VersionedKeys.VersionedKeyInjective` | internal/core/engine/cache/engine.go:937-941 | version keys determine run, logical key and write number when nonces print equally long |
| `VersionedKeys.CollisionExactly` | internal/core/engine/cache/engine.go:937-941 | two runs with different nonces can build a common version key if and only if one printed nonce continues the other with a digit that is not 0 |
| `VersionedKeys.CollisionExamples` | internal/core/engine/cache/engine.go:937-941 | nonces that print equally long never collide; 1 and 37 do; 1 and 72 do not, though their lengths differ |
| `VersionedKeys.FilterRecognisesVersions` | internal/core/engine/eviction/eviction.go:86-92 | the eviction filter matches an engine-written version key if and only if nonce and number print at least 11 digits |
| `CacheModel.NonceKeysDistinct` | internal/core/engine/cache/engine.go:937-941 | within one run the machine's assumption on version keys is met by versionedKey |
| `CacheModel.CopyBodyAccepts` | internal/core/engine/cache/engine.go:821-866 | a body passes exactly when complete, within the limit, of the declared length and of the indexed checksum, and is stored byte for byte |
| `CacheModel.CopyBodyBlames` | internal/core/engine/cache/engine.go:840-866 | a body that is refused is blamed on the medium exactly when that failed, is too large exactly when complete beyond the limit, and is otherwise upstream's fault: broken off, of the wrong length, or of the wrong checksum |
| `CacheModel.KnownAlgos` | internal/core/engine/cache/engine.go:784-795 | sha256, sha-256, sha1, sha-1 and md5 are verified, in any case; other names are not |
| `CacheModel.AnswerLearns` | internal/core/engine/cache/engine.go:637-648 | a 404 is remembered for NegativeTTL404, a 5xx for NegativeTTL5xx, if positive, and no other answer is; at ten thousand entries one other gives way |
| `CacheModel.StoreLearns` | internal/core/engine/cache/engine.go:667-680 | of the failed transfers exactly those of a wrong checksum are remembered |
| `CacheModel.AnswerKeepsInv` | internal/core/engine/cache/engine.go:614-660 | every answer of upstream (304, 404, 5xx, other, too large, 2xx) keeps index and blobs consistent |
| `CacheModel.StoreKeepsInv` | internal/core/engine/cache/engine.go:660-680 | a failed put, copy or commit and a successful commit keep index and blobs consistent |
| `CacheModel.RecordKeepsInv` | internal/core/engine/cache/engine.go:620-636 | the index write, failing or not, keeps the invariant, with the replaced or the orphaned version queued for deletion |
| `CacheModel.DeleteKeepsInv` | internal/core/engine/cache/engine.go:974-990 | running a queued deletion, failing or not, never takes the bytes of a record or of a flight |
| `CacheModel.EvictKeepsInv` | internal/core/engine/eviction/eviction.go:369-382 | removing an immutable object from outside disturbs no record and no flight |
| `CacheModel.StepKeepsInv` | internal/core/engine/cache/engine.go:549-716 | every atomic step of every flight, deleter and evicter keeps the invariant |
| `CacheModel.IndexAlwaysBacked` | internal/core/engine/cache/engine.go:693-706 | in every state of every run each index record names a stored blob of exactly the recorded size and no queued deletion names it |
| `CacheRuns.OnlyIndexWritesTouchIndex` | internal/core/engine/cache/engine.go:600-716 | no step but a flight's index write changes the index |
| `CacheRuns.FailedFlightLeavesRecord` | internal/core/engine/cache/engine.go:549-567 | along every run, whatever others do, the record of a key whose flight is under way is the one from its beginning, unless the flight has ended well, and then it is the one that the flight reports: a failed fetch loses nothing |
| `CacheRuns.RecordedBytesNeverChange` | internal/core/engine/cache/engine.go:937-968 | whoever has read a record finds under its storage key the recorded bytes or nothing, in every later state |
| `CacheRuns.ImmutableCommittedOnce` | internal/core/engine/cache/engine.go:707-715 | with a reliable double check and no external deletion each immutable object is committed at most once, so the package counter is the number of distinct objects |
| `CacheRuns.KnownStays` | internal/core/engine/cache/engine.go:943-968 | without evictions nothing that was recorded or stored is ever lost |
| `CacheRuns.BytesStayUnlessDeleted` | internal/core/engine/cache/engine.go:953-990 | the bytes of a record that was read at one state can be found at a later one if and only if no deletion of them was carried out in between |
| `CacheRuns.VersionsNeverForgotten` | internal/core/engine/cache/engine.go:693-706 | as long as deletions succeed and flights can read the record they replace, every stored version is named by a record, about to be recorded or queued for deletion, in every state of every run |
| `CacheRuns.ReplacedForgottenExactly` | internal/core/engine/cache/engine.go:549-560 | a new version leaves the replaced one behind with nobody to delete it exactly if its flight knew of no record |
| `CacheRuns.CrashLeavesSoundStart` | internal/core/engine/cache/engine.go:106-109 | a process killed in any state leaves stores from which a successor starts soundly, if its nonce is new and does not collide with an earlier one in the sense of CollisionExactly |
| `CacheEngine.StepRelies` | internal/core/engine/cache/engine.go:516-518 | while a flight runs, no step of others moves it, its key's record or the blob it has stored |
| `CacheEngine.NeverMasked` | internal/core/engine/cache/engine.go:582-597 | a call whose flight ended in a 404, its own or one that it joined, or that met a remembered 404, reports it as such, whatever copy is at hand |
| `CacheEngine.NotFoundServed` | internal/core/engine/cache/engine.go:637-642 | a call that ran its flight answers an upstream 404 with NotFound unless the double check found a fresh record |
| `CacheEngine.UpstreamBlamed` | internal/core/engine/cache/engine.go:614-680 | a failed flight blames upstream exactly when there is no answer, a status that is neither 2xx, 404 nor a 304 on a record, or a body that breaks off or is of the wrong length or checksum while the medium works |
| `CacheEngine.HitAlone` | internal/core/engine/cache/engine.go:491-502 | undisturbed, a record without expiry or before it is served at once, and one at or past it is not |
| `CacheEngine.RememberedAlone` | internal/core/engine/cache/engine.go:503-511 | undisturbed, a remembered error is answered without asking upstream, or by the copy at hand if upstream was to blame |
| `CacheEngine.StaleAlone` | internal/core/engine/cache/engine.go:512-525 | undisturbed, a failed fetch is answered with the old copy exactly if upstream is to blame, the configuration says so and there is one, otherwise with its error |
| `CacheEngine.StatusAlone` | internal/core/engine/cache/engine.go:637-648 | undisturbed, a 5xx leads to the old copy and a 404 never does |
| `CacheEngine.SuccessAlone` | internal/core/engine/cache/engine.go:526-542 | undisturbed, a 304 serves the prolonged record as HIT, and an accepted body the new version and its bytes as MISS |
| `CacheEngine.Engine.NegativeError` | internal/core/engine/cache/engine.go:1025-1034 | a remembered error is returned exactly until its time |
| `CacheEngine.Engine.FetchOnce` | internal/core/engine/cache/engine.go:600-717 | with others running between its steps, fetchOnce succeeds exactly with a 304 on a record or an accepted 2xx body and working stores, and ends as a prolonged record, a new accepted version or a failure that leaves the entry alone and whose error is told by response and faults, case by case |
| `CacheEngine.Engine.Fly` | internal/core/engine/cache/engine.go:549-565 | the call adds its own flight to the run, from its first to its last step: fresh exactly if the double check finds it so, prolonged, replaced with the old version queued but readable, or failed with the record as it was before the call, NotFound exactly for a 404 |
| `CacheEngine.Engine.Join` | internal/core/engine/cache/engine.go:516-518 | a second caller of the same key gets the outcome in which the flight under way ends |
| `CacheEngine.Engine.ServeStale` | internal/core/engine/cache/engine.go:586-597 | a stale copy is served only if configured, for an upstream failure, and with readable bytes |
| `CacheEngine.Engine.FetchMutableMeta` | internal/core/engine/cache/engine.go:491-542 | total outcome over the steps that the call adds to the run, each its own or one of others: HIT is unexpired or prolonged, MISS is a newly recorded accepted version, STALE is an allowed copy, a refusal is a remembered error, the flight's error as response and faults tell it, or a failed last look-up with its own error; undisturbed it answers as HitAlone, RememberedAlone, StaleAlone and SuccessAlone say |
| `CacheEngine.Engine.ServeReloaded` | internal/core/engine/cache/engine.go:569-580 | after a flight with nothing to do the current record is served if its bytes are there |
| `CacheEngine.Engine.FetchImmutableMeta` | internal/core/engine/cache/engine.go:433-463 | an immutable object is served only if stored; a refusal is a remembered error, exactly if there was one, the error of a flight of this run or a failed last look-up |
| `CacheEngine.Engine.Prefetch` | internal/core/engine/cache/engine.go:205-320 | whatever is reported as warm or downloaded was known to the cache at a state of the call, with as many bytes as its record says; the rest names the flight's or the remembered error |
| `BackgroundDeletes.CountersExact` | internal/core/engine/cache/engine.go:953-990 | in every interleaving the counter is requested minus finished, at most four deletions run, and each channel is closed exactly once per busy period, panics included |
| `BackgroundDeletes.DeletersProgress` | internal/core/engine/cache/engine.go:964-990 | while a deletion is pending some deleter can move, and every move brings the end nearer |
| `BackgroundDeletes.Deleter.Drain` | internal/core/engine/cache/engine.go:995-1011 | the drain only waits; it returns nil only with nothing pending, and gives up only at the end of the context, with something pending or in a race with it |
| `TaskRegistry.KeyDeterminesTask` | internal/core/web/taskregistry.go:297 | the joined key determines kind and label as kinds contain no separator |
| `TaskRegistry.OldestFinished` | internal/core/web/taskregistry.go:360-369 | the scan finds the finished task that comes first by start and id |
| `TaskRegistry.EvictHistory` | internal/core/web/taskregistry.go:358-377 | the history keeps every running task and drops the oldest finished ones, no more than the cap requires |
| `TaskRegistry.RetainedMeans` | internal/core/web/taskregistry.go:358-377 | beyond a thousand tasks exactly a thousand stay, or only running ones, and no dropped task started after a finished one that stays |
| `TaskRegistry.OlderMeans` | internal/core/web/taskregistry.go:360-369 | older is started earlier, or at the same time with the smaller id |
| `TaskRegistry.StepKeepsInv` | internal/core/web/taskregistry.go:295-406 | starts, claims, releases and ends keep the tables exact |
| `TaskRegistry.RegistrySafe` | internal/core/web/taskregistry.go:295-406 | a key has at most one holder, no more functions run than workers, and a running task keeps its key busy |
| `TaskRegistry.SyncsNeverOverlap` | internal/core/engine/mirror/scheduler.go:366-393 | a planned tick that holds its claim overlaps with no manual sync and no other tick of the same remote name |
| `TaskRegistry.RefusedExactly` | internal/core/web/taskregistry.go:297-311 | a start or claim is refused as a duplicate exactly when the key has a holder, and then changes nothing; a start meets the limit exactly when the key is free and as many functions as workers own a slot |
| `TaskRegistry.Registry.Start` | internal/core/web/taskregistry.go:295-327 | start enters all tables at once or answers duplicate or limit |
| `TaskRegistry.Registry.Claim` | internal/core/web/taskregistry.go:334-346 | a claim is granted exactly when the key is free |
| `BackgroundTask.Task.AppendLog` | internal/core/web/taskregistry.go:217-222 | the log is the last fifty of all lines ever written |
| `BackgroundTask.Task.Update` | internal/core/web/taskregistry.go:158-180 | a finished task is not moved; a progress line is written exactly when half a second has passed since the last |
| `BackgroundTask.Task.Finish` | internal/core/web/taskregistry.go:190-214 | the first final state stays |
| `BackgroundTask.Task.Conclude` | internal/core/web/taskregistry.go:395-422 | a task succeeds exactly when its function returns without error or panic |
| `Backoff.BackoffLeft` | internal/core/engine/mirror/scheduler.go:209-229 | the loop computes the pause: zero up to one death, the doubled tick less the elapsed time below the ceiling, the ceiling at it |
| `Backoff.LeftMonotone` | internal/core/engine/mirror/scheduler.go:206-229 | more deaths never shorten the pause |
| `Backoff.PauseEndsUnlessCapped` | internal/core/engine/mirror/scheduler.go:217-218 | the pause ends with time if and only if the ceiling was not reached |
| `Backoff.SevenDeaths` | internal/core/engine/mirror/scheduler.go:41-45 | with the production tick the ceiling is reached at seven deaths |
| `Backoff.PauseDoubles` | internal/core/engine/mirror/scheduler.go:206-229 | no pause after the first death, a tick after the second, and twice as much after each further one up to ten minutes |
| `Backoff.PauseRunsOut` | internal/core/engine/mirror/scheduler.go:220-229 | below the ceiling the time since the last death is taken off the pause, and without a recorded death nothing is left |
| `Backoff.ProductionPauses` | internal/core/engine/mirror/scheduler.go:41-45 | in production the pauses are 30 s, 1, 2, 4, 8 and 10 minutes |
| `Scheduler.StepKeepsInv` | internal/core/engine/mirror/scheduler.go:148-276 | every step of reconcile and of runners keeps the runner table sound |
| `Scheduler.AtMostOneRunner` | internal/core/engine/mirror/scheduler.go:148-259 | in every run no remote has two runners that are not done |
| `Scheduler.SuccessorKept` | internal/core/engine/mirror/scheduler.go:253-259 | a forgotten runner never takes its successor out of the table |
| `Scheduler.ReconcileResult` | internal/core/engine/mirror/scheduler.go:148-204 | after an undisturbed round the remotes with a runner are exactly the wanted ones that had one or have no pause left, and deaths of others are forgotten |
| `Scheduler.DeathsPaired` | internal/core/engine/mirror/scheduler.go:170-185 | the two maps of deaths always have the same keys |
| `Scheduler.CeilingIsForGood` | internal/core/engine/mirror/scheduler.go:186-194 | a remote at the ceiling that stays wanted never gets a runner again |
| `Scheduler.GivenUpHappens` | internal/core/engine/mirror/scheduler.go:186-229 | with the production tick a run of seven deaths ten minutes apart leads from the start to a remote that is given up |
| `Scheduler.BelowCeilingRestarts` | internal/core/engine/mirror/scheduler.go:186-229 | ten minutes after the last death reconcile starts a wanted remote exactly when it is below the ceiling |
| `Scheduler.HealthStartsOver` | internal/core/engine/mirror/scheduler.go:262-276 | a finished sync makes up for all deaths: after it, and after one more death, there is no pause |
| `Scheduler.Scheduler.PlanLocked` | internal/core/engine/mirror/scheduler.go:163-195 | the four passes under the mutex |
| `PlannedSync.Tick` | internal/core/engine/mirror/scheduler.go:352-393 | a tick wants an enabled mirror with an interval, dies only of the store and skips a busy remote without counting it as healthy; while others start, claim and end tasks its claim is held, and by nobody else, in every state from its grant to its release, which comes last however the synchronisation ended and leaves the key free |
| `Publish.StepKeepsInv` | internal/core/engine/publish/publish.go:91-145 | one upload per key, and what stat found missing stays missing until the commit |
| `Publish.NeverReplacedSilently` | internal/core/engine/publish/publish.go:106-119 | in no run does an upload without force change an existing object |
| `Publish.QuotaHolds` | internal/core/engine/publish/publish.go:120-139 | with k uploads at a time at most k - 1 largest objects lie beyond the byte quota and k - 1 objects beyond the object quota; exact for one |
| `Publish.QuotaUnderDeletions` | internal/core/engine/publish/publish.go:120-139 | with arbitrary deletions at most k largest objects lie beyond the byte quota and k objects beyond the object quota |
| `Publish.NewObjectCheck` | internal/core/engine/publish/publish.go:276-301 | a new object passes exactly when bytes and number of objects with it are within the quotas, where set |
| `Publish.ReplacementCheck` | internal/core/engine/publish/publish.go:289-300 | a replacement passes exactly when the bytes with the new and without the old object and the number of objects are within the quotas |
| `Publish.StaleCheck` | internal/core/engine/publish/publish.go:276-301 | when exactly the quota check passes a replacement whose old object has been deleted since stat |
| `Publish.DeletionUnderReplacement` | internal/core/engine/publish/publish.go:113-139 | whenever that condition holds there is a run of a single upload that commits the replacement, and how much the repository then holds |
| `Publish.QuotaBroken` | internal/core/engine/publish/publish.go:113-139 | such a run takes a full repository of 10 bytes to 14 |
| `PublishEngine.AdmittedExactly` | internal/core/engine/publish/publish.go:91-145 | with a working medium an undisturbed upload of its declared size succeeds exactly if it is not too large, nobody else uploads the key, what is there may be replaced, and both sums are within the quotas |
| `PublishEngine.Engine.Used` | internal/core/engine/publish/publish.go:280-288 | the listing loop sums sizes and counts objects in any order and fails closed |
| `PublishEngine.Engine.CheckQuota` | internal/core/engine/publish/publish.go:276-301 | the check passes exactly when both sums with the new and without the replaced object are within their limits, and tells a failed listing from an exceeded quota |
| `PublishEngine.Engine.AcquireInFlight` | internal/core/engine/publish/publish.go:103-111 | one upload per key, declared size within the limit, each with its error |
| `PublishEngine.Engine.StatExisting` | internal/core/engine/publish/publish.go:113-119 | conflict exactly for an existing object without force; a failing medium is no absence |
| `PublishEngine.Engine.CopyBody` | internal/core/engine/publish/publish.go:305-321 | a body that is too large or of another length is aborted, each with its error |
| `PublishEngine.Engine.Upload` | internal/core/engine/publish/publish.go:91-145 | among others' steps a successful upload ends with its commit, which replaces only its key, without force only an absent one; a refused one commits nothing; undisturbed it answers with the error of the first guard that refuses, in the order of the guards, and otherwise adds its object and leaves every other alone |
| `EvictionOrder.SortSorts` | internal/core/engine/eviction/eviction.go:308-313 | sorting yields the same versions, in descending order of their times, ties by ascending key |
| `EvictionOrder.PositionIsRank` | internal/core/engine/eviction/eviction.go:308-317 | a version's position is the number of members of its family that are newer, or equally old with a smaller key, whatever the listing order |
| `Eviction.EngineVersionsSpared` | internal/core/engine/eviction/eviction.go:241-246 | the bytes of a record written by the cache engine never take part in a pass |
| `Eviction.FamilyMeans` | internal/core/engine/eviction/eviction.go:241-256 | a path is left out exactly when it ends in -v and at least eleven digits or is a retained marker; the resolver decides on every other |
| `Eviction.SelectionMeans` | internal/core/engine/eviction/eviction.go:305-345 | a version is chosen exactly if at least MinVersions of its family are newer, or equally old with a smaller key, and its last access, or else its upload, lies more than MaxAgeDays back, where set |
| `Eviction.SecondPassSelectsNothing` | internal/core/engine/eviction/eviction.go:212-269 | a second pass at the same time selects nothing |
| `Eviction.MinimumSurvives` | internal/core/engine/eviction/eviction.go:314-328 | of n versions at least min(MinVersions, n) survive |
| `EvictionEngine.Sweep.DeleteKey` | internal/core/engine/eviction/eviction.go:369-382 | a missing key is no failure, a refused one is counted, and only real deletions free bytes |
| `EvictionEngine.Sweep.Group` | internal/core/engine/eviction/eviction.go:231-257 | families are the listed objects with the same family, in the order of the places where each appears first |
| `EvictionEngine.Sweep.SweepFamily` | internal/core/engine/eviction/eviction.go:305-363 | a family loses exactly the versions with at least MinVersions newer members, or equally old ones with a smaller key, that have not been used for MaxAgeDays; an access state that cannot be read ends the pass exactly when the policy has to look at it |
| `EvictionEngine.Sweep.Apply` | internal/core/engine/eviction/eviction.go:183-269 | a pass chooses exactly the policy's selection in terms of times, keys and days, dry or not; deleted, freed bytes and failed deletions are those of the chosen versions that were stored or refused; its three counters account for every object of a family; and it fails exactly on the listing, a missing resolver or an unreadable access state |
| `AccessKeeper.CutJoin` | internal/core/engine/accesskeeper/keeper.go:46-49 | the composite key gives scope and key back if and only if the scope has no separator |
| `AccessKeeper.OfMeans` | internal/testutil/catalog.go:685-708 | merging one by one counts the accesses and keeps the latest time |
| `AccessKeeper.ClampingShows` | internal/core/engine/accesskeeper/keeper.go:100-104 | batched and direct times agree exactly when the latest access is not before the epoch |
| `AccessKeeper.HitsConserved` | internal/core/engine/accesskeeper/keeper.go:107-141 | stored, batched, pending and lost hits always add up to the accepted accesses |
| `AccessKeeper.BatchedIsDirect` | internal/core/engine/accesskeeper/keeper.go:90-141 | flushed without loss, the store equals what it held at the start with every access merged directly, if and only if the latest time is not before the epoch |
| `AccessKeeper.Keeper.FlushedIsDirect` | internal/core/engine/accesskeeper/keeper.go:107-141 | the same of a keeper with nothing pending, in flight or lost |
| `AccessKeeper.Keeper.Record` | internal/core/engine/accesskeeper/keeper.go:90-105 | an access is accepted unless it needs a key beyond the cap |
| `AccessKeeper.Keeper.Swap` | internal/core/engine/accesskeeper/keeper.go:114-125 | the swap moves everything pending into one batch |
| `AccessKeeper.Keeper.Rows` | internal/core/engine/accesskeeper/keeper.go:127-139 | the rows say about every object what the batch says |
| `AccessKeeper.Keeper.MergeAccess` | internal/testutil/catalog.go:685-708 | hits add up and the later time wins |
| `AccessKeeper.Keeper.Flush` | internal/core/engine/accesskeeper/keeper.go:114-141 | a flush merges exactly the pending batch or loses exactly it, while the accesses recorded meanwhile are accepted as the cap has it and the others counted as dropped |
| `Sessions.StepKeepsInv` | internal/core/engine/auth/auth.go:336-472 | expiry, revocations, versions and the memory cap stay sound at every step |
| `Sessions.RevokedNeverAccepted` | internal/core/engine/auth/auth.go:412-424 | after a successful revocation a token of the session is accepted only by a validation that looks at the expiry before the token expires and asks the store after the revocation has expired, across restarts, evictions and purges |
| `Sessions.AcceptedExactly` | internal/core/engine/auth/auth.go:347-401 | right after the revocation that bound is exact, for the map in memory and for the store |
| `Sessions.AcceptedAfterRevocation` | internal/core/engine/auth/auth.go:347-401 | a run and times at which a revoked session is accepted |
| `Sessions.FailedRevokeStillCounts` | internal/core/engine/auth/auth.go:403-424 | a revocation that could not be stored still holds in the process |
| `Sessions.AcceptedUntilExpiry` | internal/core/engine/auth/auth.go:336-401 | an issued session with a jti that nobody revoked is accepted at every later state of the run exactly until it expires, as long as nobody revokes it and its user stays with the version, whatever else happens |
| `Sessions.AcceptsMeans` | internal/core/engine/auth/auth.go:347-401 | acceptance on expiry, user, version and the two maps |
| `Sessions.Service.IssueAndValidate` | internal/core/engine/auth/auth.go:336-401 | a session is good as soon as it is issued and until its expiry |
| `Sessions.BumpEndsSessions` | internal/core/engine/auth/auth.go:464-472 | after the version is raised no earlier token is accepted |
| `Sessions.Service.IssueSession` | internal/core/engine/auth/auth.go:336-344 | the expiry is the whole second at or before now plus the lifetime |
| `Sessions.Service.InsertRevocation` | internal/testutil/catalog.go:278-288 | an insert keeps exactly what has not expired and adds the entry |
| `Sessions.Service.RememberRevoked` | internal/core/engine/auth/auth.go:429-447 | the map holds the new entry, only unexpired old ones, all of them unless the cap is reached, and never exceeds it |
| `Sessions.Service.RevokeSession` | internal/core/engine/auth/auth.go:412-424 | it reports success exactly when the store took the revocation, and remembers it either way |
| `Sessions.Service.CheckMemory` | internal/core/engine/auth/auth.go:450-462 | an entry revokes until its time; an expired one is dropped and an absent one revokes nothing |
| `Sessions.Service.ValidateSession` | internal/core/engine/auth/auth.go:347-401 | accepted exactly when before the expiry, of an existing user's current version, and in neither map with a time that has not passed; store faults refuse |
| `Sessions.Service.InvalidateUserSessions` | internal/core/engine/auth/auth.go:465-472 | the version of an existing user grows by one |
| `MirrorDiff.Compare` | internal/core/engine/mirror/mirror.go:446-485 | one pass selects in order exactly the paths whose object is missing, unrecorded, expired or cannot be found, counts the unresolvable, and aborts exactly if the index cannot be read for a mutable path |
| `MirrorDiff.EmptyStores` | internal/core/engine/mirror/mirror.go:446-485 | over empty stores every path that resolves is to be fetched |
| `MirrorDiff.DiffPartitions` | internal/core/engine/mirror/mirror.go:430-485 | skipped, present and to-sync paths are all paths |
| `MirrorDiff.SelectInOrder` | internal/core/engine/mirror/mirror.go:446-485 | the selected paths are exactly those of that status, in the order of the enumeration |
| `MirrorResume.SettledIsSelected` | internal/core/engine/mirror/mirror.go:446-485 | a path whose object became known earlier in the run is selected if and only if its record has expired or its version was deleted between the two questions of the diff |
| `MirrorResume.PrefetchPath` | internal/core/engine/mirror/mirror.go:407-428 | attempts stop at an answer that is final or at the limit; one that went through left the object known at a state of the run |
| `MirrorResume.Synchronise` | internal/core/engine/mirror/mirror.go:226-248 | after a diff and its download every path found present or fetched without failure is known at a state of the run |
| `MirrorResume.Resume` | internal/core/engine/mirror/mirror.go:438-485 | a later pass over known paths, unless one is evicted, selects exactly the expired and the just replaced ones |
| `MirrorResume.SyncTwice` | internal/core/engine/mirror/mirror.go:430-485 | two synchronisations in a row: if every fetch went through and nothing was evicted, the second diff is empty if and only if no record has expired and none is just being replaced |
| `MirrorPool.StepKeepsInv` | internal/core/engine/mirror/mirror.go:283-383 | every path handed out is in one hand or reported once |
| `MirrorPool.EachPathOnce` | internal/core/engine/mirror/mirror.go:283-347 | an uncancelled download reports every path exactly once, a cancelled one those handed out |
| `MirrorPool.PoolProgress` | internal/core/engine/mirror/mirror.go:292-311 | until all workers have returned somebody can move, and every move is towards the end |
| `MirrorPool.Collect` | internal/core/engine/mirror/mirror.go:313-343 | done and failed add up to the reports, stale is part of done, bytes are those of everything delivered, and the first hundred errors are kept in order |
| `Mirror.PrefetchWithRetry` | internal/core/engine/mirror/mirror.go:407-428 | at most RetryMax + 1 attempts, stopping at the first final answer or at a cancellation |
| `Mirror.Throttle` | internal/core/engine/mirror/mirror.go:153-168 | all bytes are paid in portions of the burst and a last smaller one, or the failing portion ends it |
| `Mirror.FivePerCent` | internal/core/engine/mirror/mirror.go:261 | the default threshold is exceeded exactly when more than one path in twenty failed |
| `Mirror.Engine.StartJob` | internal/core/engine/mirror/sync.go:36-65 | the remote's record is running and no other has changed |
| `Mirror.Engine.Sync` | internal/core/engine/mirror/mirror.go:186-271 | a started job ends succeeded or failed unless the last write fails; it fails in the diff exactly on a cancellation or an unreadable index, has nothing to do exactly if no path is missing, unrecorded or expired, and succeeds exactly then or when the run was uncancelled and within the threshold |
| `Mirror.Engine.RecoverInterruptedJobs` | internal/core/engine/mirror/sync.go:86-103 | after recovery no job runs and no other record has changed; it fails only if the listing or a write does |
| `ByteRanges.ParseElement` | internal/core/web/range.go:370-416 | one element is rejected, skipped or turned into exactly the bytes it selects, with positions and lengths in numbers |
| `ByteRanges.ElementForms` | internal/core/web/range.go:370-416 | a-b, a- and -n are read as interval, open interval and suffix, for all 64-bit positions; b before a and elements without numbers are told apart |
| `ByteRanges.ParseByteRanges` | internal/core/web/range.go:359-422 | ranges are the byte sets of the kept elements in header order; no-overlap exactly when elements exist and all start past the end |
| `RangeServing.Decide` | internal/core/web/range.go:60-132 | full, unsatisfiable, single or multipart as the header, If-Range and the size demand |
| `RangeServing.IfRangeMeans` | internal/core/web/range.go:169-186 | a tag must be the current one character for character, a date must name the second of the last change, and without If-Range the range applies |
| `RangeServing.ContentRangeNamesBytes` | internal/core/web/range.go:347-349 | the positions of a Content-Range, asked for in a Range header, select exactly the part's bytes |
| `RangeServing.ContentRangeExample` | internal/core/web/range.go:347-349 | the first 500 of 1234 bytes are announced as bytes 0-499/1234 |
| `RangeServing.DeclaredLength` | internal/core/web/range.go:225-231 | the announced length is the closing boundary plus every framed part |
| `RangeServing.WritePart` | internal/core/web/range.go:277-303 | a part is head, bytes and line end, or nothing if its slice does not open |
| `RangeServing.PartExample` | internal/core/web/range.go:277-303 | one part, character for character |
| `RangeServing.WriteParts` | internal/core/web/range.go:250-262 | the part writer is called in order up to the first slice that does not open |
| `RangeServing.ServeMultipart` | internal/core/web/range.go:199-274 | the body has the announced length if and only if every slice opens |
| `RangeServing.EmptySliceIsZeroSuffix` | internal/core/web/range.go:381-394 | a parsed range is empty exactly for a zero suffix or an empty object |
| `RangeServing.ZeroSuffixBreaksLength` | internal/core/web/range.go:381-394 | bytes=0-0,-0 is taken for two ranges, of which the second never opens |
| `RemoteFormat.ParseRemoteInclude` | internal/core/domain/remotefmt.go:149-164 | the include field yields the trimmed non-empty items |
| `RemoteFormat.Columns` | internal/core/domain/remotefmt.go:166-185 | the columns of a printed line, in order |
| `RemoteFormat.LineMeans` | internal/core/domain/remotefmt.go:48-110 | a line of eight fields is read exactly if the first three are filled, mode and flag are admitted words, and proxy and interval can be read; every field then has its place |
| `RemoteFormat.OtherLines` | internal/core/domain/remotefmt.go:61-68 | a line of any other number of fields is refused |
| `RemoteFormat.PassedOver` | internal/core/domain/remotefmt.go:55-59 | blank lines and comments are passed over |
| `RemoteFormat.IncludeRoundTrip` | internal/core/domain/remotefmt.go:149-185 | an include list survives exactly when its items are non-empty, trimmed and comma-free |
| `RemoteFormat.FormatRemotes` | internal/core/domain/remotefmt.go:187-195 | the export is the header and one line per remote |
| `RemoteFormat.RoundTrip` | internal/core/domain/remotefmt.go:48-185 | parsing the printed line gives the portable remote back if and only if the remote is exportable |
| `RemoteFormat.FileRoundTrip` | internal/core/domain/remotefmt.go:187-195 | a whole exported file reads back as the list of its remotes |
| `Text.SplitJoin` | internal/core/domain/remotefmt.go:166-185 | splitting undoes joining on pieces without the separator |

## Left out

- Delivery: HTTP handlers, middleware, router, stall readers and writers, metrics, audit and log texts, and everything under web and bench.
- Stores: SQL and S3 drivers; the models of testutil (transactional writes, upserts, MAX/SUM merges) stand for the ports. A store write that fails but takes effect nevertheless is not modelled.
- Cache: the in-memory table of headers of immutable objects, the transaction history and the metrics counters other than the package count; conditional request headers; `Resolve` and `Classify` are the uninterpreted kind of a key.
- Cache: opening the body after the last Stat (`openObject`), which may still fail if the version is deleted in between; the immutable HIT of `Fetch` opens the body where the model asks Stat.
- Cache: a crash also forgets the queued deletions; `CacheRuns.VersionsNeverForgotten` is about one run.
- Cache: clearing the negative entry is part of the index write, while the source clears it just after the write returns.
- `CacheEngine.Engine.FetchMutableMeta`: a record reloaded after a flight that found nothing to do is served without a second look at its expiry, as in the source. Of a joined flight the caller knows the outcome and the run, not what the response was.
- Task registry: tasks are values in the registry's maps, with the state kept in `BackgroundTask.Task`; ids are assumed fresh; speed smoothing and snapshots.
- Scheduler: the timer, jitter and the shutdown of the whole scheduler.
- `PlannedSync.Tick`: others move the registry during a tick; reconcile and other runners, which may stop this one meanwhile, do so only in `Scheduler`.
- Publish: path and ecosystem checks before the in-flight set, reindexing (which writes index files under the same prefix outside the quota), several instances of the service; a listing sees one state of the repository.
- `Publish.QuotaHolds`: does not cover a deletion of a key whose replacement is between stat and second check, for which `Publish.QuotaUnderDeletions` gives the wider bound and `Publish.DeletionUnderReplacement` shows what happens.
- Eviction: cancellation between families, the semaphore of deletions, and the periodic runner; retention and storage sweeping are not part of this model.
- Access keeper: the ticker's life cycle; the reset of the dropped counter happens inside the swap.
- Sessions: password hashing, API tokens, scopes and audit; signatures are represented by the set of issued tokens.
- `Sessions.BumpEndsSessions`: raising a version is atomic here, while the source reads and writes the user in two calls, so that two concurrent raises may count once.
- `MirrorResume.SyncTwice`: both passes work on the same enumerated paths, and no cancellation falls into the download between them.
- Mirror: enumeration itself (and a panic inside it), the intermediate progress writes, the aggregation of error texts; the share of failures is compared over real numbers.
- Remote format: text encodings and line reading of the import handler beyond splitting at line breaks; duration and proxy URL syntax.
- Range serving: transport errors while a part is written, HEAD requests and the headers of single ranges.
