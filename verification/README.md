# Verified models of the core protocols

Dafny models of the parts of this NestJS library whose correctness depends on every interleaving or
every input, with proofs about them. `dafny verify dfyconfig.toml` checks the whole project.

| files | what they model |
|---|---|
| `UploadRows`, `UploadStatements`, `UploadProtocol`, `UploadSafety`, `UploadCompletion`, `UploadScenarios`, `UploadOutcomes` | the uploaded-file lifecycle as one state machine: every compare-and-swap statement, storage call, writer, deleter, completer and sweep, interleaved in any order, with lost replies, deaths and late commits |
| `RetrySweep` | one retry sweep as a mutable worker, its batch selection, and the progress of repeated sweeps |
| `PublicationCoordinator`, `PublicationProtocol`, `PublicationContract`, `PublicationEvidence`, `PublicationSafety`, `PublicationScenarios` | the publication coordinator call by call, over a reference repository and an unreliable object store |
| `JobOptions`, `JobLock`, `JobSafety`, `JobHeartbeats`, `JobScenarios` | the distributed job lock, statement by statement, with leases and heartbeats on the database clock |
| `Unicode`, `CacheEncoding`, `CacheScope`, `CacheFields` | JavaScript strings and UTF-8, the cache key encoding fed to the hash, and the security namespace of a key |
| `LruCache`, `LruHistory` | the in-process LRU cache with time to live |
| `Ooxml`, `OoxmlDirectory`, `OoxmlPolicy`, `OoxmlWriter` | the structural inspection of OOXML containers, and an independent ZIP writer |
| `Redaction`, `RedactionPaths`, `RedactionAcceptance` | the budgeted, redacting walk over an audit snapshot's object graph |
| `Filter`, `FilterSelection`, `Scope`, `ScopeSelection` | filter cleaning and compilation to three-valued SQL, and one tenancy scope as reads, mutations and creates see it |

How runs are modelled. In the three protocols a state machine has one step per statement, call or
reply. A statement that was sent may take effect once, at any later time, also after its author saw an
error or died; every lemma about runs quantifies over all step sequences. Code that updates variables, fields or
builders is a method or a class whose contract ties it to a specification function, and the promises
are lemmas about that function.

Assumptions. SHA-256 is collision-free, so a hash is its pre-image. A UUID is fresh, so an owner token
is named by the call that drew it. Distinct finite numbers print differently once -0 is kept apart.
The publication repository is the reference adapter used by
`src/features/uploaded-file/publication/coordinator.spec.ts`, which follows the contract at
`src/features/uploaded-file/publication/types.ts:64-103`. Filter validation is the identity on valid
trees, and an empty bracket compiles to a condition that is always true.

Where a promise does not hold as it stands:

- Stored bytes can become untracked when an operator retires a tombstone, or a forced claim clears the
  upload marker, before the writer's storage call has returned. `UploadSafety.StoredObjectsAreTracked`
  names this as the only way, and from every such state some continuation loses the bytes
  (`UploadScenarios.OvertakenWritesLoseBytes`).
- A completer whose marker `m` was replaced can finalize after all, through exactly two clock readings: a
  retry mark for the row made at `m + 1`, or another process's claim of the row made at the very reading
  behind `m`. Without either it never finalizes (`UploadCompletion.ReplacedCompleterFinalizesOnlyIf`), and
  each of them alone suffices, for every row and every marker (`UploadScenarios.RevivalIff`).
- A membership filter with `dataType: 'field'` and null data is kept by cleaning but compiles to nothing,
  so every OR group that holds one, or a group of nothing else, admits every row
  (`Filter.NullRefAdmitsEveryRow`). Where no OR group mixes such entries with others they are as good as
  absent (`Filter.NullishEntriesAreAbsent`); where one does, at any depth, the result differs exactly on the
  rows that the other entries do not admit and for which the enclosing groups let that decide
  (`Filter.NestedMixedOrDiffersIff`).
- A scoped column named `id` replaces the requested ids in a mutation, so a delete can remove a row that
  was not asked for (`Scope.ScopedIdDeletesAnotherRow`, and `Scope.KeepsToRequestedRowsIff` for the exact
  condition).
- Strings with lone surrogates share their UTF-8 form, hence their cache key
  (`CacheEncoding.StringsCollideIff`), and two tenants that differ only so share a namespace
  (`CacheScope.LoneSurrogatesShareANamespace`).

## Model

| member | source | states |
|---|---|---|
| `UploadRows.DoomIsForever` | src/features/uploaded-file/services/uploaded-file.service.ts:247-257 | no statement of the service takes a row whose deletion was claimed or finished back to an undeleted one |
| `UploadStatements.StatementsHitIff` | src/features/uploaded-file/services/uploaded-file.service.ts:336-429 | every statement hits a row exactly when it is as its author left or read it: its own marker or claim, the markers read, or no marker at all |
| `UploadStatements.CommitsLeave` | src/features/uploaded-file/services/uploaded-file.service.ts:336-436 | a commit changes exactly those rows and leaves each with the markers, status and source the statement is for; what rolls back together hits all or none |
| `UploadStatements.InsertsSaveOnce` | src/features/uploaded-file/services/uploaded-file.service.ts:1174-1217 | an insert saves its row unless the id is taken, and touches nothing else |
| `UploadSafety.StepKeepsInv` | src/features/uploaded-file/services/uploaded-file.service.ts:438-524 | every step of every writer, claimer, deleter, completer and late commit keeps the lifecycle invariant |
| `UploadSafety.StoredObjectsAreTracked` | src/features/uploaded-file/services/uploaded-file.service.ts:1174-1243 | in every run a stored legacy object belongs to a row that is active or carries a pending marker, unless a forced claim overtook its write |
| `UploadSafety.ActiveRowsAreServable` | src/features/uploaded-file/services/uploaded-file.service.ts:348-389 | every row with all three markers clear is ready and its object is in storage |
| `UploadSafety.DeletedRowsStayHidden` | src/features/uploaded-file/services/uploaded-file.service.ts:1666-1720 | once a row is marked deleted or deletion-pending, no continuation of any method clears all markers again |
| `UploadSafety.ReadyIsForever` | src/features/uploaded-file/services/uploaded-file.service.ts:797-941 | no statement moves a ready row to another status |
| `UploadCompletion.PromotionsNameOneSource` | src/features/uploaded-file/services/uploaded-file.service.ts:773-782 | on S3 all promotions ever issued for one row, by any completer, name the same source ETag |
| `UploadCompletion.BecomesReadyAtMostOnce` | src/features/uploaded-file/services/uploaded-file.service.ts:797-941 | along any run a row turns ready at most once |
| `UploadCompletion.ReplacedCompleterFinalizesOnlyIf` | src/features/uploaded-file/services/uploaded-file.service.ts:784-941 | whatever happens later, a process whose marker m was replaced gets a finalization in only if a retry mark for the row was made at reading m + 1 or another process claimed it at reading m - lease |
| `UploadCompletion.ReplacedCompleterNeverFinalizes` | src/features/uploaded-file/services/uploaded-file.service.ts:822-932 | in particular a completer at work whose marker was replaced never finalizes without one of these two clock readings |
| `UploadScenarios.RetryMarkRevives` | src/features/uploaded-file/services/uploaded-file.service.ts:784-791 | for every row and marker, the first of the two readings alone revives a replaced completer in a reachable run |
| `UploadScenarios.SecondClaimRevives` | src/features/uploaded-file/services/uploaded-file.service.ts:845-865 | for every row and marker, the second of the two readings alone lets in a finalization that a replaced process still has in flight, in a reachable run in which that process has already marked the row retryable and given up |
| `UploadScenarios.RevivalIff` | src/features/uploaded-file/services/uploaded-file.service.ts:784-941 | for every row and marker, a run in which a replaced completer finalizes exists with given answers to whether each reading was made if and only if one of them was |
| `UploadScenarios.OvertakenWritesLoseBytes` | src/features/uploaded-file/services/uploaded-file.service.ts:1974-2007 | from every reachable state in which a forced claim overtook a writer still inside its storage call, some continuation stores untracked bytes |
| `UploadScenarios.RetiringALiveWriterLosesBytes` | src/features/uploaded-file/services/uploaded-file.service.ts:1974-2007 | for every upload, retiring the tombstone of its live writer reaches a state with untracked bytes |
| `UploadOutcomes.LegacyUploadsCanSucceed` | src/features/uploaded-file/services/uploaded-file.service.ts:1174-1243 | every plain or temporary upload has a run after which its row is ready without a marker, its bytes are stored and its writer is done |
| `UploadOutcomes.FailedUploadsCanBeCleanedUp` | src/features/uploaded-file/services/uploaded-file.service.ts:438-524 | also if its bytes were already stored, an upload whose write, activation reply or cleanup reply fails has a run after which bytes and markers are gone |
| `UploadOutcomes.ServedUploadsCanBeDeleted` | src/features/uploaded-file/services/uploaded-file.service.ts:1695-1720 | a served upload whose last reference is dropped, that is deleted by id or whose time has come has a run that deletes its bytes and leaves a deleted row with nothing pending |
| `UploadOutcomes.DirectUploadsCanBeCompleted` | src/features/uploaded-file/services/uploaded-file.service.ts:797-941 | every direct upload can be completed by a claim at any clock reading |
| `UploadOutcomes.DirectUploadsCanBeWithdrawn` | src/features/uploaded-file/services/uploaded-file.service.ts:1002-1030 | a direct upload that nobody completed can be aborted by its owner or removed once expired, and ends failed and gone |
| `UploadOutcomes.WritersTakeBackOnlyAfterFailure` | src/features/uploaded-file/services/uploaded-file.service.ts:1210-1243 | in every run a writer sends a claim against its own upload only after its write failed, its activation missed the row, or the reply of the activation was lost |
| `UploadOutcomes.ProcessesStopOnlyIf` | src/features/uploaded-file/services/uploaded-file.service.ts:438-524 | in every run a writer, deleter or completer stops only when its work is done, the row was taken from it, or a reply was lost; it never just leaves a row behind |
| `UploadOutcomes.CompletersPromoteOnce` | src/features/uploaded-file/services/uploaded-file.service.ts:865-900 | along every run a completer promotes at most once, and only after it was told that the object is missing |
| `UploadOutcomes.TakeoversWaitForExpiry` | src/features/uploaded-file/services/uploaded-file.service.ts:822-862 | in every run a completion is taken over only once its marker has expired by the taker's clock: the marker moves on by a whole lease, and a known source is kept |
| `UploadOutcomes.StatementsMayCommitLate` | src/features/uploaded-file/services/uploaded-file.service.ts:438-502 | the model leaves nothing out: in every reachable state every statement in flight may still commit, whatever has become of its author |
| `UploadOutcomes.PromotionsMayLandLate` | src/features/uploaded-file/services/uploaded-file.service.ts:864-878 | a promotion that was started may store the object at any later moment, also after its author gave up |
| `UploadOutcomes.RepliesMayBeLost` | src/features/uploaded-file/services/uploaded-file.service.ts:438-502 | and every author may lose its reply instead |
| `RetrySweep.FindOrdered` | src/features/uploaded-file/services/uploaded-file.service.ts:1910-1932 | an ordered, limited query returns the smallest matching rows, each once |
| `RetrySweep.UnresolvedShares` | src/features/uploaded-file/services/uploaded-file.service.ts:1933-1938 | the tombstone selection uses its whole capacity without repetition and neither queue loses its half |
| `RetrySweep.EligibleIff` | src/features/uploaded-file/services/uploaded-file.service.ts:1905-1932 | exactly the rows with something pending are eligible, once each of their markers lies in the past |
| `RetrySweep.PendingRowsBecomeEligible` | src/features/uploaded-file/services/uploaded-file.service.ts:1905-1932 | every row with a pending marker is eligible from some moment on while nobody touches it |
| `RetrySweep.BatchIsFair` | src/features/uploaded-file/services/uploaded-file.service.ts:1907-1939 | a sweep selects exactly min(limit, eligible) distinct rows, settled rows first, quotas respected |
| `RetrySweep.SystemDeletionLimit` | src/features/uploaded-file/services/uploaded-file.service.ts:1722-1725 | any number is rounded down and clamped to 1..100; a value that is not finite means 100 |
| `RetrySweep.RetryWorker.NextDeletionClaim` | src/features/uploaded-file/services/uploaded-file.service.ts:391-399 | a claim is newer than every claim of the process and the marker it replaces, and a full lease ahead |
| `RetrySweep.RetryWorker.Retry` | src/features/uploaded-file/services/uploaded-file.service.ts:1941-1970 | a row that still carries the markers read is claimed, then finalized or released with its backoff; a changed row is skipped; no other row changes |
| `RetrySweep.RetryWorker.Sweep` | src/features/uploaded-file/services/uploaded-file.service.ts:1905-1972 | of the rows of its batch that other processes left unchanged, a sweep finalizes exactly the deletable ones, releases the others and reports the count; it touches nothing else |
| `RetrySweep.SweptWithoutDeletionFails` | src/features/uploaded-file/services/uploaded-file.service.ts:431-436 | an undisturbed sweep in which no object could be deleted releases its whole batch into the backoff |
| `RetrySweep.FailedRowsRest` | src/features/uploaded-file/services/uploaded-file.service.ts:405-436 | a row whose object could not be deleted is taken by no query for the next minute |
| `RetrySweep.SweepsAdvance` | src/features/uploaded-file/services/uploaded-file.service.ts:405-436 | if every storage delete fails, k sweeps inside the backoff window attempt min(n, k * limit) distinct settled rows |
| `PublicationContract.ClaimsTakeDueWork` | src/features/uploaded-file/publication/types.ts:79-84 | a claim succeeds exactly on due work that is neither ready nor blocked and has no live lease; publish work is recorded as uncertain first |
| `PublicationContract.CommitsAreFenced` | src/features/uploaded-file/publication/types.ts:87-92 | ready is written exactly under an own, unexpired lease for the current generation; otherwise nothing changes and the answer says why |
| `PublicationContract.RecordsAreFenced` | src/features/uploaded-file/publication/types.ts:93-101 | a record releases exactly the own lease; for any other it changes nothing and says so |
| `PublicationContract.StagingSupersedes` | src/features/uploaded-file/publication/types.ts:66-71 | staging is idempotent per generation, and a new generation retires every other one of its logical binding and voids their leases |
| `PublicationContract.RetirementHitsIff` | src/features/uploaded-file/publication/types.ts:72-78 | retiring hits every generation of a logical binding, or exactly the named one |
| `PublicationContract.ProjectsIff` | src/features/uploaded-file/publication/coordinator.ts:293-301 | a URL is projected exactly for the ready row of the generation that is current at that moment, and is its target |
| `PublicationCoordinator.NoCallAfterDeadline` | src/features/uploaded-file/publication/coordinator.ts:197-291 | after the deadline fired, no answer makes a run start another call, on any path |
| `PublicationCoordinator.ReactionFitsAction` | src/features/uploaded-file/publication/coordinator.ts:242-288 | a retire lease never PUTs or commits and a publish lease never deletes or records retirement |
| `PublicationCoordinator.CallsRestOnEvidence` | src/features/uploaded-file/publication/storage.ts:75-129 | ready is committed only on a matching lookup, retired recorded only on an absent one, and a PUT carries exactly the expected metadata |
| `PublicationEvidence.RunsCallIff` | src/features/uploaded-file/publication/coordinator.ts:220-291 | exactly which answers lead a run to look the object up, ask for currency, read the source, PUT (the source read as intended), delete (the exact object just seen) and commit (the exact object just seen) |
| `PublicationEvidence.RunsRecord` | src/features/uploaded-file/publication/coordinator.ts:197-219 | what a run records when it gives up: blocked for a foreign object, retired for an absent one under a retire lease, retiring for a superseded generation, and when to retry |
| `PublicationEvidence.RunsEndIff` | src/features/uploaded-file/publication/coordinator.ts:220-291 | exactly which answers end a run, and with which outcome; after the deadline it is always pending |
| `PublicationEvidence.ReportsAreTrue` | src/features/uploaded-file/publication/coordinator.ts:220-291 | in every execution a reported outcome is true of the repository: ready, retired or blocked by the own lease, lost only if the lease is no longer the row's or has run out |
| `PublicationSafety.StepKeepsInv` | src/features/uploaded-file/publication/coordinator.ts:164-292 | every stage, retire, assignment, call, reply, failure, deadline and late effect keeps the publication invariant |
| `PublicationSafety.ProjectedUrlRestsOnASighting` | src/features/uploaded-file/publication/coordinator.ts:293-301 | a URL is projected only if, under the lease whose commit made the row ready, storage had reported the exact target as matching |
| `PublicationSafety.RetiredRestsOnAbsence` | src/features/uploaded-file/publication/coordinator.ts:258-267 | a retired row was recorded under a retire lease that had seen the target absent |
| `PublicationSafety.MatchIsReal` | src/features/uploaded-file/publication/storage.ts:75-86 | a matching observation is made only while the store holds exactly the expected object |
| `PublicationSafety.AbsenceIsReal` | src/features/uploaded-file/publication/storage.ts:75-86 | an absence is observed only while the store holds nothing under the target key |
| `PublicationSafety.RetirementIsOneWay` | src/features/uploaded-file/publication/types.ts:64-103 | no continuation makes a retiring, retired or blocked generation pending, uncertain or ready |
| `PublicationSafety.ObjectsAreReplacedByNobody` | src/features/uploaded-file/publication/types.ts:147-164 | a stored object is never overwritten, and only a retire lease with its descriptor removes it |
| `PublicationSafety.ConclusiveRetirementEmptiesTheKey` | src/features/uploaded-file/publication/storage.ts:117-128 | a run that reports retired passed a moment at which its target key was empty, so a late PUT was removed |
| `PublicationSafety.DeadRunsAreSilent` | src/features/uploaded-file/publication/coordinator.ts:197-219 | in any continuation a run whose deadline fired starts no call |
| `PublicationScenarios.IntentsCanBePublished` | src/features/uploaded-file/publication/coordinator.ts:230-301 | every intent with a readable source has a run that stores it, commits it ready and lets its URL be projected |
| `PublicationScenarios.GenerationsCanBeRetired` | src/features/uploaded-file/publication/coordinator.ts:258-267 | every staged generation has a run that records it retired |
| `PublicationScenarios.PublishedGenerationsCanBeRetired` | src/features/uploaded-file/publication/storage.ts:117-128 | every published generation has a continuation that records it retired with its object removed |
| `PublicationScenarios.CallsMayLandLate` | src/features/uploaded-file/publication/types.ts:147-164 | every call that was made may take effect at any later moment |
| `PublicationScenarios.RunsMayFailOrExpire` | src/features/uploaded-file/publication/coordinator.ts:197-219 | every run may see its call fail, or be overtaken by its deadline, at any moment |
| `JobOptions.IdentityIff` | src/features/job-scheduler/job-scheduler.service.ts:39-62 | exactly which codes, types and run keys are accepted, on the text without white space around it, and the identity they name |
| `JobOptions.TimingIff` | src/features/job-scheduler/job-scheduler.service.ts:64-81 | exactly which timings are accepted, and what omitted values become: 15 minutes, and the longest interval up to a minute of which three fit into the lease |
| `JobOptions.TimingLeavesRoomForTwoBeats` | src/features/job-scheduler/job-scheduler.service.ts:64-81 | an accepted timing has 2 * heartbeat < lease, the default heartbeat always is accepted, and resolving twice changes nothing |
| `JobOptions.PaddedJobIsTheSame` | src/features/job-scheduler/job-scheduler.service.ts:43-44 | white space around code and run key does not change the identity, nor whether it is accepted |
| `JobSafety.StepKeepsInv` | src/features/job-scheduler/job-scheduler.service.ts:99-183 | every issue, commit, reply, loss and tick keeps the lock invariant |
| `JobSafety.AtMostOneReturnsAcquired` | src/features/job-scheduler/job-scheduler.service.ts:198-232 | over all runs of the cluster at most one call per identity returns acquired: true |
| `JobSafety.ReclaimsShareTheIdempotencyKey` | src/features/job-scheduler/job-scheduler.service.ts:39-62 | every winner of a row asked for the same identity, hence holds the same idempotency key |
| `JobSafety.ContendForOneRowIff` | src/features/job-scheduler/job-scheduler.service.ts:39-62 | two calls contend for one row exactly when type, trimmed code and, for scheduled jobs, trimmed run key of their options agree |
| `JobSafety.OneReturnPerJob` | src/features/job-scheduler/job-scheduler.service.ts:198-232 | of all calls whose options are the same after trimming at most one ever returns acquired: true |
| `JobSafety.SuccessIsForever` | src/features/job-scheduler/job-scheduler.service.ts:124-146 | nothing that commits later changes a SUCCESS row |
| `JobSafety.ReplacedOwnersAreFenced` | src/features/job-scheduler/job-scheduler.service.ts:149-183 | no statement of a replaced owner, in flight or sent later, ever affects a row |
| `JobHeartbeats.OnlyWinnersWork` | src/features/job-scheduler/job-scheduler.service.ts:198-222 | whoever runs the job or records its end has won the row of its identity, and holds it or was replaced |
| `JobHeartbeats.BeatingOwnerIsNeverReclaimed` | src/features/job-scheduler/job-scheduler.service.ts:128-150 | with one lease for all calls, an owner whose heartbeats commit at most two intervals after its win and after one another, by the database clock, keeps the lock until it ends the run itself |
| `JobHeartbeats.BeatBuysOneLease` | src/features/job-scheduler/job-scheduler.service.ts:149-151 | a heartbeat of the owner that commits is answered, and until one lease later only the owner itself can end its hold |
| `JobSafety.TimingsAreAccepted` | src/features/job-scheduler/job-scheduler.service.ts:198-200 | every run of every execution has a timing with room for two beats |
| `JobSafety.ReclaimHitsIff` | src/features/job-scheduler/job-scheduler.service.ts:128-145 | a reclaim wins exactly on a FAIL row or an expired RUNNING row, and then replaces the previous owner |
| `JobScenarios.AcceptedJobsCanReturn` | src/features/job-scheduler/job-scheduler.service.ts:198-221 | every job with accepted options has a run that returns acquired: true and leaves its row SUCCESS |
| `JobScenarios.FailedJobsCanBeTakenOver` | src/features/job-scheduler/job-scheduler.service.ts:124-146 | every such job also has a run in which the first call throws and a second reclaims the row and returns |
| `JobScenarios.LongJobsCanBeatAndReturn` | src/features/job-scheduler/job-scheduler.service.ts:206-222 | every accepted job may work for any time, have its heartbeats answered meanwhile, and return acquired: true |
| `JobScenarios.RepliesMayBeLate` | src/features/job-scheduler/job-scheduler.service.ts:171-183 | every statement sent may still commit, and every caller may lose its reply |
| `Unicode.Utf8EqualIff` | src/services/cache/cache.interceptor.ts:191-196 | two strings have the same UTF-8 form exactly when they differ only in lone surrogates |
| `CacheEncoding.ParseInvertsEmit` | src/services/cache/cache.interceptor.ts:197-218 | the bytes of a value can be parsed back and end exactly where it ends, whatever follows |
| `CacheEncoding.DecodeInvertsEncode` | src/services/cache/cache.interceptor.ts:189-220 | a decoder recovers every value of well-formed strings from its bytes |
| `CacheEncoding.EncodesEquallyIff` | src/services/cache/cache.interceptor.ts:189-220 | two such values encode equally exactly when equal with records as unordered maps, and no encoding is a prefix of another |
| `CacheEncoding.EncodesEquallyIffCanonical` | src/services/cache/cache.interceptor.ts:189-220 | for all values, equal bytes mean equal canonical forms |
| `CacheEncoding.StringsCollideIff` | src/services/cache/cache.interceptor.ts:191-196 | exactly which string values collide, with an example |
| `CacheEncoding.Hash.Visit` | src/services/cache/cache.interceptor.ts:197-217 | the recursive visit feeds the hash exactly the encoding of its entry |
| `CacheScope.SafeIsUnfold` | src/services/cache/cache.interceptor.ts:144-183 | the ancestor check refuses nothing but values without a tree of at most 32 levels; shared values are accepted |
| `CacheScope.ToSafeCacheValue` | src/services/cache/cache.interceptor.ts:144-183 | the walk with its loops computes that tree or refuses |
| `CacheScope.SortsEquallyIff` | src/services/cache/cache.interceptor.ts:86-89 | sorting roles and permissions forgets their order and nothing else |
| `CacheScope.SameNamespaceIffCanonical` | src/services/cache/cache.interceptor.ts:67-103 | any two contexts share a tenant or user namespace exactly when their relevant fields, roles and permissions sorted, agree in canonical form |
| `CacheScope.SameNamespaceIff` | src/services/cache/cache.interceptor.ts:67-103 | with well-formed strings, two contexts share a namespace exactly when they agree on every relevant field, roles and permissions unordered |
| `CacheScope.NamespaceExistsIff` | src/services/cache/cache.interceptor.ts:69-97 | exactly when a namespace exists: never without a tenant, nor without a user in user scope |
| `CacheFields.OneFieldApart` | src/services/cache/cache.interceptor.ts:78-90 | two contexts that differ in one field share a namespace exactly when it is request, response, token or user, or userId in tenant scope, or alike in both: as an unordered list for roles and permissions, as a value otherwise |
| `CacheFields.ScalarsAreToldApart` | src/services/cache/cache.interceptor.ts:144-153 | any two different scalars stay different, and exactly what JSON cannot hold is refused |
| `CacheFields.KeyExistsIff` | src/services/cache/cache.interceptor.ts:44-60 | exactly when a request has a key; the key names its handler |
| `CacheScope.ScopesAreDisjoint` | src/services/cache/cache.interceptor.ts:44-58 | namespaces of different scopes never coincide |
| `CacheScope.LoneSurrogatesShareANamespace` | src/services/cache/cache.interceptor.ts:191-196 | two contexts that disagree only in a lone surrogate share a namespace |
| `CacheScope.SameKeyIffCanonical` | src/services/cache/cache.interceptor.ts:44-59 | any two requests of a handler share a key exactly when namespace and business value agree in canonical form |
| `CacheScope.SameKeyIff` | src/services/cache/cache.interceptor.ts:44-59 | with well-formed strings, two requests of a handler share a key exactly when namespace and business value are the same |
| `LruCache.SizeStaysBounded` | src/services/cache/backends/memory-cache.backend.ts:30-40 | after every operation of every history the size is within the bound |
| `LruHistory.HitsAreCurrent` | src/services/cache/backends/memory-cache.backend.ts:17-28 | over every sequence of operations a hit returns the value last set for the key and since then neither deleted, cleared nor asked for after its expiry, and only before that expiry |
| `LruHistory.MissesAreCrowdedOut` | src/services/cache/backends/memory-cache.backend.ts:24-39 | such a value is missed before its expiry only if at least maxEntries other keys were set or answered since |
| `LruHistory.DroppedKeysAreMissed` | src/services/cache/backends/memory-cache.backend.ts:42-48 | after `del` its key, and after `clear` every key, is missed until it is set again |
| `LruCache.HitReturnsLatest` | src/services/cache/backends/memory-cache.backend.ts:17-28 | the same of a hit, told on the events the cache reports |
| `LruCache.MissMeansCrowdedOut` | src/services/cache/backends/memory-cache.backend.ts:24-39 | the same of a miss, told on the events the cache reports |
| `LruCache.ServedUntilExpiry` | src/services/cache/backends/memory-cache.backend.ts:20-34 | a value just set is served up to its expiry and not after it |
| `LruCache.MemoryCacheBackend.Get` | src/services/cache/backends/memory-cache.backend.ts:17-28 | `get` takes the reference step and returns its answer |
| `LruCache.MemoryCacheBackend.Set` | src/services/cache/backends/memory-cache.backend.ts:30-40 | `set` with its eviction loop takes the reference step |
| `LruCache.MemoryCacheBackend.Del` | src/services/cache/backends/memory-cache.backend.ts:42-44 | `del` takes the reference step |
| `LruCache.MemoryCacheBackend.Clear` | src/services/cache/backends/memory-cache.backend.ts:46-48 | `clear` takes the reference step |
| `Ooxml.FindEndRecord` | src/features/uploaded-file/ooxml-security.ts:43-51 | the backward scan finds the last end record whose comment ends the buffer, or none exists |
| `Ooxml.AcceptedNamesAreSafe` | src/features/uploaded-file/ooxml-security.ts:53-76 | an accepted name is relative, free of backslash and NUL, and no segment of it is `.` or `..` |
| `Ooxml.CanonicalNameIsUnchanged` | src/features/uploaded-file/ooxml-security.ts:68-76 | canonicalisation accepts a name as it stands or refuses it |
| `Ooxml.CheckRecord` | src/features/uploaded-file/ooxml-security.ts:115-174 | one loop iteration accepts a record exactly when header, name, budgets and local entry are in order |
| `Ooxml.CheckLocal` | src/features/uploaded-file/ooxml-security.ts:155-173 | the local header matches its record and header, name and payload lie below the directory |
| `OoxmlDirectory.WalkAcceptsIff` | src/features/uploaded-file/ooxml-security.ts:111-177 | the loop accepts exactly when distinctly named records within the budget tile from the directory offset to the end record and hold the required parts |
| `Ooxml.ValidateOoxmlContainer` | src/features/uploaded-file/ooxml-security.ts:83-181 | a buffer is accepted if and only if it is a well-laid-out archive for a known document type |
| `OoxmlPolicy.NamesAreAcceptedIff` | src/features/uploaded-file/ooxml-security.ts:53-76 | exactly which entry names are accepted: those whose bytes spell, in UTF-8 or printable ASCII as flag bit 11 says, a relative path without NUL, backslash, drive, dot segment or empty segment except at its end |
| `OoxmlPolicy.FlagsAreBits` | src/features/uploaded-file/ooxml-security.ts:23-25 | the flags looked at are bit 11 (UTF-8), bit 3 (data descriptor) and bits 0, 6 and 13 (encryption) |
| `OoxmlPolicy.AcceptedArchivesAreModest` | src/features/uploaded-file/ooxml-security.ts:83-181 | an accepted container ends with its end record, is on one disk and has at most 2,048 entries, none encrypted, each stored or deflated, of at most 50 MiB and a hundred times its packed size, and 100 MiB together |
| `OoxmlPolicy.PartsAreNamed` | src/features/uploaded-file/ooxml-security.ts:3-7 | the parts asked for are the content types and the main part of the document type, by name |
| `OoxmlWriter.WrittenArchivesAreAccepted` | src/features/uploaded-file/ooxml-security.ts:83-181 | every archive a plain ZIP writer produces without comment, within budgets, with safe distinct names and the required parts is accepted |
| `Redaction.SecretsDoNotInterfere` | src/features/action-history/action-history.service.ts:265-285 | graphs that differ only in where their objects live and in what sensitive or configured fields hold give the same output or the same error |
| `Redaction.SpelledMarkersAreHidden` | src/features/action-history/action-history.service.ts:91-95 | a field whose name spells a sensitive marker, separators inside it or not, is hidden at every path |
| `RedactionPaths.FieldsAreHiddenIff` | src/features/action-history/action-history.service.ts:224-283 | exactly which output fields hold the mark: those whose name contains a marker, and those configured by name or by path, a path being keys and decimal positions joined by dots; every other field stands for the value at its place in the graph |
| `RedactionAcceptance.SmallSnapshotsAreAccepted` | src/features/action-history/action-history.service.ts:229-285 | a graph without unsafe properties whose unfolding has at most 10,000 nodes, 1 MiB of text and paths and depth 32 is accepted |
| `Redaction.OutputIsBoundedAndClean` | src/features/action-history/action-history.service.ts:229-285 | an output has exactly the walked nodes (at most 10,000), depth at most 32, at most 1 MiB of copied text, each object once, and the mark under every hidden key |
| `Redaction.OutputMirrorsInput` | src/features/action-history/action-history.service.ts:239-287 | everything else is copied unchanged and in order; a mark stands only for a hidden field or a visited object |
| `Redaction.Sanitizer.Consume` | src/features/action-history/action-history.service.ts:231-238 | charges one node, its text and its path, and reports whether all limits hold |
| `Redaction.Sanitizer.WalkValue` | src/features/action-history/action-history.service.ts:239-285 | the walk with its counters in place computes the specified output, error and counters |
| `Filter.PrepareFilter` | src/core/orm/utils/filter-query-builder.ts:43-94 | the cleaning loop computes the specification and leaves no empty group or nullish leaf at any depth |
| `Filter.CleaningIsIdempotent` | src/core/orm/utils/filter-query-builder.ts:43-94 | cleaning twice is cleaning once |
| `Filter.CleaningKeepsMeaning` | src/core/orm/utils/filter-query-builder.ts:49-91 | cleaning leaves what a group says about any row unchanged |
| `FilterSelection.CleaningDropsIff` | src/core/orm/utils/filter-query-builder.ts:49-91 | cleaning drops exactly the leaves without field or data and the groups of nothing else |
| `FilterSelection.QueriesAreRefusedIff` | src/core/orm/utils/filter-query-builder.ts:341-344 | a query is refused exactly for a membership test against a column that is no array |
| `FilterSelection.QueriesSelect` | src/core/orm/utils/filter-query-builder.ts:295-420 | a query returns exactly the rows that every filter selects, operator by operator on the row alone (`IN []` none, `NOT_IN []` all, a null cell only where it is asked for), with AND asking all entries and OR one of those that count |
| `Filter.ColumnOperandMeans` | src/core/orm/utils/filter-query-builder.ts:235-274 | the SQL for column operands means null-safe equality for EQUAL and NOT_EQUAL and SQL comparison otherwise |
| `Filter.InArrayMeans` | src/core/orm/utils/filter-query-builder.ts:275-279 | the SQL for IN with an array column is null-safe membership, never unknown |
| `Filter.NotInArrayMeans` | src/core/orm/utils/filter-query-builder.ts:280-284 | the SQL for NOT_IN with an array column is its complement on non-null arrays |
| `Filter.WhereBuilder.ApplyFilter` | src/core/orm/utils/filter-query-builder.ts:295-420 | applying a filter appends exactly its compiled condition to the builder, or is refused |
| `Filter.QueryMeansTheTree` | src/core/orm/utils/filter-query-builder.ts:295-420 | the compiled condition of the cleaned filters says of every row exactly what the original tree says (`IN []` false, `NOT_IN []` true) |
| `Filter.NullishEntriesAreAbsent` | src/core/orm/utils/filter-query-builder.ts:38-42 | nullish entries are as good as absent unless an OR group mixes null column references with other entries |
| `Filter.NullRefAdmitsEveryRow` | src/core/orm/utils/filter-query-builder.ts:71-73 | every OR group that holds a null column reference, or a group of nothing else, admits every row |
| `Filter.MixedOrDiffersIff` | src/core/orm/utils/filter-query-builder.ts:306-339 | an OR group that mixes differs from its meaning with nullish entries absent exactly on the rows its other entries do not admit |
| `Filter.NestedMixedOrDiffersIff` | src/core/orm/utils/filter-query-builder.ts:306-339 | wherever a mixed OR group stands in a tree, the query admits a row it should not exactly when the group's other entries do not admit it and every enclosing AND is otherwise true and every enclosing OR is not; it rejects no row it should admit |
| `Scope.ResolveScopePredicates` | src/core/tenancy/tenancy.helpers.ts:49-67 | the loop resolves the scope to its predicates or refuses |
| `ScopeSelection.ScopeIsRefusedIff` | src/core/tenancy/tenancy.helpers.ts:22-67 | a scope is refused exactly when a required column has no value or some column's value is neither a scalar nor a list of scalars and nulls |
| `ScopeSelection.ScopedReadsSelect` | src/core/orm/base-repository.ts:243-250 | a scoped read returns exactly the rows that every user filter selects and in which every column with a value in the scope holds one of its scalars |
| `ScopeSelection.CriteriaSelect` | src/core/tenancy/tenancy.helpers.ts:87-93 | the criteria of a mutation select exactly the rows in which every column with a value in the scope holds one of its scalars |
| `ScopeSelection.CreateIsRefusedIff` | src/core/tenancy/tenancy.helpers.ts:102-132 | a create is refused exactly for an unusable scope, or where a list of allowed values needs a choice and the entity makes none or another |
| `ScopeSelection.CreatedEntitiesFit` | src/core/tenancy/tenancy.helpers.ts:102-132 | a created entity fits its scope, and only columns in which it did not fit before were written |
| `Scope.ReadsStayInScope` | src/core/orm/base-repository.ts:243-250 | a scoped read returns a row exactly when the user filters do and the row is in scope |
| `Scope.BuildScopeWhere` | src/core/tenancy/tenancy.helpers.ts:87-93 | the loop fills the criteria of the resolved predicates |
| `Scope.WhereMeansScope` | src/core/tenancy/tenancy.helpers.ts:87-93 | the where form selects exactly the rows in scope |
| `Scope.FilterAndWhereFormsAgree` | src/core/tenancy/tenancy.helpers.ts:75-93 | the filter form and the where form of one scope select the same rows |
| `Scope.Entity.ApplyScopeToEntity` | src/core/tenancy/tenancy.helpers.ts:102-132 | the loop writes the specified entity or raises an error |
| `Scope.CreatedEntitiesAreInScope` | src/core/tenancy/tenancy.helpers.ts:102-132 | an accepted entity satisfies every predicate the same scope yields for reads; other fields are untouched |
| `Scope.Repository.Mutate` | src/core/orm/base-repository.ts:664-710 | delete, soft delete and restore count, change and roll back as specified |
| `Scope.Repository.Update` | src/core/orm/base-repository.ts:633-662 | update refuses scope columns, changes one row or rolls back |
| `Scope.MutationsAreAllOrNothing` | src/core/orm/base-repository.ts:586-614 | a mutation succeeds exactly when every requested id is in scope, and then changes exactly those rows; otherwise nothing |
| `Scope.OutOfScopeRowsAreUntouched` | src/core/orm/base-repository.ts:586-589 | rows outside the scope survive every mutation unchanged |
| `Scope.UpdatesKeepTheScope` | src/core/orm/base-repository.ts:633-662 | an update succeeds exactly for a row in scope, changes that row only, and otherwise changes nothing |
| `Scope.UpdatesLeaveScopeColumns` | src/core/orm/base-repository.ts:639-644 | no update changes a scope column of any row |
| `Scope.SoftDeletedRowsStayInScope` | src/core/orm/base-repository.ts:686-710 | a soft-deleted or restored row is in scope exactly if it was before, unless the deletion mark is scoped |
| `Scope.ScopedIdDeletesAnotherRow` | src/core/orm/base-repository.ts:586-589 | with a scoped `id` column a delete removes a row that was not requested |
| `Scope.KeepsToRequestedRowsIff` | src/core/orm/base-repository.ts:586-589 | deletes keep to the requested rows if and only if `id` is not scoped or the scope admits no row |

## Left out

- TypeORM SQL generation, PostgreSQL, Redis, the AWS SDK and NestJS wiring: database statements are atomic steps, everything else a nondeterministic port.
- Tenant, owner and authorization columns in the uploaded-file statements: they only narrow the WHERE clauses.
- `unsafeSystemCleanupCompletedStaging` and the staging key column: the staging object of a direct upload is not modelled; for managed rows only the published object is.
- The Redis cache backend, single-flight loading and the HTTP request descriptor: they would only add easy members.
- Publication `verify` and `publicationBinding` validation: an intent is taken to be valid; only the size limit can still refuse it.
- UploadSafety.StoredObjectsAreTracked: excludes managed rows, whose staging bytes are cleaned up by the sweep that is not modelled.
- UploadCompletion.ReplacedCompleterNeverFinalizes: excludes the two clock readings that let a replaced completer in; `UploadScenarios.RevivalIff` gives the exact condition.
- UploadScenarios.SecondClaimRevives: the revived process has already given up and only its finalization is in flight; a process still at work is the subject of `UploadCompletion.ReplacedCompleterFinalizesOnlyIf`.
- CacheScope.SameNamespaceIff: well-formed strings only; `CacheScope.SameNamespaceIffCanonical` is the statement for every context.
- CacheScope.SameKeyIff: well-formed strings only; `CacheScope.SameKeyIffCanonical` is the statement for every context and value.
- Scope.MutationsAreAllOrNothing: excludes scopes with an `id` column, for which the promise fails; `Scope.KeepsToRequestedRowsIff` gives the exact condition.
- Scope.UpdatesKeepTheScope: excludes scopes with an `id` column, for the same reason.
- RetrySweep.RetryWorker.Retry: statements that throw are not part of the worker, so a sweep that ends early is not either; lost replies and late commits of the same statements are the subject of `UploadProtocol`.
- RetrySweep.RetryWorker.Sweep: other processes may change rows between the query and the claim, but not while one row is being handled; those interleavings are the subject of `UploadProtocol`.
- Two modules that share a storage prefix: an object is identified with its row.
- Sparse arrays of roles or permissions: array elements are always present.
- Filter.NullRefAdmitsEveryRow, Filter.MixedOrDiffersIff and Filter.NestedMixedOrDiffersIff: whether such an entry reaches the compiler depends on `FilterUtilities.validateFilter` of `@sdcorejs/utils`, which is not part of this model; they speak of the trees it lets through.
- Relative dates, timestamp units, relation joins, raw conditions and tenancy bypass in queries: they are not part of this model.
- Unicode case mapping: it is a parameter of the redaction and of text matching.
- Scope values that are dates are compared by identity like every other scalar; database collation and numeric coercion are not modelled.
- The binary layout of compressed data and overlapping local entries in ZIP files: the inspection does not look at them.
