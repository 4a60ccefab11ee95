# Verified model of a terminal SFTP client's daemon

A Dafny model of the parts of the client that keep state others depend on, with
proofs that hold for every input, every run or every reachable state.

- **Content cache.** A catalog of blobs, entries, materializations, references
  and leases; byte accounting per workspace; a greedy eviction planner; admission
  of new content; deletion of cache files; and the manager that runs all of this
  on two stores, the disk and the catalog. The manager's methods write one store
  at a time and record every world they pass through. Every one of these worlds
  is consistent, whatever other goroutines do to the catalog in between. A restart
  on any of them recovers if the rounds suffice for the pending claims, no claimed
  entry has been pinned and the files under each materialization claim are its own
  (`Manager.RecoverAtStartup`); a recovery cut off anywhere leaves a world from
  which the same recovery succeeds. An eviction that completes has removed exactly
  the claimed files; a publication or handoff that succeeds passed through a world
  with room for it and one with its records and files as given; and one that fails
  has a reason that some world on the way shows.
- **Authentication broker.** Its tables as a class, and a state machine of
  prompts, claims, sends and result channels that interleave with it, with what
  prompts, claims and answers say.
- **Endpoint leases and search cursors.** The daemon's reference counts and
  cursor tables as classes, and state machines in which connecting, starting,
  closing and draining happen outside the lock.
- **Bounded capture and quoting.** A byte ring behind a marker gate, and shell
  quoting against a scanner for sections 2.2.1 and 2.2.2 of the POSIX.1-2017 Shell
  Command Language.
- **Workflow policy reader.** The YAML-subset reader: line scanners, flow parser
  and block parser, with the text a tree of plain and quoted scalars is written to
  and read back from.

`dafny verify dfyconfig.toml` checks the whole project.

## How it is laid out

| files | what they hold |
|---|---|
| `Wrappers`, `Keyed`, `Records`, `Leases` | options and results, keyed tables, the cache records and their validity, lease renewal |
| `Accounting`, `Eviction`, `Effects`, `Candidates`, `Planner`, `Completeness`, `Diagnostics`, `Planning`, `Admission` | usage, eligibility, what an eviction changes, the greedy plan, when it is stuck, the diagnostics, the planning loops, admissions |
| `Deletion`, `Catalog`, `Stores`, `Transactions`, `Changes`, `Outside`, `Steps`, `Recovery`, `Manager`, `Crowding`, `CrowdedWorlds` | file deletion, catalog transactions, the invariant of both stores and what keeps it, when transactions are granted and what they change, interference, pending claims and their recovery, the manager, what too many claims lead to |
| `Broker`, `BrokerInvariant`, `BrokerSystem`, `BrokerAnswers` | the authentication broker |
| `Endpoints`, `EndpointSystem`, `Search`, `SearchSystem`, `SearchPaging` | endpoint leases, search cursors and their pages |
| `Capture`, `Quoting` | output capture and shell quoting |
| `YamlText`, `YamlFlow`, `YamlFlowParser`, `YamlBlock`, `YamlBlockParser`, `YamlSpelling`, `YamlRoundTrip`, `YamlRunText`, `YamlBlockRoundTrip` | the workflow policy reader |

## Where the code falls short of what one would expect

Each has a concrete witness or a general construction, and the exact condition.

- Byte planning does not consider entries that share a blob, so two entries on one
  blob can block it although removing both would do
  (`SharedBlobBlocksBytes`; exact condition in `StuckOnBytes`).
- A shared entry claim whose entry is published again as pinned can never be
  finalized (`PinnedPublishBlocksClaim`). This happens only on a catalog with more
  pending claims than one recovery lists, `maxCandidates`. `EveryLimitLosesAClaim`
  gives the run for every limit, from a settled and valid catalog: one claim more
  than the limit is granted, as many as the limit are carried out (any of them, by
  `CrowdedRun`), the last entry is admitted and published as pinned. After it every
  recovery fails (`LostForGood`). A manager that starts with no more claims than the
  limit, none of them pinned, never gets there: `Manager.Valid` has every world it
  visits calm, and then every entry and blob claim completes
  (`Manager.ExecuteEviction`). Clearing the cache on request claims without
  recovering first; it is not part of this model.
- A prompt that gives up removes a challenge by identifier. If the identifier has
  been reused, the newer prompt waits for a result nobody will send (`StrandedRun`;
  exact condition in `OpeningIsSafeWhenFresh`).
- A filename search that is overtaken by a content search of the same request
  reports that the limit is reached (`ContentDuplicateRun`; exact condition in
  `ChecksAgree`).
- The ring's 64-bit counter wraps; its snapshot is right if and only if it has not
  (`Ring.Snapshot`).

One condition is always met: `GraceWindow` needs a grace window of whole seconds,
as `GraceWindowExact` shows, and the catalog holds times in whole seconds.

## Model

| member | source | states |
|---|---|---|
| `CacheRecords.ScanRecords` | internal/cache/records.go:340-348 | one of the five validation loops accepts exactly the tables whose records all pass their own check and repeat no key |
| `CacheRecords.Validate` | internal/cache/records.go:333-401 | accepts exactly the snapshots whose records are valid, whose keys are unique and in which no entry, materialization, reference or lease dangles |
| `CacheLeases.RenewStaysValid` | internal/cache/lease.go:58-80 | a heartbeat rounded to whole seconds turns a valid active lease into a valid active lease on the same target and process, for any expiry and grace |
| `CacheLeases.RunStaysValid` | internal/cachemanager/manager.go:226-238 | the same over every sequence of heartbeats |
| `CacheLeases.TruncateDistance` | internal/cachemanager/manager.go:232-234 | rounding two times down keeps their distance if and only if it is whole seconds |
| `CacheLeases.GraceWindow` | internal/cache/lease.go:66-76 | over every run of heartbeats the grace window is the smaller of its first value and the cap of the manager, when that is whole seconds |
| `CacheLeases.GraceWindowExact` | internal/cachemanager/manager.go:228-238 | the whole-second condition is exact: without it one heartbeat already changes the window |
| `CacheLeases.HeartbeatProtects` | internal/cache/lease.go:98-125 | no process state makes a renewed lease reclaimable earlier than a second before its unrounded end of grace |
| `CacheLeases.HeartbeatExact` | internal/cache/lease.go:58-80 | a heartbeat protects by expiry alone for exactly the expiry of the manager, then by grace for exactly the smaller of the window of the lease and the cap of the manager; after that it is reclaimable if and only if its process is dead; nothing else of the lease changes |
| `CacheLeases.RenewedEnds` | internal/cachemanager/manager.go:228-238 | rounding never protects for longer: a renewed lease with a dead process is reclaimable from the end of expiry and grace on, and is protected by expiry alone exactly until the second that expiry falls in |
| `CacheLeases.ReclaimableAfterRun` | internal/cache/lease.go:98-125 | after any run of heartbeats the lease is reclaimable if and only if it is past grace and its process is reported gone or reborn; an unknown process protects |
| `CacheAccounting.BytesConserved` | internal/cache/quota.go:204-249 | global bytes are the sum over workspaces plus shared bytes plus the bytes of blobs without an entry |
| `CacheAccounting.PartsWithinGlobal` | internal/cache/quota.go:204-249 | every workspace total and the shared total are at most the global total |
| `CacheAccounting.PoolsPartition` | internal/cache/quota.go:213-236 | each blob belongs to exactly one pool: one workspace, shared, or without an entry |
| `CacheAccounting.AddBytes` | internal/cache/quota.go:251-257 | the checked addition fails if and only if the true sum exceeds the int64 maximum |
| `CacheAccounting.IndexEntries` | internal/cache/quota.go:206-212 | the index loop collects, for each blob, exactly the workspaces of its entries |
| `CacheAccounting.AccountBlobs` | internal/cache/quota.go:213-236 | the blob loop credits each blob to its pool, failing exactly on overflow |
| `CacheAccounting.AccountMaterializations` | internal/cache/quota.go:237-247 | the materialization loop credits each one to the workspace of its entry, failing exactly on overflow |
| `CacheAccounting.AccountValidated` | internal/cache/quota.go:204-249 | on a linked snapshot, accounting overflows if and only if the true global total exceeds the int64 maximum, and otherwise yields the usage defined independently on sets of identifiers |
| `CacheAccounting.Account` | internal/cache/quota.go:123-128 | refuses exactly the snapshots that fail validation, fails further if and only if the true global total exceeds the int64 maximum, and otherwise yields that usage |
| `CacheEviction.RemoveKeepsSound` | internal/cache/quota.go:307-356 | removing one eligible target keeps every link and every guarded target |
| `CacheEviction.EvictKeepsSound` | internal/cache/quota.go:375-407 | so does a victim together with the blob it takes along |
| `CacheEviction.ValidIsSound` | internal/cache/records.go:333-401 | a valid snapshot satisfies the invariant the planner keeps |
| `CacheEffects.EvictEffect` | internal/cache/quota.go:375-407 | an eviction never raises bytes or object count, lowers the count, and raises a workspace only by bytes leaving the shared pool |
| `CacheEffects.EvictEntryEffect` | internal/cache/quota.go:381-397 | evicting an entry frees the size of its blob exactly when the blob goes along |
| `CacheCandidates.InspectProtections` | internal/cache/quota.go:268-298 | the index of references and unreclaimable leases has exactly the guarded targets and the entry counts |
| `CacheCandidates.EnumerateCandidates` | internal/cache/quota.go:307-356 | the list has exactly one candidate for each eligible target, with its access time |
| `CacheCandidates.BlobReachableFromMaterialization` | internal/cache/quota.go:366-373 | the search loop finds a materialization with that baseline if and only if there is one |
| `CacheCandidates.BeforeOrder` | internal/cache/quota.go:152-160 | last access, kind and identifier give a strict total order on candidates |
| `CacheCandidates.SortCandidates` | internal/cache/quota.go:152-160 | sorting yields the same candidates in that order |
| `CachePlanner.UsageMeansFits` | internal/cache/quota.go:428-450 | the limit tests on a usage record say exactly that the snapshot fits its limits |
| `CachePlanner.UsageMeansImproves` | internal/cache/quota.go:452-465 | the improvement test says exactly that some violated limit gets better |
| `CachePlanner.PicksKeep` | internal/cache/quota.go:147-187 | every greedy run keeps the invariant and never raises usage |
| `CachePlanner.OldestFirst` | internal/cache/quota.go:152-181 | every pick is the least recently used of the candidates that would improve a violated limit at that point; kind and then identifier decide among equals |
| `CachePlanner.FittingPicksNothing` | internal/cache/quota.go:147-150 | a run on a snapshot that fits picks nothing |
| `CachePlanner.AfterIsRemoval` | internal/cache/quota.go:375-407 | evicting the picks one by one is removing the listed targets all at once |
| `CachePlanner.PlanIsSafe` | internal/cache/quota.go:130-195 | for every valid snapshot, what survives a plan keeps its blob, entry, baseline, reference targets and unreclaimable lease targets, and nothing pinned, dirty or guarded is listed |
| `CachePlanning.CompactInPlace` | internal/cache/quota.go:418-426 | the in-place compaction of an array keeps exactly the other records, in order |
| `CachePlanning.ApplyCandidate` | internal/cache/quota.go:375-407 | applying a victim in place yields the snapshot with its consequences removed and lists exactly those targets |
| `CachePlanning.SelectVictim` | internal/cache/quota.go:162-181 | the scan takes the first improving candidate in order, or shows that none improves; no trial accounting fails |
| `CachePlanning.PlanLoop` | internal/cache/quota.go:147-187 | the planning loop is a greedy run within the candidate budget, and stops only when satisfied, out of budget or stuck |
| `CachePlanning.PlanEvictions` | internal/cache/quota.go:130-195 | planning refuses exactly invalid snapshots, invalid limits, leases without a manager and totals that do not fit; otherwise the plan reports a greedy run, and an unsatisfied one its tallies and exactly what it lacks |
| `CachePlanning.PlanRefines` | internal/cache/quota.go:141-194 | the reported usage after is the accounting of the snapshot without exactly the listed targets; bytes and objects never rise, a workspace rises only by bytes leaving the shared pool, and satisfied holds if and only if nothing is required |
| `CachePlanning.UnsatisfiedPlanKeeps` | internal/cache/quota.go:147-194 | a plan that is unsatisfied with budget left and every byte limit met leaves only entries that are pinned, materialized or have a guarded blob, and materializations that are pinned, not clean or guarded |
| `CacheCompleteness.StuckOnObjects` | internal/cache/quota.go:452-465 | when only the object count is over, no candidate improves if and only if every entry is pinned, materialized or has a guarded blob and every materialization is pinned, not clean or guarded |
| `CacheCompleteness.StuckOnBytes` | internal/cache/quota.go:307-356 | when only global bytes are over, no candidate improves if and only if no eligible unshared target frees a byte |
| `CacheCompleteness.StuckOnWorkspace` | internal/cache/quota.go:440-465 | when only workspaces are over their share, no candidate improves if and only if each of those has nothing left but entries that are kept, shared or without bytes and materializations that are kept or without bytes |
| `CacheCompleteness.StuckKeeps` | internal/cache/quota.go:440-465 | whatever else is over, a stuck planner leaves a workspace over its share only such records |
| `CacheCompleteness.KeptStays` | internal/cache/quota.go:375-407 | no victim takes bytes from a workspace whose records are all kept, shared or without bytes |
| `CacheCompleteness.SharedBlobBlocksBytes` | internal/cache/quota.go:146-150 | a concrete valid snapshot on which byte planning is stuck although removing two entries and their shared blob would fit |
| `CacheDiagnostics.TalliesFit` | internal/cache/quota.go:467-537 | every unguarded diagnostic tally is at most the global bytes, so none can overflow |
| `CacheDiagnostics.ExcessBounds` | internal/cache/quota.go:539-557 | the workspace excess summed over workspaces is at most the global bytes |
| `CacheDiagnostics.WorkspaceRequired` | internal/cache/quota.go:539-557 | the summing loop computes that excess without overflow |
| `CacheDiagnostics.RequiredQuantity` | internal/cache/quota.go:539-557 | the required bytes are what the usage has over the global limit or over the workspace limits together, whichever is more, the required entries the objects over their limit; both are zero if and only if the usage is within all limits |
| `CacheDiagnostics.Tally` | internal/cache/quota.go:474-519 | a tally loop adds up exactly the sizes of a set of identifiers |
| `CacheDiagnostics.ReleasesOnce` | internal/cache/quota.go:520-535 | no blob is released by two different candidates, so nothing is counted twice |
| `CacheDiagnostics.Releasable` | internal/cache/quota.go:520-535 | the releasable tally weighs exactly what the candidates release, and counts their entries |
| `CacheDiagnostics.BuildDiagnostic` | internal/cache/quota.go:467-537 | the diagnostic holds exactly the weights of pinned, dirty, leased, referenced, shared and releasable content, and exactly the required quantity |
| `CacheAdmission.PinEntries` | internal/cache/quota.go:100-104 | the in-place loop pins exactly the entries on the blob |
| `CacheAdmission.PlanAdmission` | internal/cache/quota.go:90-121 | planning an admission plans the snapshot with the incoming records pinned, and succeeds exactly when that snapshot can be planned |
| `CacheAdmission.FitsIgnoresPins` | internal/cache/quota.go:428-438 | pinning changes no limit test |
| `CacheAdmission.AdmissionFits` | internal/cachemanager/quota.go:185-190 | a satisfied plan without targets means that the catalog with the incoming records fits every limit |
| `CacheAdmission.AdmissionIsSafe` | internal/cache/quota.go:90-121 | no plan targets the incoming records, their blob, entries on a deduplicated blob, or the source entry and baseline of an incoming materialization |
| `CacheDeletion.ReadDir` | internal/cachefs/delete.go:157-160 | a listing is sorted by name and has exactly the children |
| `CacheDeletion.Slot.RemoveKnownDirectory` | internal/cachefs/delete.go:143-196 | removes the directory if and only if every child is expected and unchanged, in name order; a refusal removes nothing |
| `CacheDeletion.DeleteEntry` | internal/cachefs/delete.go:44-80 | deletes an entry directory if and only if it is deletable, and every intermediate state is deletable again |
| `CacheDeletion.EntryRemovalResumes` | internal/cachefs/delete.go:44-80 | every state a crash leaves during entry deletion is deletable with the same identity |
| `CacheDeletion.DeleteMaterialization` | internal/cachefs/delete.go:84-141 | the same for a materialization, content before manifest |
| `CacheDeletion.MaterializationRemovalResumes` | internal/cachefs/delete.go:84-141 | every state a crash leaves during materialization deletion is deletable with the same identity |
| `CacheDeletion.ContentBeforeManifest` | internal/cachefs/delete.go:84-141 | the content file comes before the manifest in a listing |
| `CacheDeletion.DeleteBlob` | internal/cachefs/delete.go:15-41 | deletes a blob exactly when it is missing or matches the claimed identity |
| `CacheCatalog.ListPendingEvictions` | internal/state/cachestore/eviction.go:167-237 | lists pending claims on different rows, within a limit of 1 to 256; a list below the limit covers every pending claim, and an empty one means nothing is being evicted |
| `CacheCatalog.PendingMaterializations` | internal/state/cachestore/eviction.go:172-193 | lists deleting materializations, all of them when below the limit |
| `CacheCatalog.PendingBlobs` | internal/state/cachestore/eviction.go:194-218 | lists deleting blobs with their entry if any, all of them when below the limit |
| `CacheCatalog.PendingSharedEntries` | internal/state/cachestore/eviction.go:219-237 | lists claimed shared entries, all of them when below the limit |
| `CacheStores.ConsistentMeansReadable` | internal/cachefs/manifest.go:120-147 | in a consistent world every published blob is on disk with its size, every entry outside a claim has a verified manifest naming its blob, and every entry directory can be deleted |
| `CacheStores.MildKeeps` | internal/state/cachestore/store.go:113-118 | catalog writes outside the lock keep the stores consistent |
| `CacheTransactions.BeginKeeps` | internal/state/cachestore/eviction.go:82-146 | a granted claim keeps the stores consistent and is then in force |
| `CacheTransactions.ClaimGrantsEligible` | internal/state/cachestore/eviction.go:82-146 | whatever a claim grants is eligible for eviction: unpinned, clean, unreachable, unreferenced and unleased, however generously leases are classified |
| `CacheTransactions.MarkDeletingKeeps` | internal/state/cachestore/eviction.go:112-118 | marking an unheld blob as deleting keeps the stores consistent |
| `CacheTransactions.ClaimSharedKeeps` | internal/state/cachestore/eviction.go:119-126 | claiming a shared entry by a reserved reference keeps the stores consistent |
| `CacheTransactions.FinalizeKeeps` | internal/state/cachestore/eviction.go:239-294 | finalizing a claim keeps the stores consistent |
| `CacheTransactions.FinalizeExact` | internal/state/cachestore/eviction.go:252-268 | a pending claim can be finalized unless it is a shared claim whose entry has become pinned, and only then |
| `CacheTransactions.FinalizeRemovesRows` | internal/state/cachestore/eviction.go:239-294 | finalizing removes at least one row |
| `CacheTransactions.PublishKeeps` | internal/state/cachestore/store.go:58-102 | publishing keeps the stores consistent once blob and manifest are on disk |
| `CacheTransactions.HandoffKeeps` | internal/state/cachestore/store.go:226-262 | handing out a materialization keeps the stores consistent |
| `CacheTransactions.HandoffStores` | internal/state/cachestore/store.go:226-262 | a granted handoff adds exactly the materialization, the reference and the lease, and the materialization cannot be claimed while they stand |
| `CacheChanges.PublishExact` | internal/state/cachestore/store.go:58-102 | a publication is granted if and only if no row under its identifiers has another content, state or identity |
| `CacheChanges.BeginExact` | internal/state/cachestore/eviction.go:82-146 | a claim is granted if and only if its target is there and no pin, use, reference or lease keeps it |
| `CacheChanges.HandoffExact` | internal/state/cachestore/store.go:226-262 | a handoff is granted if and only if its records belong together, their identifiers are free, and the entry is there, intact and not claimed |
| `CacheChanges.PublishChanges` | internal/state/cachestore/store.go:58-102 | publishing adds or refreshes the two rows under its identifiers, as given and with no older access time, and leaves every other row alone |
| `CacheChanges.BeginChanges` | internal/state/cachestore/eviction.go:82-146 | a claim marks exactly its one row as deleting, or adds exactly one reserved reference |
| `CacheChanges.FinalizeChanges` | internal/state/cachestore/eviction.go:239-294 | finalizing removes exactly the claimed rows, the claim itself and the released leases on what goes |
| `CacheOutside.OutsideRelies` | internal/state/cachestore/store.go:393-507 | marking dirty, releasing, heartbeats, marking unknown and owner edits keep to the condition the manager relies on |
| `CacheOutside.ReleaseUndoes` | internal/state/cachestore/store.go:465-507 | a release undoes a handoff: references are as before, only its own lease is released, and the copy can be claimed again if and only if it is clean and unpinned |
| `CacheOutside.DirtyKeeps` | internal/state/cachestore/eviction.go:31-70 | content reported as changed is recorded on exactly that row, and the copy cannot be claimed any more |
| `CacheSteps.DropBlobKeeps` | internal/cachemanager/quota.go:275-283 | a blob file may go once it is not published and no manifest of a cataloged entry names it |
| `CacheSteps.DropManifestKeeps` | internal/cachefs/delete.go:44-80 | a manifest may go once its entry is under a claim |
| `CacheSteps.AddManifestKeeps` | internal/cachefs/manifest.go:78-118 | a manifest may be linked next to its blob when the catalog agrees on the blob |
| `CacheSteps.FinalizeIndependent` | internal/cachemanager/quota.go:80-93 | finalizing one pending claim leaves pending claims on other rows in force |
| `CacheRecovery.FinalizeLess` | internal/state/cachestore/eviction.go:239-294 | finalizing a claim makes no other claim pending and leaves none on its own row |
| `CacheRecovery.SubjectDetermines` | internal/state/cachestore/eviction.go:167-237 | pending claims on the same row are the same claim |
| `CacheRecovery.FreesFinalize` | internal/cachemanager/quota.go:289-294 | a row leaves the catalog only when what it stood for has left the disk |
| `CacheRecovery.BeginOnly` | internal/state/cachestore/eviction.go:82-146 | a claim granted when none is pending is the only one, and not on a pinned entry |
| `CacheRecovery.RelyCalm` | internal/state/cachestore/store.go:113-118 | outside steps neither add claims nor pin claimed entries |
| `CacheRecovery.FinalizeCalm` | internal/state/cachestore/eviction.go:239-294 | nor does finalizing |
| `CacheRecovery.BeginCalm` | internal/cachemanager/quota.go:195-209 | nor, on a settled catalog, claiming, beyond the one new claim |
| `CacheRecovery.PublishSettled` | internal/state/cachestore/store.go:58-102 | publishing on a settled catalog leaves it settled |
| `CacheRecovery.HandoffSettled` | internal/state/cachestore/store.go:226-262 | so does handing out |
| `CacheRecovery.LastClaimSettles` | internal/cachemanager/quota.go:269-295 | carrying out the only claim leaves nothing pending, whatever outside steps do |
| `CacheRecovery.FullListCovers` | internal/cachemanager/quota.go:80-93 | a full list of claims on different rows covers every claim when there are no more rows under claim |
| `CacheRecovery.FewerLeft` | internal/cachemanager/lifecycle.go:43-61 | working off a list of claims lowers the bound on the rows under claim by its length |
| `CacheRecovery.OwnFilesStay` | internal/cachefs/delete.go:84-141 | deleting under one claim leaves the files under another materialization claim its own, source and baseline included |
| `CacheRecovery.DeletingResumes` | internal/cachemanager/quota.go:269-288 | in every world while a claim is being carried out, no claim is new and each can be carried out if it could before |
| `CacheRecovery.FinalizedResumes` | internal/cachemanager/quota.go:289-294 | and in every world after it is finalized |
| `CacheManager.Manager.constructor` | internal/cachemanager/manager.go:39-61 | a start or restart on any consistent world, such as any a crash leaves behind |
| `CacheManager.Manager.Yield` | internal/cachemanager/quota.go:33-58 | any run of outside steps keeps the stores consistent, and calm if they were; every world on the way comes from such steps alone |
| `CacheManager.Manager.WriteDisk` | internal/cachefs/manifest.go:463-527 | one durable disk change; the world it makes is recorded and consistent |
| `CacheManager.Manager.WriteCatalog` | internal/state/cachestore/store.go:678-727 | one transaction; the world it makes is recorded and consistent |
| `CacheManager.Manager.DeleteEntry` | internal/cachefs/delete.go:44-80 | removes manifest then directory, step by step, when the entry is under a claim |
| `CacheManager.Manager.DeleteBlob` | internal/cachefs/delete.go:15-41 | removes a blob file nothing cataloged needs |
| `CacheManager.Manager.DeleteMaterialization` | internal/cachefs/delete.go:84-141 | removes content, manifest and directory, step by step, exactly when the directory is deletable; every world on the way is deletable again with the same identity, and other claims' files are untouched |
| `CacheManager.Manager.Finalize` | internal/state/cachestore/eviction.go:239-294 | finalizes unless the claimed entry is pinned, and leaves blob and entry files alone |
| `CacheManager.Manager.DeleteClaimed` | internal/cachemanager/quota.go:275-288 | deletes entry before blob under a claim, always completing: afterwards exactly the claimed entry directory and, unless the blob is shared, exactly the claimed blob file are gone |
| `CacheManager.Manager.ExecuteEviction` | internal/cachemanager/quota.go:269-295 | completes an entry or blob claim if and only if the claimed entry is not pinned, so always in a calm run, and a materialization claim if and only if its files are the claimed ones; completion means that exactly the claimed files are gone; every world on the way is consistent, adds no claim and keeps every claim as recoverable as it was |
| `CacheManager.Manager.ExecuteClaims` | internal/cachemanager/quota.go:85-92 | carries out listed claims in order up to the first that fails; those done are gone from catalog and disk, none is new, and all are done if each can be carried out |
| `CacheManager.Manager.RecoverPendingEvictions` | internal/cachemanager/quota.go:80-93 | completes if every listed claim can be carried out, and fails when one is on a pinned entry; afterwards the files under every listed claim are gone, and nothing is pending if the list was short or held every row under claim, so always in a calm run |
| `CacheManager.Manager.Claim` | internal/state/cachestore/eviction.go:82-146 | claims a target exactly when the transaction grants it; the claim is not on a pinned entry, and the only one if none was pending |
| `CacheManager.Manager.EvictTargets` | internal/cachemanager/quota.go:195-209 | claims and carries out targets: each is evicted, files and all, or the catalog of some world on the way refuses it; progress means rows are gone, only a materialization can fail, and a calm run ends settled |
| `CacheManager.Manager.Decide` | internal/cachemanager/quota.go:172-194 | one planning round accepts if and only if the catalog can be planned on and the records are cataloged already or fit every limit with it as it is; otherwise it makes room by exactly the targets of a greedy plan, or refuses because planning does or finds nothing to take |
| `CacheManager.Manager.Admit` | internal/cachemanager/quota.go:167-230 | after at most four batches, success means that the records are cataloged already or fit every limit with the catalog as it is, and that nothing is pending in a calm run; it succeeds at once when nothing is pending and they do; failure has one of the reasons the source gives, shown by a world on the way, or as many rows are gone as there were batches |
| `CacheManager.Manager.AdmitBatch` | internal/cachemanager/quota.go:167-209 | one such batch: recover, decide, evict |
| `CacheManager.Manager.AdmitBatches` | internal/cachemanager/quota.go:167-209 | the batches in turn, up to one that settles the matter; each other one removes rows |
| `CacheManager.NormalizeExact` | internal/cachemanager/quota.go:232-260 | normalizing refuses exactly the records that conflict with a cataloged one of the same identifier, and drops exactly those that are cataloged already |
| `CacheManager.AdmissionExact` | internal/cachemanager/quota.go:185-194 | a plan is satisfied without targets if and only if the incoming records fit every limit with the catalog as it is |
| `CacheManager.AdmittedEntry` | internal/cachemanager/quota.go:232-260 | an accepted admission agrees with the catalog on the blob of the entry |
| `CacheManager.Manager.PublishBlob` | internal/cachefs/blob.go:35-150 | stores the bytes or finds them stored, and says which |
| `CacheManager.Manager.PublishEntryManifest` | internal/cachefs/manifest.go:78-118 | links the manifest if and only if the blob is intact and no other manifest is there |
| `CacheManager.Manager.PublishComplete` | internal/cachemanager/manager.go:81-162 | every world of a publication is consistent, also when it deduplicates onto a blob whose pending eviction the admission completes; success means that some world had room for the records and a later one had both cataloged as given, the bytes and the manifest on disk; bytes stored for a publication that is not admitted are removed; a failure after admission is shown by a world that refuses it |
| `CacheManager.Manager.PublishRecords` | internal/cachemanager/manager.go:154-161 | after admission: manifest, then records; a failure means that the blob is not stored, another manifest is in place, or a cataloged row conflicts |
| `CacheManager.LooseAfter` | internal/cachemanager/manager.go:148-153 | a blob stored by a publication that is then not admitted is needed by nothing cataloged, so removing it is safe |
| `CacheManager.Manager.CreateMaterialization` | internal/cachefs/manifest.go:149-314 | copies content and manifest exactly as they should be out of a verified entry, or finds exactly that copy there and changes nothing; any other directory refuses |
| `CacheManager.Manager.PrepareHandoff` | internal/cachemanager/manager.go:250-309 | every world of a handoff is consistent; success means that some world had room for the copy and a later one had materialization, reference and lease cataloged and the exact copy on disk; a failure after admission is shown by a world that refuses it |
| `CacheManager.MaterializedBacked` | internal/state/cachestore/store.go:250-253 | the entry of a cataloged materialization is never under a claim |
| `CacheManager.Manager.PlanQuota` | internal/cachemanager/manager.go:445-451 | accepts if and only if the catalog can be planned on and fits every limit; otherwise gives exactly the targets of a greedy plan, or refuses because planning does or finds nothing to take |
| `CacheManager.Manager.EnforceQuota` | internal/cachemanager/quota.go:110-162 | every world is consistent; success means the catalog fits every limit; failure has one of the reasons the source gives, shown by a world on the way, or as many rows are gone as there were batches |
| `CacheManager.Manager.EnforceBatch` | internal/cachemanager/quota.go:112-152 | one such batch: recover, or else plan and evict; another follows only if rows are gone, and it stalls only if the catalog refused every target |
| `CacheManager.Manager.RecoverAtStartup` | internal/cachemanager/lifecycle.go:43-61 | success means that nothing is being evicted and the files under every claim that was pending are gone; it succeeds whenever each pending claim can be carried out and rounds times the limit cover the rows under claim, and every world on the way meets this too if the first does |
| `CacheManager.RecoveryResumes` | internal/cachemanager/lifecycle.go:43-61 | in every world of a run that resumes, the same rounds are enough if they were at first |
| `CacheManager.Manager.Reconcile` | internal/cachemanager/manager.go:359-443 | the report lists exactly the differences of the two stores |
| `CacheManager.CompareCopies` | internal/cachemanager/manager.go:421-431 | the loop finds exactly the missing materializations and those whose content differs |
| `CacheManager.CopiesListed` | internal/cachemanager/manager.go:421-431 | a cataloged copy is listed as missing if and only if it does not verify, and as dirty if and only if it verifies and its digest or size is not the cataloged one |
| `CacheManager.QuietExact` | internal/cachemanager/manager.go:438-441 | no attention is needed if and only if both stores hold the same verified blobs, entries and copies and every copy has the cataloged digest and size |
| `CacheManager.SettledNothingMissing` | internal/cachemanager/manager.go:401-415 | once nothing is being evicted, no cataloged blob or entry is missing |
| `CacheManager.Manager.RunStartupLifecycle` | internal/cachemanager/lifecycle.go:35-95 | after the recovery the comparison lists no missing blob or entry; if it asks for attention the sequence ends there; success means nothing needs attention and every limit is met |
| `CacheCrowding.PinnedPublishBlocksClaim` | internal/state/cachestore/store.go:79-96 | publishing an entry as pinned while a shared claim on it is pending leaves a claim that cannot be finalized |
| `CacheCrowding.CrowdedRun` | internal/cachemanager/quota.go:167-194 | with any number of shared claims in a consistent, valid world: carrying out all but one leaves a valid catalog that admits the entry of the last as pinned, and publishing it leaves a claim that cannot be finalized |
| `CacheCrowding.OneCarriedOut` | internal/cachemanager/quota.go:269-295 | carrying out one shared claim keeps the catalog valid, the stores consistent and the other claims in force |
| `CacheCrowding.FinalizeValid` | internal/state/cachestore/eviction.go:239-268 | finalizing a shared claim leaves a valid snapshot valid |
| `CacheCrowding.LostForGood` | internal/cachemanager/quota.go:80-93 | after that publication every list of pending claims, whatever its limit, has one on the pinned entry, so every recovery fails |
| `CacheCrowdedWorlds.CrowdedExists` | internal/state/cachestore/eviction.go:82-146 | for every number of claims up to 257, a settled, valid and consistent world in which that many claiming transactions are granted, all as shared claims on intact entries |
| `CacheCrowdedWorlds.NextClaim` | internal/state/cachestore/eviction.go:119-146 | claiming an entry that shares its published blob is granted by a reserved reference |
| `CacheCrowdedWorlds.EveryLimitLosesAClaim` | internal/state/cachestore/store.go:79-96 | for every limit up to 256 there is such a run from a settled, valid catalog: one claim more than the limit, as many carried out as the limit, the last lost |
| `AuthBroker.Broker.constructor` | internal/auth/broker.go:87-96 | a new broker has empty tables |
| `AuthBroker.Broker.NotifyLocked` | internal/auth/broker.go:306-309 | moves on to the next notification generation |
| `AuthBroker.Broker.DeleteChallengeLocked` | internal/auth/broker.go:311-319 | drops the challenge and cuts its first occurrence out of the order list |
| `AuthBroker.Broker.BeginAttempt` | internal/auth/broker.go:98-127 | starts an attempt with the earlier of timeout and caller deadline, exactly when the call is not cancelled, endpoint and timeout are given, and a token could be drawn that is not taken |
| `AuthBroker.Deadline` | internal/auth/broker.go:109-110 | the deadline is at most the timeout away and at most that of the caller, and is one of the two |
| `AuthBroker.Broker.OpenChallenge` | internal/auth/broker.go:144-178 | opens a challenge at the end of the order, or fails with the first error that applies and changes nothing |
| `AuthBroker.Broker.TryClaim` | internal/auth/broker.go:201-216 | one pass of a claim shows the challenge held, takes and shows the first unowned one, or finds nothing |
| `AuthBroker.Broker.ResolveChallenge` | internal/auth/broker.go:227-243 | removes the challenge of its owner and yields the result for its prompt, or fails and changes nothing |
| `AuthBroker.Broker.DetachOwner` | internal/auth/broker.go:253-269 | releases what the owner holds, and notifies only if that was something |
| `AuthBroker.Broker.DropChallenges` | internal/auth/broker.go:279-285 | drops exactly the challenges of the attempt, whatever the table order |
| `AuthBroker.Broker.CloseAttempt` | internal/auth/broker.go:271-295 | ends the attempt and yields exactly its challenges for their results |
| `AuthBroker.Broker.AbandonChallenge` | internal/auth/broker.go:297-304 | removes the challenge under that identifier, if any |
| `AuthBrokerInvariant.OpenKeeps` | internal/auth/broker.go:144-178 | opening keeps the order list duplicate-free, complete and in creation order, attempts live, owners unique and prompts within the limit |
| `AuthBrokerInvariant.ClaimKeeps` | internal/auth/broker.go:192-225 | so does claiming |
| `AuthBrokerInvariant.DetachKeeps` | internal/auth/broker.go:253-269 | so does detaching |
| `AuthBrokerInvariant.CloseKeeps` | internal/auth/broker.go:271-295 | so does closing an attempt |
| `AuthBrokerInvariant.DeleteKeeps` | internal/auth/broker.go:311-319 | so does deleting a challenge |
| `AuthBrokerInvariant.ClaimIsFirstCome` | internal/auth/broker.go:208-216 | a claim takes the earliest unowned challenge in creation order |
| `AuthBrokerInvariant.DetachKeepsPlaces` | internal/auth/broker.go:253-269 | a detached challenge keeps its place; only owners change |
| `AuthSystem.StepKeeps` | internal/auth/broker.go:144-319 | every event of broker, prompts, sends and claims keeps the invariant |
| `AuthSystem.RunKeeps` | internal/auth/broker.go:144-319 | the invariant holds over every interleaving |
| `AuthSystem.RunSafe` | internal/auth/broker.go:192-319 | in every run, a claim waiting on the current notification has nothing to claim, no challenge is removed twice or gets two results, the order list is duplicate-free and complete, live challenges belong to live attempts and stay within the prompt limit, and each owner holds at most one |
| `AuthSystem.TookStep` | internal/auth/broker.go:208-216 | taking a challenge strands nobody who waits on the current notification |
| `AuthSystem.SendNeverBlocks` | internal/auth/broker.go:245-250 | the slot of a result channel is free whenever a send is under way |
| `AuthSystem.OpeningIsSafeWhenFresh` | internal/auth/broker.go:182-189 | opening a prompt leaves every prompt served in all continuations without openings if and only if no running prompt has the same identifier |
| `AuthSystem.StrandedRun` | internal/auth/broker.go:297-304 | a run in which a prompt waits for a result that nobody will send |
| `AuthAnswers.EveryRunAnswers` | internal/auth/broker.go:144-250 | over every interleaving, every claim showed the identifier, prompt and kind some prompt call opened, with endpoint and deadline of its attempt; and whatever a prompt call got, the owner of its challenge, who was shown what it asked, answered or cancelled it so, or its attempt has ended |
| `AuthAnswers.ReceivedMeansReturned` | internal/auth/broker.go:180-190 | every result taken out of a channel says something, and the prompt call returns it |
| `AuthAnswers.ChallengesFrom` | internal/auth/broker.go:144-319 | no event changes what is shown of a challenge; new ones show what their prompt call and attempt say |
| `AuthAnswers.TraceIsRun` | internal/auth/broker.go:144-319 | the traced runs are exactly the runs of the broker |
| `EndpointTable.ProviderSessions.constructor` | internal/daemon/provider_router.go:112-149 | base endpoints are permanent and none is dynamic |
| `EndpointTable.ProviderSessions.DynamicEndpointCount` | internal/daemon/provider_router.go:718-726 | the loop counts exactly the endpoints that are not permanent |
| `EndpointTable.ProviderSessions.RetainIfPresent` | internal/daemon/provider_router.go:645-660 | joins a lease of the same identity, refuses another identity, or reports absence and capacity |
| `EndpointTable.ProviderSessions.RegisterConnected` | internal/daemon/provider_router.go:675-701 | with a provider connected meanwhile: joins, registers it if there is room, or rejects it |
| `EndpointTable.ProviderSessions.AttachSession` | internal/daemon/provider_router.go:704-716 | registers a session endpoint exactly when it is new and there is room |
| `EndpointTable.ProviderSessions.ReleaseHold` | internal/daemon/provider_router.go:743-768 | gives up one hold, and the lease and its provider with the last |
| `EndpointTable.ProviderSessions.RetainEndpoint` | internal/daemon/provider_router.go:645-702 | succeeds if and only if the endpoint is there as described, or there is room and the connector yields it as described; adds exactly one job hold or changes nothing; every provider connected is in the table afterwards or handed back to be closed |
| `EndpointTable.ProviderSessions.Acquire` | internal/daemon/provider_router.go:620-643 | succeeds if and only if both endpoints can be retained, the second beside the first; holds each endpoint of a transfer once, or leaves all holds as they were; the providers of the table and those to close are those of the former table and those connected, each as often |
| `EndpointTable.RollbackRestores` | internal/daemon/provider_router.go:627-632 | releasing what a failed acquire retained restores the leases |
| `EndpointTable.Rollback` | internal/daemon/provider_router.go:628-630 | giving the first hold back restores the providers of the table and yields for closing exactly what was connected for it |
| `EndpointTable.ReleaseProviders` | internal/daemon/provider_router.go:743-768 | a release moves the provider of the lease it ends to those to close, and no other |
| `EndpointTable.ClosedAreGone` | internal/daemon/provider_router.go:762-765 | a new provider that is to be closed is in no lease of the table, and is closed once |
| `EndpointSystem.InitialHolds` | internal/daemon/provider_router.go:112-149 | the start satisfies the invariant |
| `EndpointSystem.InsertKeeps` | internal/daemon/provider_router.go:692-701 | registering keeps counters, limit and providers right |
| `EndpointSystem.TakeOffKeeps` | internal/daemon/provider_router.go:743-768 | releasing keeps counters, limit and providers right |
| `EndpointSystem.FinishStep` | internal/daemon/provider_router.go:675-701 | so does the second look of a retain |
| `EndpointSystem.AttachStep` | internal/daemon/provider_router.go:520-543 | so does the attach of a session |
| `EndpointSystem.StepKeeps` | internal/daemon/provider_router.go:506-768 | every event keeps the invariant: counters are the outstanding holds, a dynamic endpoint is in the table exactly while held, the limit holds, every provider is in the table, in hand or given to one close |
| `EndpointSystem.RunKeeps` | internal/daemon/provider_router.go:506-768 | the invariant holds over every interleaving |
| `EndpointSystem.NeverClosedWhileHeld` | internal/daemon/provider_router.go:743-768 | no provider is closed twice, and none while its endpoint is held |
| `EndpointSystem.QuietMeansClosed` | internal/daemon/provider_router.go:743-768 | when nothing is held or under way, no dynamic endpoint is left and every other provider has been closed exactly once |
| `EndpointSystem.RunSafe` | internal/daemon/provider_router.go:506-768 | over every run from a table of base endpoints, every hold is on an endpoint whose provider is not closed or closing, no provider is closed twice, the counters of a dynamic endpoint are its holds, the limit holds, and once all is let go every provider outside the table has been closed |
| `SearchTables.ChecksAgree` | internal/daemon/search_router.go:55-63 | the check after the start answers like the one before, except for a filename search whose request is active as a content search; both let the same requests pass |
| `SearchTables.ContentDuplicateReportedAsLimit` | internal/daemon/search_router.go:55-63 | a filename start reports a full table that is not full for such a request |
| `SearchTables.SearchSession.MayStart` | internal/daemon/search_router.go:26-42 | the first check, in the order closed, duplicate, full |
| `SearchTables.SearchSession.RegisterFilename` | internal/daemon/search_router.go:50-66 | registers a filename cursor exactly when the second check passes |
| `SearchTables.SearchSession.RegisterContent` | internal/daemon/content_search_router.go:47-63 | registers a content cursor exactly when the second check passes |
| `SearchTables.SearchSession.Finish` | internal/daemon/search_router.go:115-122 | removes the cursor only if it is still the one under its request |
| `SearchTables.SearchSession.Close` | internal/daemon/provider_router.go:385-423 | empties both tables and hands over exactly their cursors to be drained |
| `SearchTables.Cursor.NextPage` | internal/daemon/search_router.go:88-114 | the pages put together are a prefix of the stream, within the limit, up to the terminal event |
| `SearchTables.Cursor.Drain` | internal/daemon/search_router.go:159-163 | draining takes the rest and delivers nothing |
| `SearchSystem.StepKeeps` | internal/daemon/search_router.go:26-124 | every event keeps the tables disjoint, at most four cursors, none after close, and each started stream in exactly one place |
| `SearchSystem.RunKeeps` | internal/daemon/content_search_router.go:25-120 | the invariant holds over every interleaving |
| `SearchSystem.ClosedMeansDrained` | internal/daemon/provider_router.go:385-423 | after close every started stream has been drained or read to its end, exactly once |
| `SearchSystem.RunSafe` | internal/daemon/search_router.go:26-124 | over every run from the start, the tables share no request and hold at most four cursors, no stream is drained or retired twice or while registered, and after close each has been exactly once |
| `SearchSystem.ContentDuplicateRun` | internal/daemon/search_router.go:26-66 | a run of two starts in which the filename start passes its first check and its second one reports a full table that holds one cursor |
| `SearchPaging.ReceivedFits` | internal/daemon/search_router.go:88-114 | the event a page receives is the next one of its stream |
| `SearchPaging.FinishMove` | internal/daemon/search_router.go:115-124 | a cursor leaves the table only when everything its stream emitted has been answered |
| `SearchPaging.MoveKeeps` | internal/daemon/search_router.go:88-124 | every move of calls, locks, pages and drains keeps what has been read of each stream its beginning |
| `SearchPaging.PagesAreAPrefix` | internal/daemon/provider_router.go:405-417 | in every interleaving, also with a close that drains, the pages answered for a stream put together are a prefix of its events, only the last of them can be terminal, and a stream that left the table at its end was answered in full |
| `CommandCapture.Ring.Write` | internal/commandrun/local.go:170-177 | the ring holds the latest bytes after any data |
| `CommandCapture.PutHolds` | internal/commandrun/local.go:170-177 | one byte in keeps the buffer equal to the end of the stream |
| `CommandCapture.Ring.Snapshot` | internal/commandrun/local.go:179-190 | data and discard count are the end of the stream and the exact rest if and only if fewer than 2 to the 64th bytes were written |
| `CommandCapture.MarkerGate.Write` | internal/commandrun/remote.go:459-485 | for any chunk the gate has let through and announced what the whole stream so far determines, at most once |
| `CommandCapture.MarkerGate.TakeReady` | internal/commandrun/remote.go:491-497 | receives the announcement once |
| `CommandCapture.MarkerGate.FinishEOF` | internal/commandrun/remote.go:487-502 | an undecided gate gives its bytes to the ring and fails |
| `CommandCapture.GateStaysOpen` | internal/commandrun/remote.go:463-466 | once decided, further output goes to the ring unchanged |
| `CommandCapture.CaptureStream` | internal/commandrun/remote.go:459-502 | for every chunking, outcome, retained bytes and discard count are functions of the whole stream |
| `CommandCapture.DiagnosticBuffer.Write` | internal/commandrun/remote.go:510-526 | keeps the first 32768 bytes of the stream and counts the rest modulo 2 to the 64th |
| `CommandCapture.WriteCount` | internal/commandrun/remote.go:421-437 | the count is exactly the prefix accepted, and success means everything |
| `ShellQuoting.QuoteRoundTrip` | internal/commandrun/remote.go:168-170 | the scanner reads the quoted form as the value and goes on unquoted with the text that follows |
| `ShellQuoting.QuoteReadsBack` | internal/commandrun/remote.go:168-170 | before a blank it reads back as one word if and only if the value has no NUL |
| `ShellQuoting.BootstrapChangesToPath` | internal/commandrun/remote.go:156-165 | in every bootstrap the shell reads the argument of cd as exactly the path |
| `YamlText.SanitizeLine` | internal/docscheck/workflow_policy.go:419-475 | the scanning loop cuts the comment, or refuses open quotes, expressions and brackets |
| `YamlText.CommentCut` | internal/docscheck/workflow_policy.go:450-458 | a blank, a number sign and any text after a line that passes whole are cut, whatever the line holds |
| `YamlSpelling.BracketRefused` | internal/docscheck/workflow_policy.go:459-475 | a bracket left open and one closed by the wrong one are refused |
| `YamlSpelling.QuoteRefused` | internal/docscheck/workflow_policy.go:424-444 | a single quote left open is refused |
| `YamlText.SplitLine` | internal/docscheck/workflow_policy.go:477-525 | the scanning loop splits at the colon that ends the key |
| `YamlText.ReadSingleQuoted` | internal/docscheck/workflow_policy.go:708-725 | the reading loop undoubles quotes and stops just past the closing one |
| `YamlText.UnsafeByPosition` | internal/docscheck/workflow_policy.go:750-770 | a scalar is refused if and only if an expression in it stays open or, outside its expressions, a field begins with an anchor, alias or tag mark |
| `YamlFlowParser.FlowParser.SkipSpace` | internal/docscheck/workflow_policy.go:702-706 | moves to the first character that is not blank |
| `YamlFlowParser.FlowParser.DoubleEnd` | internal/docscheck/workflow_policy.go:726-743 | finds the closing quote of a double-quoted literal |
| `YamlFlowParser.FlowParser.QuotedScalar` | internal/docscheck/workflow_policy.go:708-744 | reads a quoted scalar and stops just past it |
| `YamlFlowParser.FlowParser.PlainValue` | internal/docscheck/workflow_policy.go:596-614 | reads a plain scalar up to a stop character outside expressions, refusing empty and unsafe ones |
| `YamlFlowParser.FlowParser.Value` | internal/docscheck/workflow_policy.go:570-615 | parses a value as the recursive reader on the remaining text does |
| `YamlFlowParser.FlowParser.OneEntry` | internal/docscheck/workflow_policy.go:630-658 | reads one key and value, refusing empty, unsafe and repeated keys |
| `YamlFlowParser.FlowParser.MappingValue` | internal/docscheck/workflow_policy.go:617-671 | parses a flow mapping as the recursive reader does |
| `YamlFlowParser.FlowParser.Key` | internal/docscheck/workflow_policy.go:630-643 | reads a key up to its colon |
| `YamlFlowParser.FlowParser.SequenceValue` | internal/docscheck/workflow_policy.go:673-700 | parses a flow sequence as the recursive reader does |
| `YamlFlow.ParseValueSafe` | internal/docscheck/workflow_policy.go:570-671 | every mapping in a flow value has distinct keys, none of them a merge key, with an open expression or with a field that begins with a mark; no plain scalar has either |
| `YamlFlow.ParseEntriesSafe` | internal/docscheck/workflow_policy.go:617-671 | the same for the rest of a flow mapping |
| `YamlFlow.PolicyValueSafe` | internal/docscheck/workflow_policy.go:550-568 | the same for a value on a line, but for shell text |
| `YamlFlow.PlainValueExact` | internal/docscheck/workflow_policy.go:550-568 | a value reads as a plain scalar if and only if its trimmed text begins with no bracket and no quote and is shell text or safe, and then as exactly that text |
| `YamlFlow.FirstMatchIsOnly` | internal/docscheck/workflow_policy.go:980-990 | in an accepted tree the first match for a name is the only match |
| `YamlBlock.Block` | internal/docscheck/workflow_policy.go:160-176 | a block ends at or after the line it starts on; the recursion ends because each nested block starts past a consumed line |
| `YamlBlock.BlockConsumes` | internal/docscheck/workflow_policy.go:160-176 | a block that parses consumes at least one line |
| `YamlBlock.EntriesSafe` | internal/docscheck/workflow_policy.go:178-218 | block mappings have distinct, safe keys |
| `YamlBlock.ItemsSafe` | internal/docscheck/workflow_policy.go:220-276 | so have mappings inside block sequences |
| `YamlBlock.ItemEntriesSafe` | internal/docscheck/workflow_policy.go:278-327 | and mappings begun on the line of a dash |
| `YamlBlock.DocumentSafe` | internal/docscheck/workflow_policy.go:134-158 | every mapping of an accepted document has distinct, safe keys, every plain scalar is safe, and only the value of a run key is shell text or block text |
| `YamlBlockParser.BlockParser.PeekSignificant` | internal/docscheck/workflow_policy.go:397-417 | finds the next line that says something, its indentation and text |
| `YamlBlockParser.BlockParser.ParseBlock` | internal/docscheck/workflow_policy.go:160-176 | parses a block as specified on the lines from the index |
| `YamlBlockParser.BlockParser.ParseBlockMapping` | internal/docscheck/workflow_policy.go:178-218 | parses a block mapping as specified |
| `YamlBlockParser.BlockParser.ParseBlockSequence` | internal/docscheck/workflow_policy.go:220-276 | parses a block sequence as specified |
| `YamlBlockParser.BlockParser.ParseItem` | internal/docscheck/workflow_policy.go:240-273 | parses one item as specified |
| `YamlBlockParser.BlockParser.ParseSequenceMappingItem` | internal/docscheck/workflow_policy.go:278-327 | parses a mapping begun after a dash as specified |
| `YamlBlockParser.BlockParser.AppendEntry` | internal/docscheck/workflow_policy.go:281-299 | adds an entry unless its key is unreadable, unsafe or taken |
| `YamlBlockParser.BlockParser.ParseMappingValue` | internal/docscheck/workflow_policy.go:329-348 | reads the value after a key as specified |
| `YamlBlockParser.BlockParser.ParseNested` | internal/docscheck/workflow_policy.go:340-347 | reads a block indented more than its parent, or nothing |
| `YamlBlockParser.BlockParser.ParseRunBlockScalar` | internal/docscheck/workflow_policy.go:350-395 | reads a block scalar up to the first line not indented more, cut by the least indentation |
| `YamlBlockParser.ReadPolicyValue` | internal/docscheck/workflow_policy.go:550-568 | reads a value, all of it; what it reads is fixed by LineRoundTrip |
| `YamlBlockParser.ParsePolicyYaml` | internal/docscheck/workflow_policy.go:134-158 | reads a document with no line left over; an accepted tree is safe in that sense; what it reads is fixed by DocumentOfBlock |
| `YamlSpelling.PlainReadsBack` | internal/docscheck/workflow_policy.go:596-614 | plain text inside brackets with no stop character outside its expressions reads as exactly itself if and only if it has no white space at its ends and no mark |
| `YamlSpelling.ReadQuotedBack` | internal/docscheck/workflow_policy.go:708-744 | a single-quoted scalar, or a double-quoted literal that stands for a value, reads as exactly the value |
| `YamlSpelling.KeyReads` | internal/docscheck/workflow_policy.go:630-643 | a plain, single-quoted or double-quoted key inside brackets reads as exactly the key |
| `YamlSpelling.KeyDecodes` | internal/docscheck/workflow_policy.go:538-548 | so does the key of a line |
| `YamlSpelling.SanitizesSpelled` | internal/docscheck/workflow_policy.go:419-475 | such scalars and keys pass the sanitizer whole, in any brackets |
| `YamlSpelling.SplitsKey` | internal/docscheck/workflow_policy.go:477-525 | the splitter stops at the colon after a key and at none inside it |
| `YamlRoundTrip.ParsesBack` | internal/docscheck/workflow_policy.go:570-700 | flow text written from a tree of plain and quoted scalars parses back to exactly that tree and stops exactly at the text that follows |
| `YamlRoundTrip.SanitizesValue` | internal/docscheck/workflow_policy.go:419-475 | that text passes the sanitizer whole, with brackets balanced |
| `YamlRoundTrip.LineRoundTrip` | internal/docscheck/workflow_policy.go:419-744 | a line of a plain or quoted key and a plain scalar or flow text passes the sanitizer unchanged, splits at the right colon and reads back as exactly that key and value, with all input consumed |
| `YamlRoundTrip.SmoothFills` | internal/docscheck/workflow_policy.go:419-475 | text without quote, bracket or comment outside its expressions passes the sanitizer whole |
| `YamlRoundTrip.ValueReadsBack` | internal/docscheck/workflow_policy.go:550-568 | a plain scalar that fills its line and begins with no bracket or quote reads as exactly its text; other values read back as their tree |
| `YamlRoundTrip.DocumentOfLine` | internal/docscheck/workflow_policy.go:134-158 | a document of one such line is the mapping with that one entry |
| `YamlRunText.RunTextBack` | internal/docscheck/workflow_policy.go:365-395 | indented text, cut by its least indentation and joined, is the value, with its line breaks folded to blanks under a folding indicator, if no line is white space alone or ends in a carriage return and some line starts at the margin |
| `YamlRunText.RunBack` | internal/docscheck/workflow_policy.go:329-395 | the value after a run key and any of the six indicators is read back from the lines below it, up to the first line not indented more |
| `YamlBlockRoundTrip.IndentedReads` | internal/docscheck/workflow_policy.go:397-417 | an indented line that passes the sanitizer is read as its indentation and text |
| `YamlBlockRoundTrip.CommentIgnored` | internal/docscheck/workflow_policy.go:397-417 | a comment after a blank changes nothing about how a line is read |
| `YamlBlockRoundTrip.EntriesBlockBack` | internal/docscheck/workflow_policy.go:178-218 | the lines written for the entries of a mapping are read back as those entries, by the mapping reader and by that of a mapping begun after a dash |
| `YamlBlockRoundTrip.ItemsBlockBack` | internal/docscheck/workflow_policy.go:220-276 | the same for the items of a sequence |
| `YamlBlockRoundTrip.CompactBack` | internal/docscheck/workflow_policy.go:240-327 | a mapping begun on the line of its dash is read back |
| `YamlBlockRoundTrip.DocumentOfBlock` | internal/docscheck/workflow_policy.go:134-176 | a tree of plain, single-quoted and double-quoted scalars written in block style, with plain or quoted keys and two more spaces per level, is read back as that tree, however deeply its mappings and sequences are nested, whichever items begin on the line of their dash, and with the block text of its run keys |
| `YamlBlockRoundTrip.MisplacedRefused` | internal/docscheck/workflow_policy.go:178-218 | after an entry whose value is on its line, a line indented more and an item are refused |
| `YamlBlockRoundTrip.RepeatedKeyRefused` | internal/docscheck/workflow_policy.go:196-206 | a key that is there already is refused, plain or quoted |

## Left out

- Hashes, file modes, ownership, link counts, inodes and fsync: a file has a stamp for its strict identity and a flag for the privacy checks; a digest has one content size.
- SQLite: each catalog transaction is one atomic change of the tables, row order is not modelled, and the identifier of an eviction reference is a prefix of the entry identifier instead of a hash of it.
- Edit sessions, job retention claims and the tables behind them.
- Names outside the enumerated states, kinds and policies: they are datatypes here, so the source's checks for unknown names have no counterpart.
- Clearing the cache on request, explicit lease release, and classification by process alone.
- Truncated scans: the comparison of the two stores sees the whole disk and reports sets of identifiers, not sorted lists; orphans, unknown files and links are not modelled.
- Texts of errors and line numbers in the policy reader.
- Contexts, timeouts and clocks: an expired or interrupted call is a parameter or an event that may come at any time.
- What the string library makes of a double-quoted literal: any function, as a parameter.
- Control characters, redaction and UTF-8 repair in diagnostics.
- The terminal interface, spawning of the daemon, process control, configuration and command line.
- The policy rules checked on a workflow tree after it is read.
- CacheOutside.OutsideRelies: requests that do not match the catalog do nothing, and the owner checks of a release are looser than the source's, so the model allows more outside steps than there are; an owner's edit reaches only a copy that is there, cataloged and not being deleted.
- CacheManager.Manager.RecoverPendingEvictions: a materialization claim whose manifest names another source than its row may succeed or fail, because outside steps decide about that source.
- CacheManager.Manager.CreateMaterialization: content is written in one step, without its staging files and without the last look at the finished copy.
- CacheManager.Manager.Reconcile: sees the whole disk, so a truncated scan, orphans, unknown files and links are not in its report.
- CacheManager.Manager.RunStartupLifecycle: the bound on visited files is left out with truncated scans.
- CommandCapture.MarkerGate.Write: no output comes after the end of output.
- YamlText.ReadSingleQuoted: covers the single-quoted half; the double-quoted half finds the closing quote and leaves the value to a parameter.
- YamlRoundTrip.ParsesBack: plain scalars inside brackets that hold quotes or brackets of their own are left out of the trees it writes; YamlSpelling.PlainReadsBack covers how they are parsed.
