# Verified models of the gateway's release and operations code

This project models, in Dafny 4.11, the parts of the LLM gateway repository on
which a release or an installation depends, and proves what they promise. Check
it with `dafny verify dfyconfig.toml`.

## What is modelled

**The container-image auditor** (`Image*.dfy`). An image archive is a list of
layers; each layer is replayed into one path table (whiteouts first, then
writes), every byte stream is searched for sentinels in bounded memory, and
links are resolved component by component. The replay is proved equal to a
top-down overlay lookup in the sense of the OCI Image Format Specification,
"Image Layer Filesystem Changeset", the search to occurrence in the whole
stream, and the resolver to pathname resolution in the sense of IEEE Std
1003.1-2017, XBD section 4.13. What an accepted image guarantees is then stated
about its layers: the tree of an image is the one that shows exactly their
surviving writes, and the target of a link is the linkname of the archive member
that made it.

**The offline systemd migration** (`Migration*.dfy`, `NameOrder.dfy`). A planner
reads a file system and an applier publishes files in stages, each by copying to
a made-up name and linking that to its target. The host may fail any call and
other processes may create files at any time. The browser cache is the last
stage of the same run: inventory, staging, publication, and planning again. The
results are about whole runs, with the cache in them: the frame, no overwriting,
every write in a directory that is there, convergence, a run that stops, is
planned again and ends as a direct run does, and exactly where inside one copy or
backup a kill can be survived.

**The configuration publisher** (`Config*.dfy`). A protocol of system calls
(temporary file, write, metadata, sync, freeze, rename without replacing,
directory sync, verification) on a kernel that consumes a schedule: each call
may raise an OSError, another exception or an interrupt, before or after its
effect, may be cut short, and may find that other processes changed the
directory. All statements hold for every schedule.

**Dependency locks** (`Lock*.dfy`). The line machine of the lock parser against
a grammar of blocks, from the text of the lines to the pins and hashes and back,
and the four comparisons between locks against the consistency they are for.

**The strict HTML scanner** (`Html*.dfy`, `InventoryExemptions.dfy`). A stack
machine with recovery against document trees, and the exemptions that excuse
findings.

**Lifespan and cancellation** (`Cancellation.dfy`, `Lifespan.dfy`,
`LifespanRun.dfy`), and **the readiness gate** (`Readiness.dfy`). Two waits that
finish their task before a cancellation gets through, the resource stack for
every failure point of the startup and every order of wakes of the drain's wait,
the state binding and the owner marker, and the bounded retry loop.

Code that works step by step is modelled by classes and methods with loops
(`PathTable`, `Host`, `CacheHost`, `Kernel`, `OwnedFd`, `LockMachine`,
`Scanner`, `ExitStack`, `StateBinding`, `Environment`); each is proved against a
specification, and lemmas state what that specification means.

## Where the code falls short of its promise

Each of these is proved: the exact condition, and a case the code can receive.

- A link cycle is reported by "this link was visited before", not by "this link
  is met inside its own expansion", so a finite resolution can be rejected:
  `ImageLoops.FalseAlarms` says exactly when. In
  `ImageFalseAlarm.FalseAlarmExample` the interpreter's link leads to a
  root-owned executable and the table is refused. No endless resolution is ever
  accepted.
- A cache whose encoded manifest is over 16 MiB is published, then rejected by
  its own validation, and makes every later plan fail
  (`MigrationCachePublish.OversizedBlocks`, `MigrationOutcome.WholeReplan`);
  `MigrationCacheExamples.OversizedCache` is such a cache, for every encoding
  that spends a byte or more on each file.
- A cache source with a backslash in a file name is planned, and the copy then
  always fails (`MigrationCachePublish.CopyCache`: it publishes if and only if
  all names are safe; `MigrationCacheExamples.BackslashCache` is one file).
- A kill inside one copy leaves a made-up name. It blocks every later plan in
  the state root, and nowhere else; a kill between link and unlink always blocks
  (`MigrationCrash.StoppedCopyResumable`, and `MigrationCrashExample.KilledCopyBlocks`
  on a small installation). A kill inside one database backup always blocks,
  because its staging directory is in the state root to the last step
  (`MigrationCrash.StoppedBackupResumable`).
- `target-file-cleanup-failed` can never be reported, because a temporary file
  that is still there always comes with an earlier error
  (`ConfigPublication.PublishCopy`).
- The source directory's descriptor stays open if and only if there is a target
  descriptor whose close raises something that is not an OSError, or its own close
  is interrupted before it is done; the target's stays open if and only if its
  close is interrupted before it is done (`ConfigInit.Initialize`).
  `ConfigInit.InterruptedClose` and `ConfigInit.InterruptedSourceClose` are such
  runs. Any other descriptor stays open if and only if an interrupt came just
  after it was opened or just before it was closed.
- If the wait for the drain is interrupted before the drain is done, the lifespan
  gives its marker back while cleanups are pending, the lease among them, and only
  then (`LifespanRun.PendingMeans`); `LifespanRun.InterruptedDrain` is such a run.
- Four startup steps can fail and leave a created resource unregistered
  (`LifespanRun.LeftBehindExactly`).

## Model

| member | source | states |
|---|---|---|
| ImagePaths.SplitJoin | scripts/check_container_image.py:262-271 | splitting at slashes inverts joining, for components without slashes |
| ImagePaths.JoinSplit | scripts/check_container_image.py:262-271 | joining inverts splitting, for every text |
| ImagePaths.JoinInjective | scripts/check_container_image.py:592 | two lists of components have one joined key only if they are the same list |
| ImagePaths.BeneathIsPrefix | scripts/check_container_image.py:274-275 | the text test for lying beneath a root is the prefix relation of components |
| ImagePaths.NormalizedIsPlain | scripts/check_container_image.py:262-271 | an accepted member path has only plain components and is a fixed point of the normalization |
| ImagePaths.PartsConcat | scripts/check_container_image.py:579 | the components of two texts joined by a slash are those of the one, then those of the other |
| ImageSearch.WindowSuffices | scripts/check_container_image.py:361-369 | a tail of length minus one bytes is enough to see every occurrence that the next chunk completes |
| ImageSearch.ShorterTailMisses | scripts/check_container_image.py:361 | one byte less is not enough |
| ImageSearch.ContainsSentinel | scripts/check_container_image.py:357-370 | for every cut into chunks: found if and only if some sentinel occurs in the whole stream; size and digest are those of the whole stream |
| ImageOverlay.ReplayIsTopDown | scripts/check_container_image.py:396-453 | the bottom-up replay of any layers equals, at every path, the lookup from the top layer down |
| ImageOverlay.ReplayHoldsSurvivors | scripts/check_container_image.py:396-453 | a path holds an entry if and only if it is a write that no later write of its layer, no later layer's whiteout and no later non-directory above it removes |
| ImageOverlay.SurvivorUnique | scripts/check_container_image.py:437-453 | at most one write to a path survives |
| ImageOverlay.MarkerOrderIrrelevant | scripts/check_container_image.py:437-448 | where whiteouts stand in the tar order, and how often, does not matter |
| ImageOverlay.KeysWereWritten | scripts/check_container_image.py:450-453 | every entry of the table was written, under its path, by some layer |
| ImageLinks.ResolveRuntimePath | scripts/check_container_image.py:575-606 | the loop ends on every table and path and returns the entry of the specified resolution, or its error |
| ImageLinks.ResolveMeans | scripts/check_container_image.py:582-605 | every result of the loop is explained by a number of small steps of the reference walk |
| ImageLinks.ResolverDecides | scripts/check_container_image.py:575-606 | it finds a place, reports a dynamic root, or reports a cycle if and only if the reference walk arrives there, escapes, or expands a link twice |
| ImageLinks.DivergenceIsReported | scripts/check_container_image.py:598-600 | if the reference walk never ends a cycle is reported |
| ImageLinks.FoundIsSettled | scripts/check_container_image.py:591-597 | no prefix of a found place is a link or lies beneath a dynamic root |
| ImageLinks.NormalizedTargetParts | scripts/check_container_image.py:315-324 | a normalized target has the components of the archived one, after those of the link's directory if it was relative |
| ImageLinks.NormalizedWalkIsPosix | scripts/check_container_image.py:315-324 | resolving the normalized absolute targets ends and diverges exactly as POSIX resolution of the archived targets does |
| ImageLoops.LoopsMeansDivergence | scripts/check_container_image.py:598-605 | resolution runs forever if and only if some link is met inside its own expansion |
| ImageLoops.FalseAlarms | scripts/check_container_image.py:598-600 | a cycle report is wrong if and only if a link is expanded twice but never inside its own expansion |
| ImageLoops.RealLoopsAreReported | scripts/check_container_image.py:598-600 | every real loop is reported |
| ImageLoops.FalseAlarmShape | scripts/check_container_image.py:598-605 | a family of two links for which a finite resolution is reported as a cycle |
| ImageLoops.EnterLink | scripts/check_container_image.py:582-605 | a link that lies in plain directories is resolved as what it points to |
| ImageFalseAlarm.FalseAlarmExample | scripts/check_container_image.py:609-637 | a table refused for its interpreter's link alone, which by POSIX resolution leads to a root-owned executable |
| ImageContract.PayloadTakesAny | scripts/check_container_image.py:743-747 | the payload sum does not depend on the order of the entries |
| ImageContract.AppPayload | scripts/check_container_image.py:743-747 | sums the sizes of exactly the application's files |
| ImageContract.ValidatePermissions | scripts/check_container_image.py:609-637 | accepts if and only if every tracked entry meets its ownership, mode and kind rule and every tracked link resolves |
| ImageContract.ValidateRequiredEntries | scripts/check_container_image.py:534-562 | accepts if and only if every required directory, file and executable is there and the interpreter resolves to a root-owned executable |
| ImageAllowlist.AncestorsListed | scripts/check_container_image.py:223-229 | the walk upwards succeeds if and only if every ancestor is listed as a directory |
| ImageAllowlist.LoadExactSourceAllowlist | scripts/check_container_image.py:175-233 | it succeeds if and only if every source line is glob-free, clean, unique, of the kind in the checkout and followed by its guard, and the lines are closed under parents and roots; the error is that of the first line that is not |
| ImageAudit.ScanMember | scripts/check_container_image.py:373-435 | one member's verdict, in the order of the checks |
| ImageAudit.PathTable.DeletePath | scripts/check_container_image.py:338-342 | removes the path and everything beneath it, nothing else |
| ImageAudit.PathTable.Hide | scripts/check_container_image.py:439-448 | applies one whiteout, opaque or not |
| ImageAudit.PathTable.ScanLayer | scripts/check_container_image.py:396-453 | a clean layer updates the table as one overlay layer; any other layer leaves it as it was and reports its first problem |
| ImageAudit.ValidateTable | scripts/check_container_image.py:740-749 | the checks on the final table accept if and only if all contracts hold |
| ImageAudit.InspectLayers | scripts/check_container_image.py:731-749 | an image is accepted if and only if every member of every layer is clean and the overlay of the layers meets the contract |
| ImageAccepted.TableFacts | scripts/check_container_image.py:419-435 | every key of an image with clean layers is a plain path, and allowed if it lies in the application |
| ImageAccepted.ApplicationTreeIsAllowlist | scripts/check_container_image.py:282-312 | outside the fixed paths the application tree of an accepted image is exactly the allowlist, with its kinds and without forbidden parts |
| ImageAccepted.EveryLayerIsClean | scripts/check_container_image.py:409-423 | every member of every layer, even one hidden later, had no sentinel and, in the application, an allowed path |
| ImageAccepted.ReplayIsSurvivors | scripts/check_container_image.py:396-453 | a table holds exactly the surviving writes of the layers if and only if it is the replayed one |
| ImageAccepted.ImageIsSurvivors | scripts/check_container_image.py:396-453 | so the image's tree is determined by the layers alone |
| ImageAccepted.ArchivedTargetUnique | scripts/check_container_image.py:425-435 | a link has one archived target: no two members make the surviving write |
| ImageAccepted.ArchivedTargets | scripts/check_container_image.py:425-435 | every link of the image has the linkname of the archive member that made its surviving write, these are all of its archived targets, and they normalize to the recorded ones |
| ImageAccepted.ProtectedLinksLeadToRest | scripts/check_container_image.py:609-637 | in the tree of surviving writes with the linknames of the members, every tracked link leads by POSIX resolution to a place without links or dynamic roots on the way |
| ImageAccepted.ApplicationAncestorsAreDirectories | scripts/check_container_image.py:221-229 | every ancestor of an application path is a directory of the image |
| MigrationPlan.FindOrphans | docker/_systemd_migration_plan.py:366-389 | a side file is reported if and only if its database is missing beside it |
| MigrationResume.BuildPlanSucceeds | docker/_systemd_migration_plan.py:57-107 | planning the files succeeds if and only if all its conditions hold, in whatever order they are checked |
| MigrationResume.TargetsFine | docker/_systemd_migration_plan.py:165-312 | during a migration every target is the file that was there from the start, or has the metadata and content that the slot publishes |
| MigrationResume.Replan | docker/_systemd_migration_plan.py:57-107 | planning again succeeds on every file system a migration can have reached |
| MigrationResume.CompleteConverges | docker/_systemd_migration_plan.py:608-614 | after a complete migration of the files planning succeeds and finds none of them to do |
| MigrationResume.OutcomeFixed | docker/_systemd_migration_plan.py:165-312 | what every target will hold in the end is decided when the migration starts |
| MigrationResume.ProgressTransitive | docker/_systemd_migration_apply.py:53-68 | progress since a stop is progress since the start |
| MigrationResume.CompleteRunsAgree | docker/_systemd_migration_apply.py:60-68 | any two complete migrations planned on the same files leave every target with the same content |
| MigrationProgress.ProgressWellFormed | docker/_systemd_migration_apply.py:94-142 | every new entry lies in a directory: no part of a migration leaves an entry without one |
| MigrationProgress.SlotPlaces | docker/_systemd_migration_fs.py:70-78 | disjoint roots keep every source in the source tree and every target out of it |
| MigrationProgress.SlotContentSame | docker/_systemd_migration_fs.py:170-195 | what a slot would publish does not change while the migration runs |
| MigrationHost.Host.CopyToNew | docker/_systemd_migration_fs.py:407-442 | an exclusive create with content, owner and mode, or at most one partial new file |
| MigrationHost.Host.WriteChunk | docker/_systemd_migration_fs.py:397-402 | for every pattern of short writes one chunk is written, or a failing write leaves a part of it |
| MigrationHost.Host.CopyDescriptor | docker/_systemd_migration_fs.py:381-404 | for every pattern of short reads and writes the whole content, when no call fails |
| MigrationHost.Host.NormalizeDirectory | docker/_systemd_migration_fs.py:260-303 | changes the mode of an eligible directory and nothing else |
| MigrationHost.Host.EnsureDirectory | docker/_systemd_migration_fs.py:350-369 | an existing directory must match; a new one gets its metadata or is removed again |
| MigrationHost.UnlinkAfterLink | docker/_systemd_migration_fs.py:469-493 | linking the copy and unlinking its made-up name leaves the target with one link and all else as it was |
| MigrationHost.Host.AtomicCopy | docker/_systemd_migration_fs.py:469-498 | with failing calls and other processes: no existing entry changes; success means that the target has its metadata, and is the file that was there, or else what another process put there first, or else has the source's content; alone, it is published whole or not at all |
| MigrationSqlite.StageDatabase | docker/_systemd_migration_fs.py:717-729 | the staging directory holds exactly the main file and its side files |
| MigrationSqlite.CleanupTemporary | docker/_systemd_migration_fs.py:659-675 | both leftovers are attempted, whichever fails |
| MigrationSqlite.SqliteBackup | docker/_systemd_migration_fs.py:678-714 | publishes the backup of the database as it stands or nothing; no existing entry changes; with other processes a success leaves the file that was there, or else the first of theirs, or else the backup |
| MigrationApply.NormalizeFhsDirectories | docker/_systemd_migration_apply.py:71-91 | repairs the planned roots' modes, and does nothing without a planned repair |
| MigrationApply.PublishCopy | docker/_systemd_migration_apply.py:94-142 | one artifact: published in its place, with everything else kept and the run still on track |
| MigrationApply.PublishBackup | docker/_systemd_migration_apply.py:145-157 | one database, likewise |
| MigrationRun.ApplyEnvironment | docker/_systemd_migration_apply.py:94-110 | publishes the environment unless it is there; then it writes nothing |
| MigrationRun.EnsureStateRoot | docker/_systemd_migration_apply.py:113-123 | the state root is there before anything is written to it, and is not made otherwise |
| MigrationRun.ApplyConfigs | docker/_systemd_migration_apply.py:126-142 | every pending config is published |
| MigrationRun.ApplyDatabases | docker/_systemd_migration_apply.py:145-157 | every pending database is published; none pending means nothing is written |
| MigrationRun.ApplyDeadLetter | docker/_systemd_migration_apply.py:160-172 | the pending dead letter file is published |
| MigrationRun.RunIsComplete | docker/_systemd_migration_apply.py:53-68 | a run in which every pending artifact was published is a complete migration |
| MigrationRun.ApplyFiles | docker/_systemd_migration_apply.py:58-65 | whatever fails and whoever is active, only the modes of the three roots change of what was there; nothing to do means nothing written; undisturbed, it succeeds and is complete |
| MigrationTree.TreeAtIsTree | docker/_systemd_migration_fs.py:510-542 | a walk from a cache root sees a tree |
| MigrationTree.GraftRoundTrip | docker/_systemd_migration_apply.py:293-301 | a published tree is what a walk then finds there |
| MigrationWhole.CacheInvisible | docker/_systemd_migration_plan.py:73-79 | a published cache does not change the plan of the files |
| MigrationWhole.CachePlanSame | docker/_systemd_migration_plan.py:497-518 | migrating the files, the repair of the cache root included, does not change the plan of the cache |
| MigrationOutcome.WholeReplan | docker/_systemd_migration_plan.py:57-107 | at any point of a whole migration planning again fails if and only if an oversized cache has been published |
| MigrationOutcome.WholeConverges | docker/_systemd_migration_plan.py:608-614 | after a complete migration planning again finds nothing to do, for the cache neither |
| MigrationOutcome.WholeTransitive | docker/_systemd_migration_apply.py:53-68 | progress since a stop, before or after the cache was published, is progress since the start |
| MigrationOutcome.ResumedIsComplete | docker/_systemd_migration_apply.py:53-68 | completing a migration from where it stopped completes what was planned at the start |
| MigrationOutcome.WholeRunsAgree | docker/_systemd_migration_apply.py:53-68 | any two complete migrations of the same start agree on every target and on the cache's files and manifest |
| MigrationOutcome.ResumedRunEndsTheSame | docker/_systemd_migration_apply.py:53-68 | stopped and completed with a new plan, a migration ends as one uninterrupted run does |
| MigrationMigrate.PlanWhole | docker/_systemd_migration_plan.py:57-107 | the files, then the cache: the plan or the first refusal |
| MigrationMigrate.ApplyCache | docker/_systemd_migration_apply.py:197-232 | no existing entry changes; alone, a cache that lists the manifest is published where there was none, or nothing happens |
| MigrationMigrate.ApplyPlan | docker/_systemd_migration_apply.py:53-68 | files and cache: only the modes of the three roots change of what was there; nothing to do means nothing written; alone, a part of what was planned, and all of it on success; undisturbed, it succeeds if and only if the cache can be published |
| MigrationMigrate.Migrate | docker/systemd_migration.py:87-108 | plan and apply: success means that planning again finds nothing to do; a converged start is left as it is; alone, every entry keeps its directory and only an oversized cache keeps a run from being planned again |
| MigrationMigrate.StopAndResume | docker/systemd_migration.py:87-108 | a run that stops anywhere, is planned again and goes on, beside a direct run: both converge and end the same; the second succeeds once nothing fails; after a success it writes nothing |
| MigrationCrash.StrayInStateRootBlocks | docker/_systemd_migration_plan.py:366-389 | a made-up name in the state root makes planning fail |
| MigrationCrash.SecondLinkBlocks | docker/_systemd_migration_fs.py:306-326 | a target with a second link makes planning fail |
| MigrationCrash.StrayElsewhereHarmless | docker/_systemd_migration_plan.py:366-405 | a made-up name elsewhere does not |
| MigrationCrash.StoppedCopyResumable | docker/_systemd_migration_fs.py:469-493 | a killed copy can be resumed if and only if it was done, or still copying outside the state root |
| MigrationCrash.StoppedBackupResumable | docker/_systemd_migration_fs.py:678-714 | a killed database backup can be resumed if and only if it was done, staging directory and all |
| MigrationCrashExample.KilledCopyBlocks | docker/_systemd_migration_fs.py:469-493 | an installation whose dead-letter copy, killed while copying or between link and unlink, cannot be planned again |
| NameOrder.SortNames | docker/_systemd_migration_fs.py:513 | the names in the order of their characters |
| MigrationInventory.ListingIsFiles | docker/_systemd_migration_fs.py:510-542 | a listing holds the files of the tree, all of them and nothing else |
| MigrationInventory.SameFilesSameListing | docker/_systemd_migration_fs.py:510-551 | two trees with the same files have the same listing, in the same order, whatever their directories |
| MigrationCache.InventoryTree | docker/_systemd_migration_fs.py:501-551 | succeeds if and only if every visited entry is fine, and then returns the listing |
| MigrationCache.Inventory.Visit | docker/_systemd_migration_fs.py:510-542 | the recursive visit appends exactly the listing of its directory |
| MigrationCache.ListingIndependent | docker/_systemd_migration_fs.py:510-542 | no listed path is another's or lies above it |
| MigrationCache.CacheHost.EnsureCacheParents | docker/_systemd_migration_apply.py:266-279 | makes the missing parents; for a listing it fails only if a call does |
| MigrationCache.CacheHost.PopulateCache | docker/_systemd_migration_apply.py:235-254 | stages exactly the manifest's files and their parents; if no call fails, for a listing it succeeds if every entry still matches and has a safe name |
| MigrationCache.ValidateExistingCache | docker/_systemd_migration_plan.py:521-566 | accepts if and only if metadata, contents and stored manifest agree |
| MigrationCache.StagedRoundTrip | docker/_systemd_migration_apply.py:235-290 | inventory, staging, inventory gives the same manifest, so verification cannot fail without interference |
| MigrationCachePublish.PublishedValid | docker/_systemd_migration_plan.py:569-582 | a published cache validates if and only if its encoded manifest is within the limit |
| MigrationCachePublish.PublishCache | docker/_systemd_migration_apply.py:293-308 | rename without replacing, with a failing open, rename or sync: a cache published by another process stays, and staging moves or stays |
| MigrationCachePublish.CopyCache | docker/_systemd_migration_apply.py:205-232 | an existing cache is never touched, staging survives only if its removal fails, success means a valid cache; undisturbed, it succeeds if and only if names are safe and the manifest fits |
| MigrationCachePublish.PlanCache | docker/_systemd_migration_plan.py:497-518 | already there, not asked for, ready with its listing, or refused |
| MigrationCachePublish.ValidPlansAsExisting | docker/_systemd_migration_plan.py:503-510 | a valid cache is planned as existing, whatever the source has become |
| MigrationCachePublish.OversizedBlocks | docker/_systemd_migration_plan.py:569-582 | a published cache makes every later plan fail if and only if its manifest is over the limit |
| MigrationCachePublish.MigrateCache | docker/_systemd_migration_apply.py:197-232 | plan, copy, plan again: the second plan finds the planned entries if and only if names are safe and the manifest fits |
| MigrationCacheExamples.OversizedCache | docker/_systemd_migration_apply.py:205-232 | a cache with enough files is planned, published, and then fails this migration and every later plan |
| MigrationCacheExamples.BackslashCache | docker/_systemd_migration_apply.py:325-338 | a cache of one file with a backslash in its name is planned every time and never published |
| ConfigPublication.OwnedFd.Take | scripts/init_docker_config.py:70-73 | the owner is empty before anything else can happen |
| ConfigPublication.OwnedFd.CloseError | scripts/init_docker_config.py:75-83 | one close attempt; an OSError is returned; anything else is raised, if and only if the call raises it |
| ConfigPublication.FinishClose | scripts/init_docker_config.py:128-136 | an error that is there already survives a failing close |
| ConfigPublication.WriteAll | scripts/init_docker_config.py:313-319 | for every pattern of short writes the whole content is written, or one failure is reported |
| ConfigPublication.ReadAll | scripts/init_docker_config.py:219-225 | for every pattern of short reads, the file's content |
| ConfigPublication.VerifyPublished | scripts/init_docker_config.py:378-406 | an undisturbed published file verifies; every other outcome reports the first failure |
| ConfigPublication.StageTemp | scripts/init_docker_config.py:444-460 | a complete, synced, closed temporary file, or one failure with the reason of its phase |
| ConfigPublication.PublishTemp | scripts/init_docker_config.py:462-475 | at most one rename, of the complete file, onto a free name |
| ConfigPublication.CleanupName | scripts/init_docker_config.py:409-426 | two attempts; if the name is still there both failed |
| ConfigPublication.PublishCopy | scripts/init_docker_config.py:429-487 | for every schedule: a descriptor of its own is open in the end if and only if an interrupt came just after its open or just before its close, and was closed once otherwise; before the rename the destination is untouched and the error unmarked; after it errors are marked and nothing is unlinked; the first failure is reported with its phase |
| ConfigInit.NormalizeExisting | scripts/init_docker_config.py:270-310 | changes the owner of that file and nothing else, and tells whether the name is there |
| ConfigInit.ReadSource | scripts/init_docker_config.py:228-267 | the content and mode of a regular file that did not change while it was read |
| ConfigInit.OpenDirectory | scripts/init_docker_config.py:151-190 | the descriptor goes to the caller or is closed |
| ConfigInit.EnsureTargetDirectory | scripts/init_docker_config.py:193-216 | likewise, for a directory that is there or is made; without a failing call it succeeds for both |
| ConfigInit.InitializeOne | scripts/init_docker_config.py:506-528 | one turn of the loop owns what is there, copies what is missing, or has nothing to do |
| ConfigInit.WantedMembers | scripts/init_docker_config.py:506-528 | the wanted names are those of the table that the target lacks and the source has |
| ConfigInit.CopyMissing | scripts/init_docker_config.py:506-529 | the copied names are exactly the wanted ones; on an error one name more was given if and only if it is marked uncertain |
| ConfigInit.Initialize | scripts/init_docker_config.py:490-541 | no bytes that were there change; success means exactly the wanted configs came, complete and synced; which descriptors are open in the end: the exact conditions for the source directory's and the target's, and for every other one; an ordinary run without failing calls succeeds |
| ConfigInit.CloseBoth | scripts/init_docker_config.py:537-541 | the two closes: of each descriptor, whether it is open after them, and what they make of the error |
| ConfigInit.InterruptedClose | scripts/init_docker_config.py:537-538 | a run that ends with the source directory's descriptor open, for each such way the target's close can fail; the target's is open too if the interrupt came first |
| ConfigInit.InterruptedSourceClose | scripts/init_docker_config.py:537-538 | a run in which the target's close is fine and the source directory's is interrupted, with its descriptor left open |
| LockGrammar.MeaningIsActive | scripts/dependency_lock_parser.py:199-208 | pins and hashes are those of the active blocks, one name each |
| LockGrammar.InactiveChangesNothing | scripts/dependency_lock_parser.py:194-197 | comments, options and inactive pins with their hashes change nothing |
| LockGrammar.PrefixReading | scripts/dependency_lock_parser.py:130-208 | what was read as blocks is read so in every reading |
| LockGrammar.Unambiguous | scripts/dependency_lock_parser.py:130-208 | a line sequence has at most one reading |
| LockParser.MisfitIsHopeless | scripts/dependency_lock_parser.py:132-178 | a line that does not fit makes every continuation ungrammatical |
| LockParser.DuplicateIsHopeless | scripts/dependency_lock_parser.py:203-205 | so does an active name pinned again |
| LockParser.LockMachine.TakeBlank | scripts/dependency_lock_parser.py:132-140 | a blank or comment line is an error if and only if a continuation is open |
| LockParser.LockMachine.TakeHash | scripts/dependency_lock_parser.py:141-166 | a hash line is an error if and only if it is malformed or nothing is open: the second half of its guard never decides |
| LockParser.LockMachine.TakePin | scripts/dependency_lock_parser.py:180-207 | a requirement is an error if and only if it is active and pinned already |
| LockParser.LockMachine.Step | scripts/dependency_lock_parser.py:130-207 | each line keeps the invariant: pins and hashes have the same keys, an open continuation has a name or is ignored but not both; without an error the state is the meaning of the reading so far, with one no reading exists |
| LockFile.HasUnsafeOmissionFooter | scripts/dependency_lock_parser.py:77-88 | found if and only if the first non-blank line after some footer names an installer |
| LockFile.ParseBody | scripts/dependency_lock_parser.py:125-215 | no body error if and only if the lines are in the grammar with distinct active names, and then their meaning |
| LockFile.ParseGeneratedLock | scripts/dependency_lock_parser.py:91-215 | no error if and only if the file is readable, has the header, has no footer and is grammatical |
| LockPrinter.PrintedIsRead | scripts/dependency_lock_parser.py:130-190 | printed lines are classified as the tokens they were printed from |
| LockPrinter.RoundTrip | scripts/dependency_lock_parser.py:125-215 | printed blocks are read as these blocks and no others |
| LockPrinter.CanonicalMeans | scripts/dependency_lock_parser.py:199-215 | canonical blocks in any order, with anything inactive between, mean the map they were made from |
| LockPrinter.ReadBack | scripts/dependency_lock_parser.py:91-215 | any map of pins and hashes, printed and parsed, comes back unchanged and without errors |
| LockContract.ValidateSharedPins | scripts/check_dependency_contract.py:414-433 | silent if and only if the shared pins agree (or the left ones are contained); the errors are exactly the names' problems |
| LockContract.ValidateContainerLock | scripts/check_dependency_contract.py:436-486 | silent if and only if container and research pins are the same map, with required names, without forbidden ones, all hashed |
| LockContract.ValidateConstraints | scripts/check_dependency_contract.py:489-530 | silent if and only if every constrained name is in some lock and its constraint, exact or a specifier, is met in each that has it |
| LockContract.FourComparisonsSuffice | scripts/check_dependency_contract.py:740-743 | the four comparisons hold if and only if all four locks agree pairwise and the runtime lock is contained in each |
| LockContract.NoneIsSuperfluous | scripts/check_dependency_contract.py:740-743 | without any one of the four comparisons some inconsistent locks pass the other three |
| LockContract.ConstraintsReachEveryLock | scripts/check_dependency_contract.py:740-748 | a security-constrained runtime dependency has its version in all four locks |
| LockContract.CompareLocks | scripts/check_dependency_contract.py:740-753 | the comparisons are silent if and only if the locks are consistent and all constraints respected |
| HtmlScanner.Scanner.HandleStart | scripts/i18n_inventory.py:230-296 | pushes if and only if the tag is neither void nor self-closed; a child of a bound element is an error |
| HtmlScanner.Scanner.HandleEnd | scripts/i18n_inventory.py:298-311 | closes the matching element, or reports and recovers |
| HtmlScanner.Scanner.HandleData | scripts/i18n_inventory.py:313-327 | records the text by the elements around it |
| HtmlScanner.Scanner.Finish | scripts/i18n_inventory.py:329-331 | reports what is still open, innermost first |
| HtmlScanner.DocumentRun | scripts/i18n_inventory.py:230-327 | scanning a document finds exactly what a walk over its tree finds and leaves the stack as it was |
| HtmlAcceptance.Readable | scripts/i18n_inventory.py:284-311 | without a tag error the events are a document whose open elements are the stack |
| HtmlAcceptance.AcceptsDocuments | scripts/i18n_inventory.py:284-331 | no unexpected, misnested or unclosed tag is reported if and only if the events are the serialization of a document |
| HtmlAcceptance.Scan | scripts/i18n_inventory.py:284-331 | for a document, the findings and the only errors are those of its tree |
| HtmlAcceptance.StackIsPrefix | scripts/i18n_inventory.py:298-311 | recovery leaves a prefix of the stack, up to the innermost open element of the tag |
| HtmlAcceptance.OffsetIsWalk | scripts/i18n_inventory.py:125-135 | the offset arithmetic is the walk through the characters, for every offset into the text |
| HtmlAcceptance.WalkOn | scripts/i18n_inventory.py:125-135 | positions compose |
| InventoryExemptions.CollectExemptions | scripts/i18n_inventory.py:544-586 | no error if and only if every exemption is exact, the first of its finding, and of use |
| InventoryExemptions.Reconcile | scripts/i18n_inventory.py:544-598 | a finding is reported if and only if its page is strict and no exact exemption names it |
| InventoryExemptions.SilenceIsEquality | scripts/i18n_inventory.py:544-598 | with all pages strict, silence means that the exemptions name exactly the findings, each once |
| Cancellation.RunWorker | main.py:470-517 | for every order of cancellations, interruptions and completion, the ending the rule gives |
| Cancellation.WorkerGuarantees | main.py:470-517 | a value only without a cancellation; the first cancellation, and only when the worker is done; an early end only by an interruption, with the outcome handed on |
| Cancellation.DrainResourceStack | main.py:580-594 | likewise for the drain, whose own failure wins |
| Cancellation.DrainCompletes | main.py:580-594 | the drain is complete when the wait ends, unless interrupted |
| Lifespan.AppState.Claim | main.py:668-680 | refuses if another lifespan is active, else remembers what was there |
| Lifespan.AppState.Release | main.py:683-700 | restores the marker if it is still its own |
| Lifespan.AlwaysExclusive | main.py:668-700 | in every interleaving at most one lifespan is active, and with none the marker is what it was |
| Lifespan.StateBinding.Bind | main.py:606-616 | remembers what was bound before it binds |
| Lifespan.StateBinding.Rollback | main.py:618-639 | takes back only what is still its own, once |
| Lifespan.ExitStack.Close | main.py:542-553 | every cleanup once, last in first out, whichever raise; safe ones keep their failure to themselves |
| LifespanRun.RegisteredFacts | main.py:712-1023 | what is registered at each step, each resource once, all safe but the accounting |
| LifespanRun.StartUp | main.py:711-968 | a failing step leaves exactly what was registered before it |
| LifespanRun.BindState | main.py:970-1023 | if the state cannot be bound the runner is closed and the binding taken back |
| LifespanRun.RunClaimed | main.py:709-1043 | for every failure point and every order of wakes: what there is to clean is cleaned once, in reverse order, all of it unless the wait is interrupted before the drain is done, and then a beginning of it with the rest pending; the first error is the one raised; services are as before once the binding is undone |
| LifespanRun.Run | main.py:704-1053 | and when the wait is over the owner marker is as before; a second lifespan is refused and touches nothing |
| LifespanRun.PendingMeans | main.py:580-594 | cleanups are pending if and only if the wait was interrupted before the drain was done, or goes on, and some had not run; then the lease is; a shutdown that completes, is cancelled or fails by a cleanup leaves none |
| LifespanRun.InterruptedDrain | main.py:1032-1053 | a run that gives the marker back with every cleanup pending and its services still bound |
| LifespanRun.CleanupOrder | main.py:859-906 | capacities before the supervisor, the supervisor before the drain checks, the lease last |
| LifespanRun.LeftBehindExactly | main.py:847-858 | the steps whose failure leaves a created resource unregistered, all of them |
| Readiness.CeilingBound | docker/systemd_readiness.py:34-48 | a number of intervals is shorter than the timeout if and only if it is below the ceiling |
| Readiness.WaitForReadiness | docker/systemd_readiness.py:22-50 | at most ceiling(timeout / interval) checks, each begun before the deadline; no sleep past it; true if and only if a check succeeded, false only after the deadline |

## Left out

- Image outputs migration (`_plan_outputs`, `_apply_outputs`): the code it calls, `image_storage_cli`, is not part of this model; an empty source directory stays ready there, so convergence is stated without outputs.
- Log reports, report dictionaries, sanitized names and error texts: the model keeps reasons, not wording.
- Tar, JSON, TOML, SQLite, asyncio, the HTML parser and PEP 508: parameters or event streams. An SQLite backup is some function of the main file and its write-ahead files; `json.loads` undoes `json.dumps` on manifests.
- SHA-256: a digest is represented by the content it was taken from, or by a function of it.
- Image manifest, image configuration and image size checks (`_load_json_member`, `_validate_runtime_config`, `_validate_image_size`) and the final summary: tables of equalities.
- ImageContract.ValidatePermissions: does not model which of several violations is reported first, because acceptance does not depend on it.
- uuid4 and `token_hex` collisions: made-up migration names are a datatype of their own and never meet another name; the publisher's temporary names may already exist, and the general statements hold then too.
- Shallow planning (`full=False`): the same branches without digests and inventories.
- Loss of data in a crash of the machine: `fsync` is modelled as a flag of the published file in the configuration publisher only.
- MigrationSqlite.CleanupTemporary: does not model side files of the temporary database itself, because nothing in the model makes them.
- MigrationRun.EnsureStateRoot: does not model the outputs status that also triggers it.
- MigrationCachePublish.CopyCache: a copy that fails under way leaves an empty file in the staging tree, not a part of its content; reads of the inventories do not fail; the parent directory is the same at its three checks.
- MigrationTree.TreeAtIsTree: names that a migration has made up are not part of a cache tree, because no stage puts one there.
- MigrationHost.Host.CopyDescriptor: the source does not change between two reads of one copy.
- ConfigInit.ReadSource: takes the content in one call; the loop is ConfigPublication.ReadAll.
- HtmlScanner.Scanner.HandleStart: leaves out the findings in attributes and the errors of bindings.
- ConfigInit.Initialize: source files stay the same between calls, except that one may change while it is read; the replacement of a directory between look and open is a flag.
- ConfigPublication.PublishCopy: an interrupt arrives at a system call, before or after its effect, not between two statements without one.
- Attribute tokens, bindings and catalog keys of the i18n scanner, and its page and source tables: many easy checks.
- Direct requirements, build system, unsafe pins, pytest markers and entry points of the dependency contract: loops over one table each.
- LockFile.ParseGeneratedLock: reports of `parse_exact_pin` are one token, so its three error texts are not told apart.
- Work of the startup steps and of the cleanups: each is a step that may fail. Application state is taken back after the other cleanups instead of among them, because no other cleanup touches it.
- LifespanRun.Run: what the drain still does in the background when an interrupted run is over is named but not run.
- Readiness.WaitForReadiness: times are real numbers, so rounding of floating point and infinite or undefined inputs are not modelled.
