# CloudlessOS daemon protocols in Dafny

CloudlessOS's Go daemon is a set of small transactional protocols over disk, containers and
journals. This project models the ones where an interruption, a failure or a second user in the
wrong place would matter, and proves what they promise for every input, every run and every
point at which a run can be cut short.

Effects the daemon has no power over (docker, apt, dpkg, ssh, rsync, xrandr, a save to disk) are
answers: a parameter that says whether the effect works. Protocols that other threads or crashes can
interleave with are state machines; the code that drives them is a class whose methods are proved to
do what the machine, or a specification function, says. Properties are lemmas about the machine
or the function. Hashes are uninterpreted functions.

| module | protocol |
|---|---|
| `Ordering`, `Sorting`, `Subsequences`, `Strings`, `Utf8`, `SshHosts` | orders, sorts, text, its encoding, and how SSH reads names |
| `AppLocks`, `Packs` | app packs installed and removed under sorted per-app locks |
| `Display` | changing the display: record, apply, confirm or roll back |
| `Updater` | the update transaction and its recovery packages |
| `RecipeLaunch`, `RecipeCleanup` | launching a recipe; ending, aborting and cleaning up its operation |
| `Transfer`, `Promotion`, `ArtifactManifest`, `CacheGC`, `ModelViews` | moving, exchanging, verifying, collecting and showing model data |
| `Selection` | which workers a recipe runs on, and under which names |
| `AliasStream`, `RateLimiter` | the gateway's streaming rewrite and its token bucket |
| `ShellQuote` | commands sent to a worker's shell |

## What does not hold

Some promises fail for some inputs. Each has a lemma with a failing input, and one that says for
all inputs exactly when the code keeps the promise.

- Packs. A container lookup that fails is taken for "not there": the install then replaces a running
  app, and a failed attempt or a rollback removes it (`BlindInstallExample`). A failed save leaves the
  pack on the list in memory (`LostSaveExample`). What a caller can check is in `BlindInstallExactly`,
  `LostSaveExactly` and, over whole interleavings, `PacksAlwaysRun`; which removals break the promise
  there is in `PacksRunExactly`.
- Display. A restart that cannot read its record lets the next change take over the way back, and a
  preference saved by a confirm that did not finish, or that failed to save, is shown later by a
  normalization (`UnreadableRecordRun`, `LeftPreferenceExample`, `FailedSaveExample`). Over whole runs:
  `PromiseSurvivesExactly`; `RefusingExactly` says which test of the daemon's own would do. A confirm
  can succeed with the previous mode on screen (`ConfirmOverPreviousExample`). A rollback that applies the
  previous mode and cannot clear its record is not tried again by a timer (`TimersTakeBackExactly`).
- Updater. An update that installed, and then neither kept its packages nor was rolled back, leaves
  recovery packages that do not match (`StrandedExample`, `RunKeepsInSync`).
- CacheGC. Two model ids can share a cache directory, and collecting one takes a snapshot the other
  needs (`SharedDirectoryExample`, `LostExactly`). A prune takes a blob that is itself a link, and breaks
  the links that pass it (`LinkedBlobExample`, `PruneBreaksExactly`); only then can a second prune take more
  than the first (`PruneTwiceExactly`).
- Transfer. Paths go to the peer and come back as JSON, which replaces what is no UTF-8. Clearing a
  missing entry with such a name can take a verified one with another name, no transfer of it ever
  succeeds (`LostEntryRun`, `AttemptKeepsExactly`, `Staging.RetryPeerTransfer`), and a file left on the peer
  under such a name can be taken for an expected one (`DeceivedRun`, `ReportIsTrueExactly`).
- ModelViews. A removal that stops halfway but leaves the marker makes an incomplete view that later
  runs take for done (`TornViewExample`, `ViewsAreHollowExactly`). One that takes the marker first leaves what
  then counts as the user's own entry.
- Promotion. Two crashes and a changed source can lose both trees (`ChangedSourceExample`,
  `RebuildingSafeExact`).
- RateLimiter. A limiter with a burst below one request never admits anybody, whatever wait it names
  (`SmallBurstNeverAdmits`, `WaitIsEnough`). `newGatewayRateLimiterWith(120, 0)` would make one; the program
  makes two, with bursts of 15 and 30 (orchestrator/internal/api/server.go:142), which do admit.
- ArtifactManifest. A manifest with a path that is no UTF-8 is written and never loads (`UnloadableExample`,
  `SavedLoadsExactly`), and the two verifiers do not accept the same snapshots
  (`VerifiersDifferExample`, `VerifiersDifferExactly`).
- Selection. Worker names come back exactly when the configured name has no comma and no space at its
  ends (`CommaExample`, `NamesComeBackExactly`). SSH takes them for patterns, options and users: with the
  name `w*` the second worker's name leads to the first worker, and `!w`, `-v`, `a b` and `a@b` never lead to the peer
  (`WildcardExample`, `OtherNamesExample`, `ContactedExactly`). Nothing checks that when a recipe is stored
  (orchestrator/internal/localrecipes/store.go:680-682).
- RecipeLaunch. A rollback can leave the candidate on record (`CandidateStaysRun`,
  `CandidateStaysExactly`). It restores after it has released the engine lock, and writes over what another
  operation committed in between (`OverwritingRun`, `OthersLostExactly`). The comment at
  orchestrator/internal/api/recipe_failures.go:36-38 calls the table of safe ends exhaustive; launches
  of managed containers pass no boundary, and the model follows the code.
- RecipeCleanup. A check whose error carries a cancellation ends as aborted whatever it has on record
  (`CanceledCheckExample`, `AbortedUncleanExactly`). No user can cancel a check, only runs are registered
  for that (orchestrator/internal/api/local_recipes.go:1721). The probe of the collective library can, when
  it cancels its own context (orchestrator/internal/api/recipe_fabric_preflight.go:178-181). A cleanup
  retry that still finds something writes over the reason of the failure, so that a later one ends it
  as stopped (`ForgottenReasonExample`, `RetryStopsExactly`).

## Model

| member | source | states |
|---|---|---|
| AppLocks.Normalize | orchestrator/internal/api/app_operation_locks.go:16-27 | the lock order of an operation: its ids without blanks and duplicates, strictly sorted |
| AppLocks.AppOperationLocks.Resolve | orchestrator/internal/api/app_operation_locks.go:16-40 | each id gets one mutex, a mutex once created is never replaced, and the handles follow the sorted order |
| AppLocks.SameMutexIffSameApp | orchestrator/internal/api/app_operation_locks.go:29-40 | operations that resolved at different times contend for the same mutex exactly for the same app |
| AppLocks.TakeKeepsInv | orchestrator/internal/api/app_operation_locks.go:42-44 | after taking a lock, what each operation holds is still exactly a prefix of its order |
| AppLocks.GiveBackKeepsInv | orchestrator/internal/api/app_operation_locks.go:45-49 | the same after giving one back |
| AppLocks.StepKeepsInv | orchestrator/internal/api/app_operation_locks.go:16-50 | the same after every step, arrivals of new operations included |
| AppLocks.CriticalSectionsDisjoint | orchestrator/internal/api/app_operation_locks.go:11-50 | two operations inside their critical sections share no app |
| AppLocks.BlockerChainEnds | orchestrator/internal/api/app_operation_locks.go:27-44 | following who holds what one waits for ends at an operation that can move, because the order is the same for all |
| AppLocks.NeverStuck | orchestrator/internal/api/app_operation_locks.go:11-50 | deadlock freedom for any number of operations: while one is unfinished, some step is enabled |
| AppLocks.BatchFinishes | orchestrator/internal/api/app_operation_locks.go:42-49 | every schedule of a batch uses up one of finitely many steps per move, and one that cannot go on has finished all |
| Packs.InstallStep | orchestrator/internal/api/packs.go:103-142 | with any answers an install's step touches only its own pack, and keeps the promise exactly when a failed attempt took no container an intact recorded pack is made of |
| Packs.RollBackStep | orchestrator/internal/api/packs.go:114-120 | the same for a rollback's removals |
| Packs.UninstallStep | orchestrator/internal/api/packs.go:267-318 | an uninstall's step keeps all other packs' apps |
| Packs.OtherJobKept | orchestrator/internal/api/packs.go:103-142 | a step inside one critical section leaves what any other job relies on |
| Packs.WorkKeepsInv | orchestrator/internal/api/packs.go:103-142 | work under the locks, with any answers, leaves all other jobs what they rely on, and keeps the promise exactly when its step does |
| Packs.HarmlessKeeps | orchestrator/internal/api/packs.go:114-142 | while lookups work on apps that others rely on and no save is lost, an install never comes to hold such an app in its rollback list |
| Packs.LockKeepsInv | orchestrator/internal/api/app_operation_locks.go:42-49 | so does taking or returning a lock |
| Packs.StepKeepsInv | orchestrator/internal/api/packs.go:103-318 | the same for every step of every interleaving |
| Packs.PacksRunExactly | orchestrator/internal/api/packs.go:103-318 | over every interleaving of any number of installs, rollbacks and uninstalls, with any failures: each recorded pack has all its apps running at every point, unless its own uninstall broke off, exactly when no failed attempt and no rollback took a container an intact recorded pack is made of |
| Packs.PacksAlwaysRun | orchestrator/internal/api/packs.go:103-318 | and so it is in every interleaving in which no lookup fails on an app another pack relies on and no save is lost after new installs |
| Packs.PackServer.LockOrder | orchestrator/internal/api/packs.go:103-110 | the locks a pack's job takes are its apps, once each and sorted |
| Packs.BlindInstallExactly | orchestrator/internal/api/packs.go:114-142 | an install keeps the promise, whatever else goes wrong, exactly when no lookup fails on an app an intact recorded pack is made of |
| Packs.BlindInstallBreaks | orchestrator/internal/api/packs.go:121-130 | the run that breaks it otherwise |
| Packs.BlindInstallExample | orchestrator/internal/api/packs.go:114-142 | two packs and a failed lookup: a rollback removes the running app of the installed one |
| Packs.LostSaveExactly | orchestrator/internal/state/state.go:741-760 | an install in which only the save fails ends with the pack listed; the promise then holds exactly when all its apps ran before, or the pack was listed as taken apart by its own uninstall |
| Packs.DriveFills | orchestrator/internal/api/packs.go:121-132 | an install whose attempts succeed has exactly the apps it did not see in its rollback list |
| Packs.LostSaveExample | orchestrator/internal/state/state.go:741-760 | one app, a failed save: a recorded pack with no container |
| Packs.InstallSucceeds | orchestrator/internal/api/packs.go:121-142 | a finished install runs every app of the pack, records it, and stopped no app |
| Packs.RollbackFails | orchestrator/internal/api/packs.go:114-120 | a rollback ends the install as failed and takes only the containers it added |
| Packs.RollbackTakesExactly | orchestrator/internal/api/packs.go:114-120 | a rollback takes exactly those of its containers whose removal works |
| Packs.InstallEndsExactly | orchestrator/internal/api/packs.go:103-142 | an install ends well exactly when every attempt at an app not seen running works and then the save; it then runs all its apps and leaves all other containers; the pack gets on the list exactly when all attempts worked |
| Packs.InstallFailsCleanly | orchestrator/internal/api/packs.go:103-142 | a failed install stops no app that ran before and whose lookup worked, and changes the record only when the save failed |
| Packs.UninstallRemoves | orchestrator/internal/api/packs.go:267-318 | a finished uninstall removes exactly the pack's apps that are neither core nor used elsewhere, and the record |
| Packs.UninstallEndsExactly | orchestrator/internal/api/packs.go:267-318 | an uninstall ends well exactly when every removal it tries works and then the save; the pack leaves the list exactly when the removals worked, and then exactly the apps tried are gone |
| Packs.UninstallLeavesExactly | orchestrator/internal/api/packs.go:267-318 | when every container is found, of the pack's apps exactly the core ones, the engine and those of other recorded packs are left |
| Packs.PackServer.RunPackInstall | orchestrator/internal/api/packs.go:103-142 | the install does what the machine's install job does; it succeeds exactly when every attempt at an app not seen running works and then the save, and then the pack is on the list and its apps run |
| Packs.PackServer.RollBack | orchestrator/internal/api/packs.go:114-120 | the rollback closure does what the machine's rollback does |
| Packs.PackServer.RunPackUninstall | orchestrator/internal/api/packs.go:267-318 | the uninstall does what the machine's uninstall job does; it succeeds exactly when every removal it tries works and then the save, and then exactly the apps tried are gone |
| Display.EventKeepsExactly | orchestrator/internal/api/display.go:139-429 | when each event keeps the promise: a change must not take over a record on disk while an unconfirmed mode is shown, a normalization must not read an unconfirmed preference without a record on disk, a confirm must not drop the record of another mode than its own |
| Display.PromiseSurvivesExactly | orchestrator/internal/api/display.go:139-429 | from the start, through crashes, failures and unreadable records: an unconfirmed mode on screen has a durable record leading to a confirmed or baseline mode at every point exactly when every event met its condition |
| Display.UnsafeModeHasWayBack | orchestrator/internal/api/display.go:139-246 | so it has at every crash point of every run from the start, with confirmed preferences, if no change is begun over a record that was not recovered |
| Display.RefusingExactly | orchestrator/internal/api/display.go:311-325 | a daemon that tests for a record on disk with nothing pending keeps the promise in all those runs exactly if it then refuses changes |
| Display.LeftPreferenceExample | orchestrator/internal/api/display.go:218-246 | a confirm cut short after its save: the mode is rolled back, the preference is not, and a normalization shows it without a record |
| Display.FailedSaveExample | orchestrator/internal/state/state.go:537-543 | the same after a failed save, without any crash |
| Display.CrashThenRecover | orchestrator/internal/api/display.go:175-216 | after a crash anywhere and a restart the screen is safe, or the recovery timer's rollback leads to a safe mode |
| Display.UnreadableRecordRun | orchestrator/internal/api/display.go:175-187 | the run over an unreadable record after which the only record leads to an unconfirmed mode |
| Display.ConfirmedIsNeverUndone | orchestrator/internal/api/display.go:387-448 | no later timer, revert call or restart reaches a confirmed change; if its mode was on screen at the confirm, it stays until another is applied or the layout normalized |
| Display.ConfirmOverPreviousExample | orchestrator/internal/api/display.go:218-246 | a rollback that could not clear its record, then a confirm that succeeds with the previous mode on screen |
| Display.RetriesExactly | orchestrator/internal/api/display.go:218-246 | in one daemon run k failed rollbacks of a change have armed k retry timers for k below 30, and 29 from then on, whatever else happens |
| Display.AttemptsCount | orchestrator/internal/api/display.go:218-246 | the attempts on record count the failed rollbacks of the change |
| Display.TimersRun | orchestrator/internal/api/display.go:218-246 | the timers, one after the other as they are armed, make a run of the machine |
| Display.TimersTakeBackExactly | orchestrator/internal/api/display.go:218-246 | a change nobody confirms is taken back exactly when one of the first thirty rollbacks can apply the previous mode, and the first that can also clears the record; otherwise thirty have been tried |
| Display.OldTokensAreInert | orchestrator/internal/api/display.go:218-226 | a timer, revert or confirm with another token does nothing |
| Display.RunConcat | orchestrator/internal/api/display.go:261-448 | handlers one after the other make a run of the machine |
| Display.DisplayServer.DisplaySet | orchestrator/internal/api/display.go:261-343 | setting a mode is a run of the machine; status, record, screen and pending change in every case |
| Display.DisplayServer.RollbackDisplay | orchestrator/internal/api/display.go:218-246 | rolling back is a run of the machine; the previous mode is shown, or the failure counted and the retry armed, up to 29 of them |
| Display.DisplayServer.DisplayConfirm | orchestrator/internal/api/display.go:387-429 | confirming is a run of the machine: screen, record and both copies of the preference in every case, memory changing before the save; the selected mode is on screen afterwards exactly when it was before |
| Display.DisplayServer.DisplayNormalize | orchestrator/internal/api/display.go:348-385 | normalizing shows the preference in memory, or a default, exactly when no change is pending and the mode is on screen or can be applied; it keeps the promise exactly when that preference is confirmed or baseline, a default was taken, or a record is on disk |
| Display.DisplayServer.SaveAnotherSetting | orchestrator/internal/state/state.go:446-458 | saving another setting also writes the preference in memory |
| Display.DisplayServer.RestartAndRecover | orchestrator/internal/api/display.go:175-216 | a crash and a restart are a run of the machine; the record is pending again when it can be read |
| Updater.ReplacePackage | orchestrator/cmd/cloudless-updater/main.go:1445-1470 | one file's turn, whole, unopened or torn: the package's other files go, and this one is there as far as it was written |
| Updater.CopyDebs | orchestrator/cmd/cloudless-updater/main.go:1433-1473 | the copy loop does `CopyAll` for all files, or for the ones before the first that fails, whose package has then lost its old files |
| Updater.SamePackageIsSameKey | orchestrator/cmd/cloudless-updater/main.go:1445-1451 | for names with an underscore, matching a package's file pattern is having its key |
| Updater.CopyMerges | orchestrator/cmd/cloudless-updater/main.go:1433-1473 | copying leaves the copied files and exactly the other packages' files |
| Updater.CopyReplacesPackages | orchestrator/cmd/cloudless-updater/main.go:1433-1473 | after a complete copy each copied package has exactly the copied file, other packages theirs, and still one file a package |
| Updater.VersionsAfterCopy | orchestrator/cmd/cloudless-updater/main.go:1433-1473 | in versions: the target's, overridden by the copied ones |
| Updater.InstallAll | orchestrator/cmd/cloudless-updater/main.go:1290-1302 | installing all files of a directory sets exactly their packages to their versions |
| Updater.RunKeepsInSync | orchestrator/cmd/cloudless-updater/main.go:678-787 | a run keeps every recovery package at its installed version exactly when it was not stranded over a covered package |
| Updater.RollbackRestores | orchestrator/cmd/cloudless-updater/main.go:733-748 | a run that rolled back ends in the versions it started with exactly when its upgrades were covered |
| Updater.UpdatedMeansProbed | orchestrator/cmd/cloudless-updater/main.go:621-787 | a run ends as updated exactly when there is something to install, nothing on the way fails, the probe passes and no rollback is asked for; then the candidates are installed and they are what is kept |
| Updater.HistoryKeepsInSync | orchestrator/cmd/cloudless-updater/main.go:678-787 | after any history without a stranded run, a covered rollback restores exactly the versions before |
| Updater.StrandedExample | orchestrator/cmd/cloudless-updater/main.go:761-763 | version 2 installed from its staged file but not kept, then a rollback to version 1 |
| Updater.AloneIsWellFormed | orchestrator/cmd/cloudless-updater/main.go:1445-1451 | one file with its package's name is a well-formed directory of that version |
| Updater.Updater.CopyWhole | orchestrator/cmd/cloudless-updater/main.go:1433-1473 | a copy that works merges the versions; one that fails is taken to change nothing |
| Updater.Updater.Rollback | orchestrator/cmd/cloudless-updater/main.go:1290-1302 | reinstalls every recovery package, and fails on an empty directory |
| Updater.Updater.InstallAndSettle | orchestrator/cmd/cloudless-updater/main.go:721-763 | from the install on: probe, then keep or put back, as `RunOnce` says |
| Updater.Updater.ApplyWithMode | orchestrator/cmd/cloudless-updater/main.go:621-787 | the whole run, over directories, is `RunOnce` over versions, and keeps both directories well formed |
| Updater.CaptureWorkload | orchestrator/cmd/cloudless-updater/main.go:1304-1338 | what must survive: the trimmed name of a ready engine and exactly the operations that need continuity |
| Updater.WorkloadContinuity | orchestrator/cmd/cloudless-updater/main.go:1361-1391 | passes exactly when the engine is the captured one and each captured operation is on record and not failed, aborted or stopped |
| RecipeLaunch.PreparationHarmless | orchestrator/internal/api/local_recipes.go:1730-2020 | no step before the switch is one whose failure is declared to need a rollback |
| RecipeLaunch.HarmlessKeeps | orchestrator/internal/api/recipe_failures.go:39-46 | and no such step changes the persisted runtime or what serves, whether it works or fails |
| RecipeLaunch.ManagedPreparationHarmless | orchestrator/internal/api/recipe_managed_lifecycle.go:252-346 | the same for managed containers |
| RecipeLaunch.ProbedAt | orchestrator/internal/api/local_recipes.go:2054-2117 | wherever a run commits the candidate, its private contract and its stable endpoint were probed before |
| RecipeLaunch.PersistedMeansProbed | orchestrator/internal/api/local_recipes.go:2054-2117 | at every point of a run, what is persisted is the candidate only if both probes of this run had succeeded |
| RecipeLaunch.CandidateStaysExactly | orchestrator/internal/api/recipe_rollback.go:93-110 | a rollback leaves the candidate on record exactly when it was committed, neither the previous runtime nor its unloaded form could be, and nobody else wrote |
| RecipeLaunch.CandidateStaysRun | orchestrator/internal/api/local_recipes.go:2108-2121 | a launch that ends so |
| RecipeLaunch.OthersLostExactly | orchestrator/internal/api/recipe_rollback.go:47-110 | what another operation commits before the restoring is lost exactly when a commit of the restoring works |
| RecipeLaunch.OverwritingRun | orchestrator/internal/api/local_recipes.go:2006-2012 | a launch whose rollback records that nothing is loaded while another operation's model serves |
| RecipeLaunch.RollbackNamesPrevious | orchestrator/internal/api/recipe_rollback.go:93-110 | any record but the previous runtime or its unloaded form takes a failed final commit and another failure |
| RecipeLaunch.LocalMilestonesOccur | orchestrator/internal/api/local_recipes.go:1718-2125 | the script of a launch has in this order: checkout, build, sending, download, revalidation; the engine stop, the runtime's start, its health and private contract, the proxy's pull and run, the endpoint's probe, the commit and the move to active, each at its boundary |
| RecipeLaunch.ManagedMilestonesOccur | orchestrator/internal/api/recipe_managed_lifecycle.go:308-498 | the same for managed containers, each worker's container started and recorded before this machine's own |
| RecipeLaunch.ScriptBoundaries | orchestrator/internal/api/local_recipes.go:1805-2104 | the boundaries of a launch, all twelve of a distributed one that builds and downloads here, in order |
| RecipeLaunch.BoundariesArePassed | orchestrator/internal/api/recipe_failures.go:39-46 | a launch in which nothing failed has passed exactly the boundaries of what it did |
| RecipeLaunch.ResourcesAreClaimed | orchestrator/internal/api/local_recipes.go:1770-1878 | whatever a launch may leave on this machine or a worker is put on record before the switch |
| RecipeLaunch.ManagedResourcesAreClaimed | orchestrator/internal/api/recipe_managed_lifecycle.go:262-308 | the same for managed containers |
| RecipeLaunch.Launch.Perform | orchestrator/internal/state/state.go:588-609 | the next effect works or fails as its step says and changes the host as the effect does, a commit all fields or none; before it another operation may act, if the lock is free; the candidate is written only after both probes |
| RecipeLaunch.Launch.PerformAll | orchestrator/internal/api/local_recipes.go:1730-2005 | effects in order up to the first that fails, none of which touches record or engine |
| RecipeLaunch.Launch.RestorePrevious | orchestrator/internal/api/recipe_rollback.go:50-91 | record first, then the launcher, which needs the free lock, then the record again; succeeds exactly when all of that did, and what is on record in every case, also when others act in between |
| RecipeLaunch.Launch.RestoreOrMarkUnloaded | orchestrator/internal/api/recipe_rollback.go:93-110 | what is on record afterwards for all failures and all interference; undisturbed, nothing is recorded as loaded that does not serve unless the last commit failed too |
| RecipeLaunch.Launch.CleanFailedRuntime | orchestrator/internal/api/recipe_rollback.go:28-45 | every part of the cleanup is tried, and the failed recipe no longer serves once the proxy is gone |
| RecipeLaunch.Launch.RollBack | orchestrator/internal/api/local_recipes.go:2006-2012 | releases the lock once, cleans up and restores; what others wrote in between is what restoring starts from |
| RecipeLaunch.Launch.StartUp | orchestrator/internal/api/local_recipes.go:2021-2080 | the engines stop, the recipe and the proxy start, or the first failure is the step's own |
| RecipeLaunch.Launch.Connect | orchestrator/internal/api/local_recipes.go:2081-2103 | proxy and port are recorded and the endpoint probed, or the proxy is taken away and the failure left for a rollback |
| RecipeLaunch.Launch.CommitCandidate | orchestrator/internal/api/local_recipes.go:2108-2121 | the commit, and the move to active whose failure comes after it |
| RecipeLaunch.Launch.SwitchOver | orchestrator/internal/api/local_recipes.go:2021-2121 | from the switch on, in the order of the script |
| RecipeLaunch.Launch.RunLocalRecipe | orchestrator/internal/api/local_recipes.go:1718-2125 | the launch follows the script step by step, each step failing or not on its own; it succeeds exactly when none fails, and has then done all milestones in order, passed all boundaries and claimed all it uses; a failure before the engine stop leaves engine and record untouched; a later one rolls back, as the table of boundaries says; the engine lock is taken and released once |
| RecipeLaunch.Launch.RunManagedRecipe | orchestrator/internal/api/recipe_managed_lifecycle.go:240-498 | the same for managed containers, with a container on each worker and their own rollback order |
| RecipeCleanup.LaunchMovesExactly | orchestrator/internal/recipeops/operation.go:64-111 | a launch moves from each phase to the next and to no later one; it can be stopped and recovered in each, and until it is active fail or be aborted |
| RecipeCleanup.ProofMessageExactly | orchestrator/internal/api/recipe_cleanup_retry.go:25-34 | the text test for a stale inventory proof accepts exactly an error that consists of one, alone or after a cancellation |
| RecipeCleanup.ProofMeansClean | orchestrator/internal/api/recipe_recovery.go:491-512 | when nothing is left over and every release was saved, no resource on record requires cleanup |
| RecipeCleanup.ReleaseTakesMissing | orchestrator/internal/api/recipe_recovery.go:491-512 | only resources seen to be missing are released |
| RecipeCleanup.ProveMeansClean | orchestrator/internal/api/local_recipes.go:2146-2167 | the same for the settling loop of an abort, over any number of looks |
| RecipeCleanup.FilterEmpty | orchestrator/internal/api/recipe_cleanup_retry.go:15-23 | an operation has no cleanup resources exactly when no resource on record requires cleanup |
| RecipeCleanup.StepKeepsInv | orchestrator/internal/api/local_recipes.go:2135-2196 | every step of finish, abort and retry, interleaved with a user's abort, keeps the evidence it rests on |
| RecipeCleanup.InvHolds | orchestrator/internal/api/local_recipes.go:2135-2196 | over the whole life of an operation |
| RecipeCleanup.AbortedRunsAreClean | orchestrator/internal/api/local_recipes.go:2135-2196 | a run is in the aborted phase only with no resource on record that requires cleanup |
| RecipeCleanup.EndsAbortedExactly | orchestrator/internal/api/local_recipes.go:2135-2188 | when its end is saved, a run is aborted exactly when it was canceled or was stopping, the cleanup worked, the proof was clean and it does not count as active; otherwise it failed |
| RecipeCleanup.AbortEndsAborted | orchestrator/internal/api/local_recipes.go:549-583 | over any life, an accepted abort, then a clean proof and a saved end put the run in the aborted phase with nothing left to clean up |
| RecipeCleanup.RetryEndsOnEvidence | orchestrator/internal/api/recipe_cleanup_retry.go:65-111 | a saved retry ends in its original phase, or as stopped when only a stale inventory proof had failed, exactly when nothing failed, and then with a clean record; otherwise as failed; one that could not be saved leaves the phase |
| RecipeCleanup.AbortedUncleanExactly | orchestrator/internal/api/local_recipes.go:2135-2188 | over any life, a step enters the aborted phase with a resource that requires cleanup exactly when it ends an operation that is no run, was canceled and still has one |
| RecipeCleanup.CanceledCheckExample | orchestrator/internal/api/local_recipes.go:2135-2188 | a check that ends so, with an error that is or carries a cancellation |
| RecipeCleanup.RetryStopsExactly | orchestrator/internal/api/recipe_cleanup_retry.go:65-101 | over any life, a successful retry of a failed operation ends it as stopped exactly when the last failure recorded was a stale inventory proof and nothing else; a first failure with a reason is forgotten only under a later one |
| RecipeCleanup.RetryRecordsProofExactly | orchestrator/internal/api/recipe_cleanup_retry.go:65-77 | when a retry records such a failure: it found something left and nothing else went wrong, or its own errors say no more |
| RecipeCleanup.OwnedIsReported | orchestrator/internal/api/recipe_recovery.go:467-469 | the error of a stop that leaves something is such a proof itself |
| RecipeCleanup.FinishRecordsProofExactly | orchestrator/internal/api/local_recipes.go:2146-2181 | and when the end of a run does: it was canceled, nothing else went wrong, and something was left, or its cause says no more |
| RecipeCleanup.ForgottenReasonExample | orchestrator/internal/api/recipe_cleanup_retry.go:65-101 | a run that failed for a reason, a retry that still sees its resource, and one that does not and ends it as stopped |
| RecipeCleanup.Server.Transition | orchestrator/internal/recipeops/operation.go:475-503 | a transition follows the table and is saved or undone |
| RecipeCleanup.Server.Release | orchestrator/internal/recipeops/operation.go:711-741 | a saved release leaves every other claim on record as often as before and none of this one; an unsaved one leaves the record |
| RecipeCleanup.Server.ReleaseMissing | orchestrator/internal/api/recipe_recovery.go:491-512 | the loop releases what is missing, reports the rest, and says whether a release failed |
| RecipeCleanup.Server.Settle | orchestrator/internal/api/local_recipes.go:2146-2167 | the settling loop does what `Prove` says |
| RecipeCleanup.Server.ProveRun | orchestrator/internal/api/local_recipes.go:2137-2181 | the verdict and the joined error of a finish |
| RecipeCleanup.Server.FinishOperation | orchestrator/internal/api/local_recipes.go:2135-2188 | finishing is the machine's two steps: prove, then record the phase |
| RecipeCleanup.Server.AbortOperation | orchestrator/internal/api/local_recipes.go:555-583 | an abort is accepted exactly for a run that has not ended when the save works, and moves it to stopping; otherwise it changes nothing |
| RecipeCleanup.Server.AskForRetry | orchestrator/internal/api/recipe_cleanup_retry.go:36-63 | a retry is accepted exactly for an ended operation with something to clean up or to prove |
| RecipeCleanup.Server.RetryCleanup | orchestrator/internal/api/recipe_cleanup_retry.go:65-111 | a retry is the machine's two steps, and succeeds exactly when the cleanup worked, nothing is left, every release was saved and so was the end, in its target phase |
| RecipeCleanup.Server.StopActive | orchestrator/internal/api/recipe_managed_lifecycle.go:500-525 | the record of what serves changes only after the resources are proved gone, and the run's phase only after that |
| Transfer.WalkIsPrefixFree | orchestrator/internal/api/recipe_incremental_transfer.go:31-89 | no entry of a walked manifest lies below another |
| Transfer.BuildManifest | orchestrator/internal/api/recipe_incremental_transfer.go:31-89 | the walk yields every file and link with the total of their sizes, or fails on one that is not acceptable |
| Transfer.AcceptableExactly | orchestrator/internal/api/recipe_incremental_transfer.go:31-89 | acceptable are files, and links that stay inside, whose names and targets hold no NUL, no carriage return and no newline |
| Transfer.BytesAdd | orchestrator/internal/api/recipe_incremental_transfer.go:31-89 | the total is that of the files' sizes; links count nothing |
| Transfer.ManifestListsTree | orchestrator/internal/api/recipe_incremental_transfer.go:31-89 | an accepted walk's manifest lists exactly the tree |
| Transfer.MissingEntries | orchestrator/internal/api/recipe_incremental_transfer.go:97-119 | the loop computes the expected entries not present in the same form, and their bytes |
| Transfer.ReportShows | orchestrator/internal/api/recipe_incremental_transfer.go:121-163 | a report, which comes in the peer's order and as JSON, has an entry where it is looked up exactly when, of all places that are read as its path, the last one holds it as read |
| Transfer.TextIsShown | orchestrator/internal/api/recipe_incremental_transfer.go:102-119 | a place whose name is UTF-8 hides the others that are read as it |
| Transfer.SeenIsText | orchestrator/internal/api/recipe_incremental_transfer.go:93-119 | an entry with a name or target that is no UTF-8 is never reported as expected, there or not |
| Transfer.SeenIsThereExactly | orchestrator/internal/api/recipe_incremental_transfer.go:93-119 | what is reported as expected is there exactly when its place holds a file, or a link whose target is UTF-8 |
| Transfer.ReportIsTrueExactly | orchestrator/internal/api/recipe_incremental_transfer.go:121-163 | a report is true of a place, whatever is expected there, exactly when a file is there or a link whose target is UTF-8, or nothing is read as that place |
| Transfer.MissingIsUnseen | orchestrator/internal/api/recipe_incremental_transfer.go:102-119 | what is missing is exactly what the peer does not report as expected |
| Transfer.MissingComplementsSeen | orchestrator/internal/api/recipe_incremental_transfer.go:102-119 | missing and reported bytes add up to the expected total |
| Transfer.ClearOneEffect | orchestrator/internal/api/recipe_incremental_transfer.go:165-199 | clearing a path makes its place free and reachable without links, and takes nothing unrelated |
| Transfer.ClearAllEffect | orchestrator/internal/api/recipe_incremental_transfer.go:165-199 | clearing any list of paths keeps what is related to none of them, and leaves no file or link that is at, above or below one |
| Transfer.ClearingPrepares | orchestrator/internal/api/recipe_incremental_transfer.go:165-199 | clearing paths that do not lie above one another prepares all of them |
| Transfer.ExtractPlaces | orchestrator/internal/api/recipe_incremental_transfer.go:201-252 | entries placed where nothing is all get there, and nothing else changes |
| Transfer.ReadyArePlaced | orchestrator/internal/api/recipe_incremental_transfer.go:201-252 | what tar writes into prepared places lands there, wherever links lead |
| Transfer.ExtractingKeeps | orchestrator/internal/api/recipe_incremental_transfer.go:201-252 | what tar writes without preparation, through links or not, changes no file or link but at the places it is led to |
| Transfer.ClearingTakesExactly | orchestrator/internal/api/recipe_incremental_transfer.go:165-199 | clearing unreported entries takes a verified one exactly when one of them is no UTF-8 and reads as a path at, above or below it |
| Transfer.AttemptKeepsExactly | orchestrator/internal/api/recipe_incremental_transfer.go:201-252 | an attempt cut anywhere keeps a verified entry that no expected path that is no UTF-8 reads as a relative of; one that clears all it wants to loses exactly the others |
| Transfer.TextAttempt | orchestrator/internal/api/recipe_incremental_transfer.go:201-252 | for a manifest in UTF-8, however an attempt ends: nothing reported or verified is lost, and one that sends all has all reported |
| Transfer.Staging.ClearInvalid | orchestrator/internal/api/recipe_incremental_transfer.go:165-199 | the cleanup script does `ClearAll` with the paths as it reads them |
| Transfer.Staging.IncrementalTransfer | orchestrator/internal/api/recipe_incremental_transfer.go:201-252 | an attempt keeps the verified entries that no path hits and loses those that one hits, changes nothing when all is reported, and succeeds exactly when in the end all is reported; with a manifest in UTF-8 it does when every command works |
| Transfer.Staging.RetryPeerTransfer | orchestrator/internal/api/recipe_incremental_transfer.go:254-278 | over at most three attempts no verified entry that no path hits is lost; success means a manifest in UTF-8 that is reported whole, and with one an attempt that works is enough |
| Transfer.LostEntryRun | orchestrator/internal/api/recipe_incremental_transfer.go:165-252 | a name of one byte that is no character: a verified entry is cleared, and the attempt fails though every command works |
| Transfer.DeceivedRun | orchestrator/internal/api/recipe_incremental_transfer.go:121-163 | a file under such a name is taken for the expected one, and the transfer succeeds without it |
| Promotion.ExchangesStaySafe | orchestrator/internal/api/recipe_model_staging.go:173-207 | at every state of an exchange a complete tree stands in one of the three places, and it is one that was there at the start |
| Promotion.HistoriesStaySafe | orchestrator/internal/api/recipe_model_staging.go:100-207 | over any number of crashed and retried runs nothing is lost as long as rebuilding starts from restorable states |
| Promotion.RebuildingSafeExact | orchestrator/internal/api/recipe_model_staging.go:125-146 | rebuilding the staging tree is safe exactly when the final or backup tree is complete or staging already is the source |
| Promotion.ChangedSourceExample | orchestrator/internal/api/recipe_model_staging.go:173-207 | two crashes and a changed source that lose every complete tree |
| Promotion.OneSourceStaysSafe | orchestrator/internal/api/recipe_model_staging.go:100-207 | with one source for all runs, no history of crashes and retries ever is without a complete tree |
| Promotion.RunKeepsOneSource | orchestrator/internal/api/recipe_model_staging.go:125-149 | every run of the program from that source belongs to such a history |
| Promotion.Repository.Promote | orchestrator/internal/api/recipe_model_staging.go:173-207 | refines the exchange; success installs the staged tree, whatever becomes of the backup; a failure whose restore works leaves the final tree unchanged |
| Promotion.Repository.PromoteByScript | orchestrator/internal/api/recipe_distribution.go:678-693 | the script refines the same exchange; it fails also when only its cleanup fails |
| Promotion.Repository.Rebuild | orchestrator/internal/api/recipe_model_staging.go:125-139 | rebuilding changes only the staging place, and not at all if that equals the source |
| Promotion.Repository.PromoteStaged | orchestrator/internal/api/recipe_model_staging.go:100-154 | a download is promoted exactly when it can be rebuilt, the exchange works and the manifest is saved; a manifest is recorded only for the tree that it describes and that is in place |
| ArtifactManifest.DecodeEncode | orchestrator/internal/api/recipe_artifact_manifest.go:151-160 | the bytes fed to the digest decode to the file list, whatever its paths contain |
| ArtifactManifest.DigestIdentifies | orchestrator/internal/api/recipe_artifact_manifest.go:151-160 | unless the hash collides, digests are equal exactly for equal lists |
| ArtifactManifest.Digest | orchestrator/internal/api/recipe_artifact_manifest.go:151-160 | the digest loop hashes the encoding, or fails on a NUL in a path or a malformed file hash |
| ArtifactManifest.Build | orchestrator/internal/api/recipe_artifact_manifest.go:40-108 | built manifests are sorted by path, with the total of the sizes and the digest of the encoding; the refused walks |
| ArtifactManifest.WalkIsEncodable | orchestrator/internal/api/recipe_artifact_manifest.go:44-108 | what a walk finds never makes the digest fail |
| ArtifactManifest.EveryNodeAgrees | orchestrator/internal/api/recipe_artifact_manifest.go:36-108 | walks that meet the same entries in any order give the same encoding |
| ArtifactManifest.VerifyOnWorker | orchestrator/internal/api/recipe_distribution.go:490-516 | the worker's verifier feeds the same encoding to its digest |
| ArtifactManifest.VerifiersDifferExactly | orchestrator/internal/api/recipe_distribution.go:490-516 | the snapshots that the daemon accepts and that have text paths are exactly those the worker accepts and that hold nothing but files |
| ArtifactManifest.VerifiersDifferExample | orchestrator/internal/api/recipe_distribution.go:490-516 | a snapshot only the worker accepts, and one only the daemon accepts |
| ArtifactManifest.WorkerMatchMeansContent | orchestrator/internal/api/recipe_distribution.go:675-677 | a worker with the expected digest has exactly the listed files |
| ArtifactManifest.CheckLoaded | orchestrator/internal/api/recipe_artifact_manifest.go:194-221 | the checks of loading, as one condition, and the manifest unchanged |
| ArtifactManifest.SavedLoadsExactly | orchestrator/internal/api/recipe_artifact_manifest.go:162-221 | a built manifest that was saved loads exactly when all its paths are UTF-8, and then with the same files and total |
| ArtifactManifest.UnloadableExample | orchestrator/internal/api/recipe_artifact_manifest.go:162-221 | a file named by the byte 0xFF: its manifest is built, saved, and never loads |
| Utf8.CoercedExactly | orchestrator/internal/api/recipe_artifact_manifest.go:163-166 | a string survives being written as JSON and read back exactly when it is UTF-8 |
| Utf8.CoercedByName | orchestrator/internal/api/recipe_incremental_transfer.go:170-177 | a path is coerced name by name |
| ArtifactManifest.SumOfSorted | orchestrator/internal/api/recipe_artifact_manifest.go:95-107 | sorting keeps the byte total |
| ArtifactManifest.Store.Save | orchestrator/internal/api/recipe_artifact_manifest.go:162-192 | after a save that failed a load finds what it found before; after one that worked, the built manifest, loadable exactly if its paths are text |
| ArtifactManifest.Store.Load | orchestrator/internal/api/recipe_artifact_manifest.go:194-221 | loading accepts exactly what the checks accept |
| CacheGC.ReferenceSet | orchestrator/internal/api/recipe_cache_gc.go:32-67 | the reference loops protect exactly the models some stored recipe or retained operation needs |
| CacheGC.RefsCover | orchestrator/internal/api/recipe_cache_gc.go:32-67 | as a property of the references themselves |
| CacheGC.ProtectCovers | orchestrator/internal/api/recipe_cache_gc.go:32-58 | a recipe's model and every one of its dependencies are protected |
| CacheGC.PruneBreaksExactly | orchestrator/internal/api/recipe_cache_gc.go:445-482 | a prune, even one cut short, breaks a link of a snapshot exactly when a blob goes that is itself a link and that this one passes |
| CacheGC.PruneTwiceExactly | orchestrator/internal/api/recipe_cache_gc.go:445-482 | a second prune takes nothing more exactly when every old blob that a link keeps is kept by one all of whose way is kept |
| CacheGC.PruneKeepsLinks | orchestrator/internal/api/recipe_cache_gc.go:445-482 | so it breaks none that leads straight to its blob |
| CacheGC.LinkedBlobExample | orchestrator/internal/api/recipe_cache_gc.go:445-482 | a blob that is a link is pruned, and the snapshot's link to it is broken |
| CacheGC.ShrunkResolvesExactly | orchestrator/internal/api/recipe_cache_gc.go:163-181 | after any removal a link resolves, and as before, exactly when all it passes is there |
| CacheGC.RemovalIsLocal | orchestrator/internal/api/recipe_cache_gc.go:163-181 | removing a candidate, however far it gets, spares every other revision and keeps the links that lead straight to their blobs |
| CacheGC.PrefixIsSafe | orchestrator/internal/api/recipe_cache_gc.go:96-183 | so does removing any prefix of the candidates: no revision but the named ones loses anything, and every surviving link that led straight to its blob still does |
| CacheGC.SoonerOrders | orchestrator/internal/api/recipe_cache_gc.go:484-491 | candidates are ordered by age and then by path, a weak order |
| CacheGC.AfterWorks | orchestrator/internal/api/recipe_cache_gc.go:412-424 | a removal that works takes snapshot and marker, and keeps of the repository's blobs exactly those that another snapshot's link ends at, that are incomplete or that are young |
| CacheGC.SweepFrees | orchestrator/internal/api/recipe_cache_gc.go:162-181 | when all removals work, a collection reports every candidate it tried as removed, and takes exactly their markers and snapshots; no blob is left in their repositories that could be pruned there, and when no blob is a link, no other blob is gone |
| CacheGC.SweepIsSafe | orchestrator/internal/api/recipe_cache_gc.go:162-181 | whatever fails, a collection takes no revision but those its candidates name |
| CacheGC.ThreatExact | orchestrator/internal/api/recipe_cache_gc.go:365-427 | a protected revision is named by a candidate exactly when an obsolete marker of another id shares its directory and revision |
| CacheGC.SharedDirectoryExample | orchestrator/internal/api/models.go:299-310 | a recipe that needs "a/b", an old marker of "a--b": the needed snapshot is the candidate, and its removal loses it |
| CacheGC.LostExactly | orchestrator/internal/api/recipe_cache_gc.go:163-181 | when every candidate goes, a protected snapshot is lost exactly if an obsolete marker of another id shares its directory and revision |
| CacheGC.ProtectedIsUnnamed | orchestrator/internal/api/recipe_cache_gc.go:365-427 | with a directory of its own, a protected revision is no candidate |
| CacheGC.ModelCache.CollectObsoleteSnapshots | orchestrator/internal/api/recipe_cache_gc.go:365-427 | the candidates are exactly the justified ones: old, unprotected, named by no refs entry |
| CacheGC.ModelCache.PruneUnreferencedBlobs | orchestrator/internal/api/recipe_cache_gc.go:445-482 | removes exactly the old blobs no snapshot links to, in the order of their names up to the first that cannot be removed |
| CacheGC.ModelCache.RemoveCandidate | orchestrator/internal/api/recipe_cache_gc.go:412-424 | snapshot, then marker, then blobs, each exactly as far as removals work; success means the snapshot and the marker are gone and the repository was pruned |
| CacheGC.ModelCache.RemoveCandidates | orchestrator/internal/api/recipe_cache_gc.go:162-181 | removes candidate after candidate in the order given, measuring the space after each success, all of them or, short of space, until enough is free; spares all other revisions, and breaks no link that leads straight to its blob |
| CacheGC.ModelCache.CollectGarbage | orchestrator/internal/api/recipe_cache_gc.go:96-183 | the candidates are exactly the justified ones, the oldest first; with at least 20 GiB free and all removals working, every marker that is obsolete for 30 days goes with its snapshot, and no blob that could be pruned is left in its repository; short of space it goes on until 20 GiB are free; it removes nothing that a refs entry names or that a recipe, a dependency or a retained operation needs in a directory of its own, and loses exactly the needed snapshots that another id's obsolete marker shares |
| ModelViews.ViewsStayAccounted | orchestrator/cmd/cloudless-privileged/model_views_linux.go:141-179 | each managed view was there before, shows a snapshot in full, or is what an interrupted removal left |
| ModelViews.MaterializeKeepsProgress | orchestrator/cmd/cloudless-privileged/model_views_linux.go:141-179 | after each snapshot the user's entries are unchanged and every view is accounted for |
| ModelViews.OtherViewsKept | orchestrator/cmd/cloudless-privileged/model_views_linux.go:141-179 | work on one snapshot leaves alone what is shown for another |
| ModelViews.CoveredGrows | orchestrator/cmd/cloudless-privileged/model_views_linux.go:71-80 | the snapshots done so far keep their views |
| ModelViews.ExpectedExactly | orchestrator/cmd/cloudless-privileged/model_views_linux.go:36-69 | a view is expected under a snapshot's name, and under that name with `-Cloudless` |
| ModelViews.RunIsHollowExactly | orchestrator/cmd/cloudless-privileged/model_views_linux.go:36-82 | a run leaves an incomplete view in two ways only: an interrupted removal kept its marker and lost a file, or it was incomplete and the run left it alone |
| ModelViews.ViewsAreHollowExactly | orchestrator/cmd/cloudless-privileged/model_views_linux.go:36-82 | over any number of runs, a view is incomplete exactly by such a removal that no later run touched, or from the start; where none was interrupted, whole views stay whole |
| ModelViews.IncompleteIsHollow | orchestrator/cmd/cloudless-privileged/model_views_linux.go:146-148 | a snapshot is shown incompletely exactly when its view is such a one and carries the marker of its revision |
| ModelViews.TornViewExample | orchestrator/cmd/cloudless-privileged/model_views_linux.go:146-158 | a removal cut short, and a later run that succeeds and takes the rest for the view of the revision |
| ModelViews.TornSinceStart | orchestrator/cmd/cloudless-privileged/model_views_linux.go:150-157 | a view that a run finds stale is not one it built itself |
| ModelViews.ModelsDirectory.RemoveLeftovers | orchestrator/cmd/cloudless-privileged/model_views_linux.go:54-69 | takes exactly interrupted builds and orphaned views |
| ModelViews.ModelsDirectory.Materialize | orchestrator/cmd/cloudless-privileged/model_views_linux.go:141-179 | changes one name at most, never a user's, and on success shows the revision there |
| ModelViews.ModelsDirectory.MaterializeAll | orchestrator/cmd/cloudless-privileged/model_views_linux.go:71-81 | success gives every snapshot a view at its name or its -Cloudless name |
| ModelViews.ModelsDirectory.Reconcile | orchestrator/cmd/cloudless-privileged/model_views_linux.go:36-82 | user entries are never changed; success settles the directory and leaves exactly the incomplete views that were there; a second run changes nothing; with working effects it fails only for names the user reserved |
| Selection.ChosenAreEnrolled | orchestrator/internal/api/recipe_cluster_selection.go:30-76 | exactly the required number of nodes, from different places of the enrolment; automatic ones are healthy and ready |
| Selection.NamedExactly | orchestrator/internal/api/recipe_cluster_selection.go:37-49 | a selector names a node exactly when it is the fingerprint, name or host of that one and of no other |
| Selection.FoldsExactly | orchestrator/internal/api/recipe_cluster_selection.go:40 | names and hosts are compared letter by letter, whatever the case |
| Selection.ChosenSucceedsExactly | orchestrator/internal/api/recipe_cluster_selection.go:17-76 | a selection succeeds exactly when enough nodes are enrolled and there are as many selectors as asked for, each picking a node of its own, or, without selectors, enough nodes are usable |
| Selection.SelectionSays | orchestrator/internal/api/recipe_cluster_selection.go:78-92 | the summary: how many machines take part, whether all workers are ready and healthy, and how to reach the first |
| Selection.AutomaticTakesFirst | orchestrator/internal/api/recipe_cluster_selection.go:57-75 | no usable node left out precedes a chosen one by fingerprint and host |
| Selection.NamedMatches | orchestrator/internal/api/recipe_cluster_selection.go:37-55 | a selector's node matches it, is enrolled once, and is the only one that matches |
| Selection.ChosenAgain | orchestrator/internal/api/recipe_cluster_selection.go:17-92 | choosing among the chosen gives the same nodes in the same order |
| Selection.SelectedAgain | orchestrator/internal/api/recipe_cluster_selection.go:17-92 | selecting from a selection gives the same state, every field of it |
| Selection.ChosenIgnoresOrder | orchestrator/internal/api/recipe_cluster_selection.go:30-76 | the order of enrolment does not matter: never with selectors, and automatically when fingerprint and host tell nodes apart |
| Selection.TiesGoByOrder | orchestrator/internal/api/recipe_cluster_selection.go:57-72 | of two nodes with the same fingerprint and host the one enrolled first is taken |
| Selection.FindMatch | orchestrator/internal/api/recipe_cluster_selection.go:38-49 | the scan finds the one match, or reports none or a second |
| Selection.ChooseNamed | orchestrator/internal/api/recipe_cluster_selection.go:34-55 | the selector loop resolves all selectors, or fails with the first error |
| Selection.ChooseAutomatic | orchestrator/internal/api/recipe_cluster_selection.go:57-75 | the automatic loop takes the first usable nodes in order, or reports too few |
| Selection.SelectCluster | orchestrator/internal/api/recipe_cluster_selection.go:17-92 | the whole selection, with its summary fields and its errors |
| Selection.PeerAliases | orchestrator/internal/api/recipe_distribution.go:62-83 | the names read back from the environment, and when they are refused |
| Selection.AliasesDiffer | orchestrator/internal/api/local_recipes.go:1142-1149 | different workers have different names |
| Selection.NamesComeBackExactly | orchestrator/internal/api/recipe_distribution.go:62-71 | the names come back as written exactly when the configured one has no comma and no space at its ends |
| Selection.CommaExample | orchestrator/internal/api/recipe_distribution.go:62-65 | a name with a comma comes back as two |
| SshHosts.LongerMatchesExactly | orchestrator/internal/api/local_recipes.go:1144-1159 | a pattern that matches a name matches a longer one exactly when it has a star and what follows its last star fits the new end |
| SshHosts.PatternsOf | orchestrator/internal/api/local_recipes.go:1159 | what SSH reads as patterns on the line that is written for a name |
| Selection.ContactedExactly | orchestrator/internal/api/local_recipes.go:1142-1164 | for every configured name: SSH's first stanza for the k-th name is the k-th one exactly when the name is no list, no option, no user, no URI and no negated pattern, holds nothing SSH refuses, and what follows its last star does not fit the k-th name's end |
| Selection.OrdinaryNamesReach | orchestrator/internal/api/local_recipes.go:1142-1164 | a name of letters, digits, dots, dashes and underscores leads every peer to its stanza |
| Selection.WildcardExample | orchestrator/internal/api/local_recipes.go:1142-1164 | with the name `w*` the second name leads to the first stanza |
| Selection.OtherNamesExample | orchestrator/internal/api/recipe_distribution.go:85-107 | negated patterns, options, pairs of patterns and users do not lead to the peer |
| Selection.PeersReachTheirMachines | orchestrator/internal/api/local_recipes.go:1098-1164 | the k-th peer's name leads through the SSH configuration to the k-th selected node, although configuration and peers come from separate selections, exactly under that condition |
| AliasStream.ReplaceAllJoins | orchestrator/internal/api/gateway.go:168-169 | replacing splits the text at successive first occurrences and joins the pieces around the replacement |
| AliasStream.ReplaceByLine | orchestrator/internal/api/gateway.go:168-169 | a pattern without newline is replaced line by line |
| AliasStream.EscapedIsOneLine | orchestrator/internal/api/gateway.go:167 | an alias in JSON has no newline, whatever its bytes |
| AliasStream.AliasReadsBack | orchestrator/internal/api/gateway.go:167-169 | the alias is written as a JSON string that reads back as the alias, as far as that is UTF-8, whatever follows |
| AliasStream.ModelIsRewritten | orchestrator/internal/api/gateway.go:168 | the served name in a model field becomes the alias and all other bytes stay |
| AliasStream.IdIsRewritten | orchestrator/internal/api/gateway.go:169 | the same for an identifier |
| AliasStream.RewriteByLine | orchestrator/internal/api/gateway.go:164-171 | both rewrites of a line do not depend on what follows it |
| AliasStream.AliasBody.Fill | orchestrator/internal/api/gateway.go:164-175 | the read loop ends, with something to deliver or nothing left to read |
| AliasStream.AliasBody.Read | orchestrator/internal/api/gateway.go:163-179 | delivers the next part of the rewritten body into the buffer and no more; reports the end exactly when all was delivered; moves on whenever the buffer is not empty |
| AliasStream.AliasBody.ReadAll | orchestrator/internal/api/gateway.go:163-179 | for any buffer sizes, what is delivered before the end is the rewrite of the whole body |
| AliasStream.Capture.Write | orchestrator/internal/api/gateway.go:268-283 | the captured bytes are the end of everything written, up to the limit |
| RateLimiter.RefillSplits | orchestrator/internal/api/gateway_security.go:52-54 | a refill between two calls changes nothing |
| RateLimiter.CallPays | orchestrator/internal/api/gateway_security.go:44-63 | an admitted call costs its key one token, any other costs it none |
| RateLimiter.WindowHolds | orchestrator/internal/api/gateway_security.go:44-63 | in every window a key is admitted at most as often as its tokens and earnings allow |
| RateLimiter.WindowBound | orchestrator/internal/api/gateway_security.go:33-63 | for every history and window: at most burst + rate·elapsed/60 admissions for a key |
| RateLimiter.BurstAtOnce | orchestrator/internal/api/gateway_security.go:48-62 | a new key gets exactly its burst at once |
| RateLimiter.WaitEarns | orchestrator/internal/api/gateway_security.go:55-58 | after the wait a token is earned, a second earlier it is not |
| RateLimiter.DenialsCostNothing | orchestrator/internal/api/gateway_security.go:52-58 | denied calls leave a bucket as time alone would |
| RateLimiter.WaitIsEnough | orchestrator/internal/api/gateway_security.go:55-62 | after the wait, with no admission between, a call is admitted exactly if the burst holds a request |
| RateLimiter.WaitIsNeeded | orchestrator/internal/api/gateway_security.go:55-58 | a call at least a second earlier is denied |
| RateLimiter.SmallBurstNeverAdmits | orchestrator/internal/api/gateway_security.go:53-58 | a burst below one request admits nobody, ever |
| RateLimiter.LimitsInUse | orchestrator/internal/api/gateway_security.go:33-42 | the key limit: at most 75 requests in any minute; the source limit: at most 150; both with waits that are enough |
| RateLimiter.SpacedIsAdmitted | orchestrator/internal/api/gateway_security.go:44-63 | a call that comes a token's time after the last one for its key is admitted, exactly if the burst holds a request |
| RateLimiter.RatesInUse | orchestrator/internal/api/gateway_security.go:33-63 | in numbers: exactly 15 or 30 requests at once, then one as soon as a second, or half of one, has passed, and not before |
| RateLimiter.KeysAreApart | orchestrator/internal/api/gateway_security.go:44-63 | calls for other keys leave a bucket alone |
| RateLimiter.Limiter.Allow | orchestrator/internal/api/gateway_security.go:44-63 | decides, refills, charges and names the wait as specified |
| ShellQuote.QuotedWord | orchestrator/internal/api/recipe_distribution.go:108-110 | the shell reads a quoted word as that one word |
| ShellQuote.RoundTrip | orchestrator/internal/api/recipe_distribution.go:85-110 | splitting the command gives back exactly the argument vector, empty and quoted words and newlines included |
| ShellQuote.CommandIsInjective | orchestrator/internal/api/recipe_distribution.go:95-110 | no two argument vectors are sent the same way |
| ShellQuote.BuildCommand | orchestrator/internal/api/recipe_distribution.go:95-102 | the quoting loop builds a command that splits into its arguments |

## Left out

- HTTP handlers, JSON decoding, audit logging, progress texts, timeouts and their clocks; a context that ends is an effect that fails.
- Hashing, signatures and the validators of releases and qualifications.
- Packs: reloading the pack list when the daemon restarts; uninstalling a single app (orchestrator/internal/api/server.go), which holds no pack's whole lock set.
- Display: the display is queried before the handler's lock is taken; the model makes query and change one step, which is the premise that no change was pending at the query. Applying a mode is all or nothing.
- Display: which default the layout policy takes when it cannot show a preference; the defaults are a set that counts as safe, as the comment on the policy says.
- Updater.Updater.CopyWhole: takes a copy to complete or to change nothing; `CopyDebs` models the loop that can stop halfway.
- Updater: an apt or dpkg call completes or changes nothing, and the directory for the recovery snapshot is new. The order in which globbing lists files is any order. The captured engine name is trimmed and compared with an untrimmed one (main.go:1315, 1366); the model keeps that.
- RecipeLaunch: a check, a command or a probe is a step that works or fails; what it computes is not modelled. Another operation is one that commits a runtime and serves it, between any two steps once the lock is free.
- RecipeLaunch.Launch.Perform: the engine launcher's own protocol is not modelled; it may persist any selection, and may fail.
- RecipeCleanup: an operation that disappears from the journal; recovery at daemon start, which also ends operations; pruning and tombstones; the order in which the inventory lists resources; case folding and white space beyond ASCII.
- Transfer: the order of the local manifest, the archive format, progress and rates; images and checkouts, which are sent by other code. A report with a path the daemon refuses is a scan that fails. The peer's Python runs with UTF-8 names, as it does in a container without a locale.
- Transfer.AttemptKeepsExactly: speaks of entries that no link on the peer leads onto from a place whose name is no UTF-8; where such links lead is an answer.
- Promotion: renames within one file system complete or change nothing; the parent directory that the script also removes is empty by then.
- Promotion.Repository.Promote: requires that the staging tree is complete or absent, which its only caller has just verified.
- ArtifactManifest: the wrap-around of a 64-bit byte total; reading and hashing files.
- Promotion.Repository.Rebuild: what seeding adds to the staging tree from the final one is not told apart from the source; a tree whose manifest differs from the source is another tree.
- CacheGC.ModelCache.CollectGarbage: staging volumes, backups, images and orphan directories, which are removed by age alone in the same order, and walks that fail. The free space measured is an answer. Revisions are plain names.
- CacheGC.ProtectedIsUnnamed: assumes that no other model id shares the revision's directory, because the promise is false otherwise (see above).
- ModelViews: that no snapshot is named like another with the suffix is a premise, also between runs; finding complete snapshots in the cache and hard links to their files are not modelled. A name that starts with the temporary prefix is not a user's, as the code takes it to be its own.
- ModelViews.ModelsDirectory.Publish: a temporary directory that could not be removed makes the build fail; the program may succeed when what was left does not collide.
- Selection: telemetry and the other state fields are one unchanged field; letters beyond ASCII in selectors are compared exactly.
- Selection.ContactedExactly: leaves out names with a line break in front of their text, which write lines of their own into the configuration, and names that hold both a user or a URI and a character that SSH refuses in a host. The rules are those of OpenSSH 9.6, without quoting on the line, which only refused names could use.
- AliasStream: how the buffered reader splits its source into reads; a source that ends is assumed to end again when read again.
- RateLimiter: rounding of floating point; the clock is assumed not to run backwards in the lemmas about histories.
- ShellQuote: reserved words, aliases and assignments, which unquoted words could be; commands built here have none.
- Preflight probes, capacity arithmetic, telemetry, log parsing, the web interface and packaging, which are wrappers or would add only easy members.
