# Adapter lifecycle: model and proofs

Adapters of a department pass through several protocols that share rows and a directory tree: a registry
queue publishes them, reviews and deployments use them, a purge deletes their artifacts, a release lets
their upstream data go, and a reconciliation cleans up what failed publications left behind. No
transaction spans the database and the file system, and any process may stop between any two steps. This
project models those protocols and proves what holds over all their runs.

A `factory.begin()` block is one atomic step, and so is each rename, unlink and directory removal. The
clock never goes back. Row versions start at 1. Hashes, identifiers of related rows and similar facts that
nothing rewrites are opaque values. A file system is a map from surface addresses to directories, each with
an identity and a map from names to file identities. A directory identity has a part that a rename keeps and
a part that it refreshes.

Where the source updates fields, the model has a class with those fields. Each method is proved to have
exactly the effect of a function on the old state, and the theorems are about runs of those functions.

| files | what they model |
|---|---|
| `ArtifactStore`, `Purge`, `PurgeProcess` | the storage calls, the purge as a machine of atomic steps, and the nested loops as methods that are proved to be runs of it |
| `PurgeFleet`, `PurgeFleetSafety`, `PurgeFleetSteps`, `PurgeContent` | any number of purge processes, each with its own memory, interleaved at every step; deletion safety for all their runs; that each step is one of the machine; and that only listed files are deleted |
| `PurgeSafety`, `PurgeGuards`, `PurgeOutcomes`, `PurgeProgress`, `PurgeResume` | one process at a time: its invariant; exactly when each transaction and storage call goes ahead, and what it leaves; agreement of rows and disk; resumption after any crash |
| `Release`, `Handoff` | the release of the upstream dependency, and exactly which purges it accepts |
| `Governance`, `GovernanceSafety`, `GovernanceLog`, `GovernanceAdmission`, `GovernanceTheorems`, `GovernanceClaims`, `GovernanceTrap`, `GovernanceDesk` | reviews, leased deployment operations, the deployment pointer, its event log, rollback retentions, and the fences against the purge; exactly when each transaction is accepted, and for how long a lease stands |
| `Registry`, `RegistrySafety`, `RegistryTheorems`, `RegistryClaims`, `RegistryLeases`, `RegistryProgress`, `RegistryQueue` | the claim and lease machine of the registry queue, what a lease grants, and the publication of finals |
| `ScanWindows`, `FamilyScan`, `CandidateSelection`, `SelectionOrder`, `SelectionFairness`, `ScanFairness`, `ConfirmationRetry` | the reconciliation's scan and selection: coverage, fairness, exactly which items are registered, and what waits forever |
| `Reconciliation`, `RegistrationExactly`, `CleanupConfirmation`, `ConfirmationExactly`, `ReconciliationRuns`, `ReconciliationTheorems` | registration with its fences, confirmation, exactly when either happens, and the runs of all reconciliation transactions |
| `ReconcileResume`, `ReconcileSafety` | one reconciliation item through any crashes; what it may delete, whatever others do to the disk |
| `Safetensors` | the layout validator |

## Where the code does less than it says

- **Release after a second registration.** A purge that ended blocked is registered again from
  `purge_pending`, and its snapshot records that status (`adapter_purge.py:311`, `:563`). Release expects
  `validated` (`adapter_lifecycle_release.py:200`) and refuses, for good.
  `Handoff.ReleaseAcceptsExactlyTheFirstPurge` gives the exact condition. `Handoff.CompletedPurgeIsRefused`
  shows for every adapter how a completed purge comes to fail it, and `Handoff.RefusedCompletion` is one
  adapter with its rows and files.
- **Reconciliation after a crash.** `reconcile_adapter_artifacts` calls itself crash-resumable. While the
  index of the next entry is 0 it re-verifies the whole tombstone (`adapter_artifact_maintenance.py:1949-1950`).
  A crash after the first unlink and before its advance therefore ends blocked; and so does, for a stage
  without files, a crash after the directory is removed and before the item is completed.
  `ReconcileResume.ResumesExactlyUnlessStuck` shows that these are the only such points, and
  `ReconcileResume.EverySurfaceCanGetStuck` that every surface has one.
- **Leaving a deployed adapter.** `enqueue_promotion` accepts an adapter that another review still retains;
  `_retention_for_outgoing` (`adapter_governance_worker.py:521-529`) then refuses to leave it.
  `GovernanceTheorems.LiveFinalizeSucceedsExactly` gives the exact condition for leaving,
  `GovernanceTrap.TheTrapIsReached` a run from the empty department into the refusing case, and
  `GovernanceTheorems.TrapIsForever` shows that no later transaction helps.
- **Starvation.** `docs/storage-policy.md:316` says that a blocked item cannot starve later valid items. That
  holds of stages, and of final surfaces with a valid manifest (`SelectionFairness.NoRowIsStarved`,
  `ScanFairness.WorkIsRegisteredInTime`). Two kinds of work rank below all of those: the confirmation of a
  cleaned-up attempt, and a final surface with an invalid manifest whose stage is completed
  (`adapter_artifact_maintenance.py:850-888`, `:1302-1313`). `ConfirmationRetry.RegisteredExactly` gives the
  exact condition, for every row and every kind of item, and `ConfirmationRetry.RegisteredOverRuns` that of
  whole runs. `ConfirmationRetry.ReadyAttemptWaitsForever` is an attempt that is never confirmed, and
  `ConfirmationRetry.InvalidFinalWaitsForever` a final surface that is never registered.

## Model

| member | source | states |
|---|---|---|
| PurgeFleetSafety.DeletionSafety | apps/api/app/adapter_purge.py:1168-1370 | For any number of processes, each with the inspection, plan and tombstone in its own memory, interleaved at every transaction and storage call, on the current operation and on ended ones, with crashes, new processes and arbitrary outside changes of the disk and of other protocols: the next step of any process changes the disk in one of three ways only, and only as its operation has committed. The whole surface with the recorded identity becomes its item tombstone; one planned entry of identical identity leaves the bound tombstone; the bound tombstone goes when it is empty and its plan is through. At the source, only behind the completed registry item |
| PurgeFleetSafety.AuthorityIsWrittenOnce | apps/api/app/adapter_purge.py:995-1165 | Over every further history, what an item has recorded of observation, plan, namespace and bound tombstone never changes, its index never falls, and a completed item stays completed. This is why a process may act on what it loaded long ago |
| PurgeFleetSafety.RecordsAgree | apps/api/app/adapter_purge.py:995-1165 | In every reachable state of any number of processes, in every operation there ever was, a reservation records the same progress as its item, and a source move is authorized only behind a completed registry item |
| PurgeFleetSafety.MoveIsSafe | apps/api/app/adapter_maintenance_artifacts.py:856-963 | A process that renames on the strength of its own copy of the item moves what the rows have committed |
| PurgeFleetSafety.UnlinkIsSafe | apps/api/app/adapter_maintenance_artifacts.py:1074-1118 | A process that unlinks on the strength of its own copy of plan and tombstone removes one entry of the committed plan, with the committed identity, from the tombstone bound in the rows |
| PurgeFleetSafety.RemoveIsSafe | apps/api/app/adapter_maintenance_artifacts.py:1120-1155 | A process that removes a directory removes the tombstone bound in the rows, empty and with its plan advanced through |
| PurgeFleetSafety.StepKeepsInv | apps/api/app/adapter_purge.py:1168-1370 | Every transaction and storage call of one of many processes keeps the invariant that joins each process memory to the rows |
| PurgeFleetSafety.HistoryKeepsInv | apps/api/app/adapter_purge.py:649-729 | That invariant holds after any history of any number of processes |
| PurgeFleetSteps.StepIsMachineStep | apps/api/app/adapter_purge.py:1168-1370 | In every reachable state of any number of processes, on current and ended operations, the step of a process on its operation is exactly the step of the machine of one process on the rows, operation and disk that this process sees, and touches nothing else: interleaving adds no behaviour of its own |
| PurgeFleetSteps.ReloadOnlyReads | apps/api/app/adapter_purge.py:1202-1242 | The one position without a counterpart only reads the item: the process goes on with what was committed, or with the tombstone that another process has bound |
| PurgeFleetSteps.RegistersExactly | apps/api/app/adapter_purge.py:478-646 | With no operation under way and an unpurged adapter, a process registers if and only if both resources are live or pending, both attempts are authoritative, and no evaluation, governance row or reconciliation names them, each written out; it then writes exactly the operation, the pending statuses and the versions. Otherwise it is refused, and no row and no other process changes |
| PurgeFleetSteps.OperationsBeginUnfenced | apps/api/app/adapter_purge.py:295-444 | Over all histories of any number of processes: whatever event adds an operation finds both resources live or pending and no fence up |
| PurgeContent.DeletesOnlyListedFiles | apps/api/app/adapter_maintenance_artifacts.py:521-693 | Over all histories of any number of processes, whatever happens to the disk: a step renames only a surface that holds exactly the files of its kind, each with the digest that the ownership manifest records, and unlinks only a file with the digest that the manifest gives it |
| PurgeSafety.DeletionSafety | apps/api/app/adapter_purge.py:649-729 | The same for the machine of one process at a time, which the nested loops are proved to run and which the resumption theorems are about |
| PurgeSafety.SourceComesSecond | apps/api/app/adapter_purge.py:680-720 | With one process at a time, a process about to rename, unlink or remove for the source surface works behind a registry item that has completed |
| PurgeSafety.StepKeepsInv | apps/api/app/adapter_purge.py:1168-1370 | Every transaction and every storage call of the one running process keeps the row and process invariant, with no assumption about the disk or the fences |
| PurgeSafety.EveryProcessEnds | apps/api/app/adapter_purge.py:649-729 | Every process ends within the number of steps that its position allows, whatever the storage answers |
| PurgeGuards.RegistersExactly | apps/api/app/adapter_purge.py:295-646 | With no operation under way and an unpurged adapter, a new process registers if and only if both resources are live or pending, both attempts are authoritative and all three fences (evaluation, governance, reconciliation) are down, each written out; what it writes is given field by field. Otherwise it is refused and no row changes |
| PurgeGuards.ResumesExactly | apps/api/app/adapter_purge.py:497-543 | With an operation under way, a new process takes it up if and only if both resources are pending and neither an evaluation nor a governance row names them; nothing is written |
| PurgeGuards.OperationsBeginUnfenced | apps/api/app/adapter_purge.py:363-444 | Over all histories: whatever event brings an operation into being finds both resources live or pending and no fence up |
| PurgeGuards.CapturesExactly | apps/api/app/adapter_purge.py:941-992 | A registered item is inspected only for a pending and unfenced pair, by an item that no other process has taken further; otherwise the process is refused or blocks the item, and nothing is written |
| PurgeGuards.CommitsExactly | apps/api/app/adapter_purge.py:995-1044 | A move is committed if and only if the pair is still pending and unfenced, and item, reservation and authority are as they were captured; both records then carry exactly the inspection, its plan and the namespace of the item |
| PurgeGuards.RenamesExactly | apps/api/app/adapter_purge.py:1047-1091 | A process goes on to the rename if and only if the move is committed in both records and the pair is pending and unfenced at that moment |
| PurgeGuards.BindsExactly | apps/api/app/adapter_purge.py:1094-1165 | A moved surface is bound if and only if the move is committed in both records, with one namespace, the pair is pending and unfenced, and the authority is still that of the reservation; an item already bound to exactly this tombstone goes on, and one bound to another is blocked |
| PurgeGuards.CompletesExactly | apps/api/app/adapter_purge.py:1417-1534 | In every reachable state: an operation whose items have all completed completes if and only if no evaluation or governance row names the pair and no tombstone is left at either address; both resources are then purged, with one audit. With a blocked item it ends with blocks, and while an item is active it stays |
| PurgeOutcomes.InspectsExactly | apps/api/app/adapter_maintenance_artifacts.py:521-693 | A surface with exactly its three files, each with the digest that the ownership manifest records, is recorded as it is, in the order of the names; any other is blocked, and a missing one too |
| PurgeOutcomes.MovesExactly | apps/api/app/adapter_maintenance_artifacts.py:856-963 | In every reachable state, whatever is on the disk: the committed surface is renamed if and only if it is there as it was inspected, with exactly the files of the plan, and its namespace can be listed and is empty; behind foreign tombstones the process is refused, and in all other cases it looks for an earlier move. Nothing else on the disk is touched |
| PurgeOutcomes.RecoversExactly | apps/api/app/adapter_maintenance_artifacts.py:997-1062 | An earlier move is taken up if and only if the surface is gone and the tombstone of the item is the only one, with the inspected directory and exactly the files of the plan; otherwise which code blocks the item, or whether the process is refused |
| PurgeOutcomes.MarksExactly | apps/api/app/adapter_purge.py:1245-1293 | An entry is put in flight in both records, one already passed is skipped, and a retry is told apart by its own marker |
| PurgeOutcomes.UnlinksExactly | apps/api/app/adapter_maintenance_artifacts.py:1074-1118 | A file is unlinked if and only if the bound directory still has it with the planned identity; one already gone is passed only on a retry, and anything else is blocked |
| PurgeOutcomes.RemovesExactly | apps/api/app/adapter_maintenance_artifacts.py:1120-1155 | The bound directory is removed if and only if it is empty; one already gone is passed only on a retry |
| PurgeOutcomes.FinishesExactly | apps/api/app/adapter_purge.py:1340-1370 | What completing an item writes in both records |
| PurgeOutcomes.BlocksExactly | apps/api/app/adapter_purge.py:1373-1414 | An item that has not completed is blocked with the code of the error, in both records, and keeps what it had recorded |
| PurgeOutcomes.SelectsExactly | apps/api/app/adapter_purge.py:732-860 | The source waits for a completed registry item and is blocked if that has ended otherwise; an item goes on from where its record says |
| PurgeProgress.StepKeepsFit | apps/api/app/adapter_purge.py:1168-1370 | With one runner, a step keeps rows and disk in agreement: for each surface, the recorded phase, the index of the next entry and the entry in flight say exactly which files are still where |
| PurgeProgress.SiblingsFit | apps/api/app/adapter_maintenance_artifacts.py:1164-1191 | Tombstones of items that the service never issued may appear and vanish at any moment without disturbing that agreement |
| PurgeProgress.HistoryKeepsFit | apps/api/app/adapter_purge.py:1168-1370 | The agreement holds after every history of steps, crashes at any point, restarts and foreign siblings |
| PurgeResume.Resumption | apps/api/app/adapter_purge.py:649-729 | Take a purge that no process has begun, or that has ended blocked and whose surfaces are back in place, and any such history. A rerun that no fence or foreign tombstone obstructs returns with adapter and source purged and exactly the two surfaces gone from the disk |
| PurgeResume.CrashesDoNotMatter | apps/api/app/adapter_purge.py:649-729 | Without outside changes, a rerun after any sequence of crashes ends with the same disk as one uninterrupted run |
| PurgeResume.SiblingsOnlyDelay | apps/api/app/adapter_maintenance_artifacts.py:1282-1291 | Foreign tombstone siblings, whenever they appear, are never touched, never block an item or the operation, and never make the process fail with an untranslated error |
| PurgeResume.ActiveProceeds | apps/api/app/adapter_purge.py:1580-1641 | A registered operation that no fence obstructs passes every later authority check |
| PurgeResume.QuietRun | apps/api/app/adapter_purge.py:1168-1370 | From an undisturbed state the machine runs through to a return, without a detour over a blocked item |
| PurgeResume.PurgedDisk | apps/api/app/adapter_maintenance_artifacts.py:1120-1155 | When both rows are purged, the disk is the original one without the two surfaces |
| PurgeResume.BegunOrUntouched | apps/api/app/adapter_purge.py:1417-1534 | After any such history either the rows are as they were, or an operation is under way that no history ends blocked, with the earlier operation behind it |
| PurgeProcess.PurgeStore.MatchesManifest | apps/api/app/adapter_maintenance_artifacts.py:521-601 | Exactly the allowed files are there, each with the digest that the ownership manifest records |
| PurgeProcess.PurgeStore.Verify | apps/api/app/adapter_maintenance_artifacts.py:603-645 | No error exactly when the directory identity, the set of names and every file identity are those of the plan |
| PurgeProcess.AdapterPurge.Intend | apps/api/app/adapter_purge.py:1181-1201 | A registered item is inspected and its intent committed: some number of machine steps, from the run this call continues |
| PurgeProcess.AdapterPurge.MoveAndBind | apps/api/app/adapter_purge.py:1202-1242 | A verified item is moved, or an earlier move is recovered, and bound: some number of machine steps |
| PurgeProcess.AdapterPurge.DeleteEntry | apps/api/app/adapter_purge.py:1245-1318 | One entry is marked, unlinked and passed: some number of machine steps, and the plan stays |
| PurgeProcess.AdapterPurge.DeleteDirectory | apps/api/app/adapter_purge.py:1319-1370 | The directory is removed and the item completed: some number of machine steps |
| PurgeProcess.AdapterPurge.ExecuteItem | apps/api/app/adapter_purge.py:1168-1370 | The loop over the deletion plan is a run of the machine, through to the end of the item or to the error that the caller catches |
| PurgeProcess.AdapterPurge.ExecuteOperation | apps/api/app/adapter_purge.py:680-729 | The loop over the items, the registry item first, and finalization are a run of the machine to its end |
| PurgeProcess.AdapterPurge.PurgeArtifacts | apps/api/app/adapter_purge.py:649-729 | One call leaves exactly the rows, disk and ending of the complete run of the machine, so everything proved of the machine holds of the nested loops; when that run registers, resumes and refuses is `PurgeGuards.RegistersExactly` and `PurgeGuards.ResumesExactly` |
| Handoff.HistoryKeepsLaw | apps/api/app/adapter_purge.py:544-634 | After any history the versions obey one law: registration and finalization each add one to adapter and source, registering again adds nothing, and past operations are blocked ones |
| Handoff.ReleaseAppliesExactly | apps/api/app/adapter_lifecycle_release.py:844-919 | A release is applied if and only if the validation accepts, the dependency is active, and at neither address there is a surface, a tombstone or a namespace that cannot be listed; it then adds one to the versions of adapter and dependency, and one audit. An earlier release is only reported, under the same conditions, and everything else is a conflict that changes nothing |
| Handoff.PutBackIsConflict | apps/api/app/adapter_lifecycle_release.py:772-794 | End to end: after any crashes and siblings, the rows of the resumed purge are released on exactly those disks on which neither a surface nor a tombstone of it has been put back, and are a conflict on all others |
| Handoff.AcceptanceVouches | apps/api/app/adapter_lifecycle_release.py:524-735 | What acceptance vouches for, in any ledger, field by field: expected versions, purged rows, authoritative attempts, nothing active or holding, and one operation, audited once, that purged them, with item and reservation of both surfaces agreeing in manifest, record, namespace and authority |
| Handoff.ReleaseAcceptsExactlyTheFirstPurge | apps/api/app/adapter_lifecycle_release.py:163-227 | After any purge history, release validation accepts if and only if the expected versions are current, no other protocol holds the adapter, the operation has completed, and it is the first registration. The code refuses a completed purge that had to be registered again |
| Handoff.BlockedPurgeIsRegisteredAgain | apps/api/app/adapter_purge.py:295-360 | A purge that finds its registry surface missing ends blocked after ten steps with all rows but the operation as registration left them, and the next call registers it again with a pending status in its snapshot |
| Handoff.RepeatedPurgeIsRefused | apps/api/app/adapter_lifecycle_release.py:163-227 | A purge registered behind a blocked one, after any crashes and siblings, purges both resources and both surfaces, and release refuses it with whatever versions |
| Handoff.CompletedPurgeIsRefused | apps/api/app/adapter_lifecycle_release.py:193-227 | For every eligible adapter: the registry surface is missing, the purge ends blocked, the surfaces are put back, the next call purges everything, and release refuses that completed purge |
| Handoff.RefusedCompletion | apps/api/app/adapter_lifecycle_release.py:844-919 | One adapter for which all of that happens, from its rows and files to the conflict |
| Handoff.BlockedPurgeIsNeverReleased | apps/api/app/adapter_lifecycle_release.py:575-600 | Once a blocked operation is in the past, no further history ever gives rows that release accepts |
| Handoff.PurgeThenRelease | apps/api/app/adapter_lifecycle_release.py:844-919 | A rerun that no fence obstructs, after any crashes, ends in rows that release accepts and applies: adapter version three above the start, source two, dependency one |
| Handoff.ReleaseTwice | apps/api/app/adapter_lifecycle_release.py:893-911 | A second release with the returned versions changes nothing and says so; with any other versions it is a conflict and changes nothing |
| Release.UpstreamRelease.SuccessfulOperation | apps/api/app/adapter_lifecycle_release.py:575-600 | The one completed operation that matches the rows, and nothing if there are none or several |
| Release.UpstreamRelease.AssertCompletedPurge | apps/api/app/adapter_lifecycle_release.py:603-735 | The loops over reservations and items decide the completed-purge predicate |
| Release.UpstreamRelease.AssertStorageAbsent | apps/api/app/adapter_lifecycle_release.py:772-794 | Both surfaces are gone and both tombstone namespaces are empty |
| Release.UpstreamRelease.LoadAuthority | apps/api/app/adapter_lifecycle_release.py:242-572 | The whole validation decides the acceptance predicate that the handoff theorems characterize |
| Release.UpstreamRelease.Release | apps/api/app/adapter_lifecycle_release.py:844-919 | The new ledger and the result are those of the release function, in every case of conflict, repetition and application; which case applies when is `Handoff.ReleaseAppliesExactly`, from the rows and the disk |
| GovernanceSafety.RunKeepsInv | apps/api/app/adapter_governance_worker.py:550-869 | Every interleaving of the review, evaluation, deployment, retention and purge transactions keeps the department invariant |
| GovernanceSafety.LifecycleExclusion | apps/api/app/adapter_purge.py:363-444 | In every reachable state, an adapter that is deployed, retained, under a pending review or an active evaluation, or named by an active operation is validated at exactly the recorded version, and no purge of it is registered |
| GovernanceSafety.ActiveIsStable | apps/api/app/adapter_governance_services.py:1043-1048 | An active operation is the only one, is running exactly when it has a claim, and the deployment, retention and review that it was enqueued for have not moved |
| GovernanceAdmission.PromotionExactly | apps/api/app/adapter_governance_services.py:1018-1094 | Over all runs: a promotion is enqueued if and only if the department is at the expected version with no operation under way, the requester is authorized, and the review, at the version given, has approved exactly this version of the adapter, which is not the deployed one; the operation appended has the whole target, written out, and nothing else changes |
| GovernanceAdmission.RollbackToBaseExactly | apps/api/app/adapter_governance_services.py:1125-1146 | A rollback to the base model is enqueued if and only if the department is at the expected version with no operation under way and an adapter is deployed |
| GovernanceAdmission.RollbackToAdapterExactly | apps/api/app/adapter_governance_services.py:1147-1225 | Over all runs: a rollback to an adapter is enqueued if and only if there is a pointer at the expected version, no operation is under way, the retention named is active at the version given and holds this adapter version, and that is not the deployed one; its target is what was retained. That the review, the evaluation and the adapter of that target still stand needs no check: the invariant gives it |
| GovernanceAdmission.StartReviewExactly | apps/api/app/adapter_governance_services.py:530-652 | Over all runs: a review opens if and only if the evaluation, at the version given, has succeeded on the present version of the adapter, and no evaluation of the adapter is active and no review of that version pending |
| GovernanceAdmission.TransitionExactly | apps/api/app/adapter_governance_services.py:655-768 | Over all runs: exactly when a review is approved, rejected or archived, and what that writes |
| GovernanceAdmission.CancelExactly | apps/api/app/adapter_governance_services.py:1320-1374 | A queued operation is cancelled at once and a running one is asked to stop, at the version given and at no other; nothing else changes |
| GovernanceAdmission.ReleaseRetentionExactly | apps/api/app/adapter_governance_services.py:1417-1561 | Over all runs: a retention is released by hand if and only if it still holds the adapter at its present version, both at the versions given, and that is not deployed, evaluated or under review, in a department with no operation under way; the event recorded moves nothing |
| GovernanceAdmission.RegisterPurgeExactly | apps/api/app/adapter_purge.py:363-444 | A purge is registered if and only if none is active, the adapter is validated or pending, and nothing holds it: no active evaluation, pending review, deployment, retention or operation under way |
| GovernanceAdmission.FinalizePurgeExactly | apps/api/app/adapter_purge.py:1417-1534 | Over all runs: a registered purge ends with blocks, or purges the adapter if and only if nothing holds it, for the version it was registered at |
| GovernanceAdmission.ClaimExactly | apps/api/app/adapter_governance_worker.py:422-462 | Over all runs: the one operation under way is claimed if and only if it is queued or its lease has run out, under a token never drawn, with a lease of exactly the seconds asked for, first claim and reclaim alike |
| GovernanceAdmission.ClaimIsLive | apps/api/app/adapter_governance_worker.py:422-495 | Over all runs: for as long as the lease says and whatever others do, the claim returned stays live and nobody else claims the operation, until its own worker ends it |
| GovernanceAdmission.HeartbeatIsLive | apps/api/app/adapter_governance_worker.py:311-332 | The same from the moment of a renewal |
| GovernanceAdmission.LapsedIsTaken | apps/api/app/adapter_governance_worker.py:422-462 | No lease outlives its time: left alone for as long as the lease says, a running operation is owned by nobody and goes to whoever claims next |
| GovernanceAdmission.HeartbeatExactly | apps/api/app/adapter_governance_worker.py:311-332 | A renewal succeeds if and only if the claim is the current one of a running operation, its lease still runs and no cancellation is asked for; the new lease ends the seconds asked for from now |
| GovernanceAdmission.FailExactly | apps/api/app/adapter_governance_worker.py:872-898 | Only the live owner ends its operation, as cancelled if and only if that was asked for |
| GovernanceAdmission.FinalizeExactly | apps/api/app/adapter_governance_worker.py:550-869 | Over all runs: the answer of a finalization in all cases, in their order, and what it writes: on success the pointer at the next version, the success event with its retention, the retention that was used or left behind, and the end of the operation; on every other answer only the end that it stands for |
| GovernanceSafety.FinalizeKeepsInv | apps/api/app/adapter_governance_worker.py:550-869 | Finalization keeps the invariant on all its paths |
| GovernanceSafety.PromotionKeepsInv | apps/api/app/adapter_governance_services.py:1018-1094 | Enqueueing a promotion keeps the invariant; when one is accepted is `GovernanceAdmission.PromotionExactly` |
| GovernanceSafety.RollbackKeepsInv | apps/api/app/adapter_governance_services.py:1097-1225 | Enqueueing a rollback to the base model or to an adapter keeps the invariant; when one is accepted is `GovernanceAdmission.RollbackToAdapterExactly` |
| GovernanceSafety.TransitionKeepsInv | apps/api/app/adapter_governance_services.py:655-768 | A review transition keeps the invariant: in particular no archived review leaves a deployment or a retention without its authority |
| GovernanceSafety.ReleaseKeepsInv | apps/api/app/adapter_governance_services.py:1417-1561 | Releasing a rollback retention keeps the invariant |
| GovernanceSafety.RegisterPurgeKeepsInv | apps/api/app/adapter_purge.py:363-444 | Registering a purge behind its fences keeps the invariant |
| GovernanceLog.RunKeepsRecord | apps/api/app/adapter_governance_worker.py:721-846 | In every reachable state the event log replays, agrees with the deployment row, numbers each success once, and accounts for every retention |
| GovernanceTheorems.ReplayReconstructsPointer | apps/api/app/adapter_governance_worker.py:721-846 | Replaying the events from the base model at version zero gives the deployed target (adapter, versions, review and evaluation) and its deployment version, in every reachable state |
| GovernanceTheorems.ReleasesDoNotMatter | apps/api/app/adapter_governance_services.py:1517-1547 | A log without its retention releases replays to the same view |
| GovernanceTheorems.SuccessesAreConsecutive | apps/api/app/adapter_governance_worker.py:721-770 | The success events of a log that replays lead from version 0 to 1, from 1 to 2, and so on, up to the replayed version |
| GovernanceTheorems.RetentionHistory | apps/api/app/adapter_governance_worker.py:498-547 | An adapter version that some event left and that is not deployed has exactly one active retention, unless a release ended the last one and nothing left it again; there are never two |
| GovernanceTheorems.ExactlyOnce | apps/api/app/adapter_governance_worker.py:550-869 | In every reachable state, an operation has one success event and one success audit if it has succeeded and none otherwise, and the deployment version is the number of succeeded operations |
| GovernanceClaims.SupersededClaimIsInert | apps/api/app/adapter_governance_worker.py:422-495 | For every run in which an operation is claimed again, and every run after that: the earlier claim changes nothing through heartbeat, finalize or fail, of that operation or any other |
| GovernanceClaims.RunKeepsTokens | apps/api/app/adapter_governance_worker.py:422-462 | In every reachable state, the tokens in use have been drawn and no two operations hold the same one |
| GovernanceTheorems.StaleStaysStale | apps/api/app/adapter_governance_worker.py:422-462 | An issued token that is live nowhere never becomes live again |
| GovernanceTheorems.FinishedStays | apps/api/app/adapter_governance_worker.py:872-898 | No transaction rewrites an operation that has succeeded, failed or been cancelled |
| GovernanceTheorems.CancelledNeverDeploys | apps/api/app/adapter_governance_services.py:1320-1374 | Once a cancellation is accepted, no run whatever gives the operation a success event |
| GovernanceTheorems.LeaveSucceeds | apps/api/app/adapter_governance_worker.py:498-547 | The deployed adapter can be left if and only if there is none, or its authority stands and no other review retains it |
| GovernanceTheorems.LiveFinalizeSucceedsExactly | apps/api/app/adapter_governance_worker.py:654-713 | In every reachable state a live finalize never raises the deployment-version or the rollback-target error, and it succeeds if and only if the outside checks pass and the outgoing adapter can be left |
| GovernanceTheorems.PromotionUnderAnotherReviewTraps | apps/api/app/adapter_governance_services.py:1018-1094 | Not every deployed adapter can be left: promoting an adapter that another review still retains is accepted, is claimed and finalized, and traps the department |
| GovernanceTrap.TheTrapIsReached | apps/api/app/adapter_governance_worker.py:521-529 | A run of 17 transactions from an empty department leads into the trap, and every further run stays in it |
| GovernanceTrap.RunReaches | apps/api/app/adapter_governance_worker.py:550-869 | After each of the 17 transactions, the whole state of the department |
| GovernanceTheorems.TrapHolds | apps/api/app/adapter_governance_worker.py:521-529 | In a trapped department no transaction moves the deployment or ends the other retention |
| GovernanceTheorems.TrapIsForever | apps/api/app/adapter_governance_worker.py:521-529 | A trapped department stays on its adapter over every further run |
| GovernanceDesk.Department.FindRetention | apps/api/app/adapter_governance_worker.py:498-547 | The active retention of the adapter version, if there is one |
| GovernanceDesk.Department.ClaimNext | apps/api/app/adapter_governance_worker.py:422-462 | The loop takes the oldest operation that is queued or whose lease has run out, under a token never issued before; fields and claim are those of the step in the run theorems |
| GovernanceDesk.Department.Finalize | apps/api/app/adapter_governance_worker.py:550-869 | Every refusal leaves all fields as they were; otherwise fields and reply are those of the finalize step in the run theorems |
| RegistrySafety.TerminalizationIsTotal | apps/api/app/adapter_registry_queue.py:1696-1885 | If all attempts but the last are terminal, the terminal claim failure never takes its claim-lost exits on the rows that a claim works on: it ends adapter and last attempt together, also inside a partly updated claim |
| RegistrySafety.ClaimIsTotal | apps/api/app/adapter_registry_queue.py:215-425 | Under the attempt invariant the claim transaction with all its exits is the simple one: reclaim the expired attempt, take the registered one, or fail both |
| RegistrySafety.PreparedHasOneRegistered | apps/api/app/adapter_registry_queue.py:260-353 | After the reclaim part of a claim exactly one attempt is registered, it is the last, and it carries the adapter's identity |
| RegistrySafety.TakenTerminates | apps/api/app/adapter_registry_queue.py:307-408 | Also after the adapter and the attempt are taken, the failure path ends both |
| RegistrySafety.ClaimKeepsInv | apps/api/app/adapter_registry_queue.py:215-425 | A claim, reclaiming or not, successful or failing, keeps the invariant over rows, workers and storage |
| RegistrySafety.RenameKeepsInv | apps/api/app/adapter_registry_artifacts.py:385-409 | A publication, by a live or a superseded worker, keeps the invariant |
| RegistrySafety.RunKeepsInv | apps/api/app/adapter_registry_queue.py:446-594 | Any interleaving of claims, heartbeats, worker steps, stale workers and passing time keeps the invariant |
| RegistryTheorems.OneMatchingAttempt | apps/api/app/adapter_registry_queue.py:1632-1648 | In every reachable state, a queued or running adapter has exactly one active attempt; it matches in identity and worker, and its version is the one of its status (1 to 4). Otherwise no attempt is active |
| RegistryTheorems.RowsOnlyGrow | apps/api/app/adapter_registry_queue.py:815-845 | Versions never fall, no attempt disappears, and no terminal attempt becomes active again |
| RegistryTheorems.ClaimsNeverRaise | apps/api/app/adapter_registry_queue.py:215-425 | In every reachable state a claim never raises: a claimable adapter is running under the new claim, or failed together with its attempt, according to what the claim finds |
| RegistryTheorems.LiveProcessProceeds | apps/api/app/adapter_registry_queue.py:758-779 | A worker whose token is current and whose lease runs passes the live-claim check, and its own final is the one it finishes with |
| RegistryLeases.ClaimExactly | apps/api/app/adapter_registry_queue.py:215-425 | In every reachable state, what a claim that finds everything in order writes: a first claim takes the registered attempt, a reclaim ends the expired attempt and takes a new one under a new identity, and either way the lease ends exactly the seconds asked for from now |
| RegistryLeases.RefusedClaimExactly | apps/api/app/adapter_registry_queue.py:215-425 | In every reachable state, what a claim that finds something out of order writes: adapter and attempt end failed together, with the first code that applies |
| RegistryLeases.LeaseIsKept | apps/api/app/adapter_registry_queue.py:758-779 | A lease once granted neither moves nor passes on before it has run out, whatever all workers do, unless its own worker renews, gives up or finishes |
| RegistryLeases.ClaimIsLive | apps/api/app/adapter_registry_queue.py:215-425 | Over all runs: from a claim with a positive number of seconds on, first claim or reclaim, the claim returned is live at every time before its lease ends, and no other claim takes the adapter before then |
| RegistryLeases.RenewalIsLive | apps/api/app/adapter_registry_queue.py:428-443 | The same from the moment of a renewal |
| RegistryLeases.LapsedIsTaken | apps/api/app/adapter_registry_queue.py:215-425 | No lease outlives its time: left alone for as long as the lease says, the claim of a worker is no longer live, and the adapter goes to whoever claims next |
| RegistryLeases.WorkerWritesExactly | apps/api/app/adapter_registry_queue.py:815-845 | In every reachable state an action of a worker writes rows if and only if its token is the one of the adapter, the lease runs and the authority stands; and then exactly what is written out for a renewal, a mark, the success and each kind of failure. Otherwise it stops at its next mark |
| RegistryProgress.UndisturbedWorkerPublishes | apps/api/app/adapter_registry_queue.py:446-594 | Progress: from every reachable state in which the adapter can be claimed and there is no final, a claim that finds all in order and eight operations of its worker, undisturbed and in time, leave adapter and attempt succeeded, with the manifest of the worker and a complete final |
| RegistryProgress.StorageStepsExactly | apps/api/app/adapter_registry_artifacts.py:338-452 | In every reachable state a storage step of a worker, live or superseded, creates, fills or unmarks exactly its own stage, makes it the final if there is none, and stops if there is one; nothing else on the disk changes |
| RegistryClaims.SupersededWorkerIsInert | apps/api/app/adapter_registry_queue.py:758-845 | Once the token of an adapter is no longer a worker's own, then over every further run nothing that the worker does changes a row; and it creates no final, unless it had passed its last check before the rename by then |
| RegistryTheorems.FinalIsForever | apps/api/app/adapter_registry_artifacts.py:385-409 | A published final is never replaced |
| RegistryTheorems.SingleOwner | apps/api/app/adapter_registry_artifacts.py:338-409 | In every reachable state, a final is complete and was created by exactly one claim; a validated adapter's publication attempt is that creator's |
| RegistryQueue.Queue.FindActive | apps/api/app/adapter_registry_queue.py:1696-1885 | The indices of the active attempts |
| RegistryQueue.Queue.FindMatching | apps/api/app/adapter_registry_queue.py:1632-1648 | The indices of the active attempts that match the identity |
| RegistryQueue.Queue.ClaimNext | apps/api/app/adapter_registry_queue.py:215-425 | The transaction on the fields is the claim function in all its exits; what it writes and for how long the lease stands is `RegistryLeases.ClaimExactly` and `RegistryLeases.ClaimIsLive` |
| RegistryQueue.Store.PrepareRegistryStage | apps/api/app/adapter_registry_artifacts.py:338-383 | A stage is created only if none of its name exists; it is a new directory, and no other changes |
| RegistryQueue.Store.Recheck | apps/api/app/adapter_registry_artifacts.py:156-165 | True exactly when the directory is the handle's own, where the handle says, before and after the rename |
| RegistryQueue.Store.PublishRegistry | apps/api/app/adapter_registry_artifacts.py:385-409 | Succeeds exactly when the handle's own complete stage is in place and there is no final; then that directory is the final. An existing final is never replaced and no other stage changes |
| RegistryQueue.Store.VerifyRegistryFinal | apps/api/app/adapter_registry_artifacts.py:411-452 | True exactly when the handle's own directory is the final, with its complete set of files |
| ScanWindows.CircularCoverage | apps/api/app/adapter_artifact_maintenance.py:539-604 | From any cursor, every row that stays in a stream of N rows is inspected by one of the next ceil(N/q)+1 windows of quota q, even while other rows leave |
| ScanWindows.CeilDivIsCeiling | apps/api/app/adapter_artifact_maintenance.py:539-604 | The bound is the ceiling of N/q |
| ScanWindows.SmallestSpec | apps/api/app/adapter_artifact_maintenance.py:568-570 | An ordered and limited query reads the least keys, in order, and as many as the limit allows |
| FamilyScan.QuotasCoverTheLimit | apps/api/app/adapter_artifact_maintenance.py:607-657 | For every legal limit and both families, the quotas sum to eight times the limit, at most 1000, none is zero, and they differ by at most one |
| FamilyScan.KeysetWindow | apps/api/app/adapter_artifact_maintenance.py:539-604 | Suffix scan with wrap-around: exactly the window of the coverage theorem |
| FamilyScan.FamilyCursors.FamilyWindow | apps/api/app/adapter_artifact_maintenance.py:607-657 | The merged rows are, as a multiset, exactly the windows of all streams: the final truncation drops no row that a cursor has passed. They are sorted and within the limit, and every cursor is at its window's boundary |
| FamilyScan.Merge | apps/api/app/adapter_artifact_maintenance.py:656-657 | The merged rows are sorted and are all the rows of both |
| CandidateSelection.SelectCandidates | apps/api/app/adapter_artifact_maintenance.py:1251-1361 | The loops sort the scanned rows and gather exactly the items of the selection that the fairness theorems are about |
| CandidateSelection.SortRows | apps/api/app/adapter_artifact_maintenance.py:1226-1251 | The rows in the order of their fairness key |
| CandidateSelection.SortRanks | apps/api/app/adapter_artifact_maintenance.py:822-893 | The order is by lane, count, latest block, creation time and identifier, for all pairs of rows |
| SelectionOrder.OrderExactly | apps/api/app/adapter_artifact_maintenance.py:822-893 | Rows are taken by class (some applicable surface never tried; some not done; only the confirmation left), then by the number of failures that count, then by the time of the last one, then by creation and identifier; the first difference decides |
| SelectionOrder.WantsExactly | apps/api/app/adapter_artifact_maintenance.py:1251-1361 | When a row wants its final surface, is ready for confirmation or is passed over, from the histories of the surfaces that apply to it and to its siblings |
| SelectionFairness.RoundProgresses | apps/api/app/adapter_artifact_maintenance.py:1251-1361 | As long as a scanned row with work outside the last lane has been tried at most n times, every operation registers some surface that has been tried at most n times, whichever finals of siblings take precedence |
| SelectionFairness.ScannedRowsAreTried | apps/api/app/adapter_artifact_maintenance.py:822-893 | Over any operations, with any windows, limits, quarantines and outcomes, a row is scanned at most 2(n+2)N times while it has been tried at most n times and still has work outside the last lane |
| SelectionFairness.NoRowIsStarved | apps/api/app/adapter_artifact_maintenance.py:822-893 | A row whose stage, or final surface with a valid manifest, has work left and that is scanned more than 2(n+2)R times, n being its count and R the number of rows, is registered for the surface that ranks it |
| SelectionFairness.RegistrationIsBounded | apps/api/app/adapter_artifact_maintenance.py:1251-1361 | One operation takes at most as many attempts as its limit, only scanned ones, and at most one final surface of each resource |
| ScanFairness.WorkIsRegisteredInTime | apps/api/app/adapter_artifact_maintenance.py:539-893 | Scan and selection together: a row whose stage, or final surface with a valid manifest, has work left, in a stream of N fixed rows of which each operation reads q, is registered for the surface that ranks it by one of the next (2(n+2)R+1)(ceil(N/q)+1) operations, n being its count and R the number of rows, however their items end |
| ConfirmationRetry.RegisteredExactly | apps/api/app/adapter_artifact_maintenance.py:1251-1361 | In every operation, for every row and every kind of item: the item is registered if and only if the row is scanned and not quarantined away, has that item to register (an unfinished stage; a final surface that it wants and that no scanned row of the same resource ahead of it wants; or readiness for confirmation), and the scanned rows that rank ahead of it take fewer places than the limit |
| ConfirmationRetry.RegisteredOverRuns | apps/api/app/adapter_artifact_maintenance.py:1251-1361 | The same over all runs of operations: an item is registered in some round if and only if some round admits it |
| ConfirmationRetry.BacklogKeepsLastLaneOut | apps/api/app/adapter_artifact_maintenance.py:867-887 | As many scanned rows with an unfinished stage as the operation may take keep every item of a row of the last lane out, be it a confirmation or a final surface |
| ConfirmationRetry.LastLaneWaitsForRepair | apps/api/app/adapter_artifact_maintenance.py:867-887 | While nothing of such a backlog is repaired, no sequence of operations registers anything for such a row |
| ConfirmationRetry.ReadyAttemptWaitsForever | apps/api/app/adapter_artifact_maintenance.py:867-887 | Two attempts and a limit of 1: the second is ready for confirmation and scanned by every operation, and for every n, none of n operations retries it |
| ConfirmationRetry.InvalidFinalWaitsForever | apps/api/app/adapter_artifact_maintenance.py:850-888 | Three new attempts, two of them of one resource with invalid manifests: after the first operation the third wants its final surface and is scanned by every operation, and for every n, none of n operations of limit 1 registers anything for it |
| Reconciliation.StructuralWindow | apps/api/app/adapter_artifact_maintenance.py:676-752 | The loop over the counted siblings returns exactly the eligible attempts of the window |
| Reconciliation.ActiveIsAlone | apps/api/app/adapter_artifact_maintenance.py:734-752 | An active attempt that is eligible is its source's only eligible attempt |
| Reconciliation.RegistrationIs | apps/api/app/adapter_artifact_maintenance.py:1031-1051 | Registration of any selected candidates, in any order, with stale sources abandoned on the way, never refuses; each item is its candidate with the versions after abandonment, and nothing else in the rows changes |
| Reconciliation.RegistrationFencesHold | apps/api/app/adapter_artifact_maintenance.py:1544-1643 | Right after the registration transaction, every item passes the authority check of a load: its expected versions are the live ones, also of sources abandoned on the way |
| RegistrationExactly.EligibleExactly | apps/api/app/adapter_artifact_maintenance.py:676-752 | An attempt is eligible if and only if its source is unprotected and undecided, all its siblings are terminal, and it is itself terminal, or at work, old enough and of a source still being staged |
| RegistrationExactly.RegistersExactly | apps/api/app/adapter_artifact_maintenance.py:964-1057 | A registration begins an operation if and only if none is open, something is picked, and every pick is admissible, field by field; it then writes exactly the items with their versions, abandons exactly the picked attempts that are still at work, with their sources, and changes nothing else |
| RegistrationExactly.ItemRunsThrough | apps/api/app/adapter_artifact_maintenance.py:1779-2008 | An undisturbed item that can be loaded runs through: its surface is moved, emptied and removed, the item completes, and no other item and nothing else on the disk changes |
| RegistrationExactly.ItemsGoForward | apps/api/app/adapter_artifact_maintenance.py:1779-2136 | No action changes of an item anything but its status, and that only while it can be loaded: by one phase, or to its end |
| RegistrationExactly.ItemStepsExactly | apps/api/app/adapter_artifact_maintenance.py:1779-2136 | What the transactions of an item write, phase by phase, and that each needs an item that can be loaded |
| RegistrationExactly.DiskStepsExactly | apps/api/app/adapter_maintenance_artifacts.py:856-1155 | A surface that is there, without an earlier tombstone of it, becomes the tombstone of the item; entries leave one by one; an empty tombstone goes; in all other cases the disk stays |
| RegistrationExactly.FinalizesExactly | apps/api/app/adapter_artifact_maintenance.py:2362-2413 | Over all runs an operation ends as soon as every item has come to an end, and not before |
| ReconciliationTheorems.NoLaterLoadFails | apps/api/app/adapter_artifact_maintenance.py:1503-1643 | Over all runs of the real transactions and storage calls (registration with abandonment, item statuses, completion with confirmation, confirmation retries, moves, unlinks, removals), in any order and with any crashes, while only the reconciliation writes rows: every active item can be loaded, although confirmations change fenced versions |
| ReconciliationTheorems.ConfirmedForGood | apps/api/app/adapter_artifact_maintenance.py:2139-2359 | From the state in which an attempt is confirmed on, over every further run and whatever other protocols do: its row never changes again, it has no active item, no item is registered for it, and no selection may pick it |
| ReconciliationTheorems.ConfirmedMeansClean | apps/api/app/adapter_artifact_maintenance.py:2074-2359 | Over all runs, an attempt is confirmed only by the transaction that ends an item of its own, with every applicable surface finished, none active, and nothing of the attempt or its family on the disk |
| ReconciliationTheorems.ConfirmedStaysGone | apps/api/app/adapter_artifact_maintenance.py:2139-2359 | A confirmed attempt has left no surface and no tombstone, and while nothing else writes the disk it stays so over every further run |
| ReconciliationRuns.RunKeepsInv | apps/api/app/adapter_artifact_maintenance.py:964-1057 | In every reachable state items belong to terminal attempts, only items of the open operation are active, and a confirmed attempt has no active item |
| CleanupConfirmation.Maintenance.RegisterItems | apps/api/app/adapter_artifact_maintenance.py:1031-1051 | The loop registers what the registration theorem says, or the transaction is rolled back |
| CleanupConfirmation.Maintenance.SurfaceIsDone | apps/api/app/adapter_artifact_maintenance.py:2139-2359 | The loop decides whether some item of the surface completed and none is active |
| ConfirmationExactly.ConfirmsExactly | apps/api/app/adapter_artifact_maintenance.py:2139-2359 | A confirmation happens if and only if the attempt is terminal, its source undecided and unprotected, every sibling terminal, its manifest absent or valid and matching, every applicable surface (only the stage without a manifest) completed and none under way, and nothing of the attempt or its family on the disk: all from the fields of rows, items and storage |
| ConfirmationExactly.CompletionConfirmsExactly | apps/api/app/adapter_artifact_maintenance.py:2074-2359 | Over all runs: the transaction that completes the last applicable surface of an undecided attempt confirms it, with and without a manifest, if and only if nothing of it is on the disk and no tombstone of the family is left |
| ConfirmationExactly.RetryConfirmsExactly | apps/api/app/adapter_artifact_maintenance.py:2092-2120 | Over all runs: a retry confirms if and only if the same holds without its own item, and is blocked otherwise |
| ConfirmationExactly.LoadsExactly | apps/api/app/adapter_artifact_maintenance.py:1503-1643 | An item is loaded if and only if it is under way in the open operation, the versions of its source and attempt are those registered, and nothing protects or decides the source |
| CleanupConfirmation.Maintenance.ConfirmCleanup | apps/api/app/adapter_artifact_maintenance.py:2139-2359 | The rows and the answer are those of the confirmation function, which `ConfirmationExactly.ConfirmsExactly` characterizes from the fields, with and without a manifest |
| ReconcileResume.ResumesExactlyUnlessStuck | apps/api/app/adapter_artifact_maintenance.py:1779-2008 | Reconciliation calls itself crash-resumable. Take any crashes and restarts of an item that is not blocked yet: one more process ends with it completed and surface and tombstone gone, except if and only if no entry is advanced past and the first file is unlinked, or the plan is empty and the directory removed; then it ends blocked |
| ReconcileResume.EverySurfaceCanGetStuck | apps/api/app/adapter_artifact_maintenance.py:1945-1950 | For every surface, with files or without, a crash after the twelfth step is such a point |
| ReconcileResume.HistoryFits | apps/api/app/adapter_artifact_maintenance.py:1779-2008 | After every history of steps, crashes and restarts, the recorded progress says exactly which files are still where |
| ReconcileSafety.DeletionSafety | apps/api/app/adapter_artifact_maintenance.py:1779-2008 | Over all histories of an item, with crashes, restarts and any changes of the disk by others: a step changes the disk in one of three ways only, each backed by the row. The surface as it was inspected, with only allowed names, becomes the tombstone; the next entry, marked in flight and as it was inspected, leaves it; and it goes when it is empty and its plan through |
| ReconcileSafety.InspectsExactly | apps/api/app/adapter_maintenance_artifacts.py:521-601 | What inspection records, and when it is an error, for stages and finals |
| ReconcileSafety.MovesExactly | apps/api/app/adapter_maintenance_artifacts.py:856-963 | The rename happens if and only if there is no tombstone and the surface is there as it was inspected, with exactly its files |
| ReconcileSafety.RecoversExactly | apps/api/app/adapter_maintenance_artifacts.py:997-1062 | An earlier move is taken up if and only if the surface is gone and the tombstone is the directory inspected, with exactly its files |
| ReconcileSafety.UnlinksExactly | apps/api/app/adapter_maintenance_artifacts.py:1074-1118 | A file is unlinked if and only if the bound tombstone still has it with the identity recorded; one already gone is passed only on a retry |
| ReconcileSafety.RecordsExactly | apps/api/app/adapter_artifact_maintenance.py:1779-2008 | What each transaction of an item writes, in every reachable state; a retry is told apart by what was recorded before |
| ReconcileSafety.GoesOnExactly | apps/api/app/adapter_artifact_maintenance.py:1779-1960 | Where a process goes on: from what the row records, behind a tombstone only if the move was authorized, and into the loop only with the whole tombstone as long as nothing of it is recorded as passed |
| ReconcileSafety.FailsExactly | apps/api/app/adapter_artifact_maintenance.py:2011-2071 | After an error the item is blocked, unless the surface is gone and the tombstone is the one moved or bound, with every file of the plan |
| Safetensors.ScanAcceptsExactlyTilings | apps/api/app/adapter_contract.py:651-662 | For any nonempty ranges, sort-and-scan ends at the payload size if and only if every byte of the payload lies in exactly one range and none leaves it |
| Safetensors.AcceptsExactlyValidLayouts | apps/api/app/adapter_contract.py:576-671 | For any header, the validator accepts with a dtype and summary if and only if the names are the expected ones, all tensors have that dtype, the expected shape and the size it implies, the ranges tile the payload, and the file is prefix, header and payload; the totals are then constants |
| Safetensors.ExpectedNamesAreExact | apps/api/app/adapter_contract.py:210-222 | The 392 expected names are distinct, and are exactly those of the 28 layers |
| Safetensors.ElementTotalIsFixed | apps/api/app/adapter_contract.py:228-241 | The elements of the expected shapes total 28 x 360448 = 10092544, so that check follows from the checks of the tensors |
| Safetensors.SortSpec | apps/api/app/adapter_contract.py:651-662 | Sorting orders the ranges by begin, then end, and changes neither which there are nor how often each byte is covered |
| Safetensors.TensorsChecked | apps/api/app/adapter_contract.py:605-647 | The loop accepts if and only if every tensor is valid for the dtype of the first |
| Safetensors.TensorsGathered | apps/api/app/adapter_contract.py:605-647 | What the loop has gathered on acceptance are the ranges of all tensors and the total of their shapes |
| Safetensors.Reader.ReadExact | apps/api/app/adapter_contract.py:491-508 | Exactly the requested bytes, joined from consecutive reads, if and only if some number of further reads gives exactly that many |
| Safetensors.ReadHeader | apps/api/app/adapter_contract.py:579-594 | A header is returned if and only if the reads give an admissible one, and then it is that one: a prefix of eight bytes, little-endian, positive and within the bound, which the file can hold, and exactly that many bytes after it. Too large a file and too large a header are told apart, each exactly, from all else that is invalid |
| Safetensors.LittleExactly | apps/api/app/adapter_contract.py:585-586 | The value of a prefix of eight bytes is their little-endian sum |
| Safetensors.Layout | apps/api/app/adapter_contract.py:576-671 | The checks after the header is parsed give the verdict of the validation function |
| Safetensors.BuildExpectedNames | apps/api/app/adapter_contract.py:210-222 | The nested loops build the expected names |
| Safetensors.ValidateTensors | apps/api/app/adapter_contract.py:605-647 | The loop over dtype, ranges and elements gives the verdict and the totals of the tensor checks |
| Safetensors.Sort | apps/api/app/adapter_contract.py:651-662 | The sorted ranges of the tiling theorem |
| Safetensors.Scan | apps/api/app/adapter_contract.py:651-662 | The loop over the previous end accepts what the tiling theorem characterizes |

## Left out

Purge and release:

- Queries, row locks, isolation levels and `authorize_transaction`: transactions are atomic and serialized, and authorization is a boolean input.
- Descriptors, `fsync`, ownership and mode checks of single files, and the parent directories that emptied tombstones leave behind.
- PurgeResume.Resumption: assumes one process at a time, because a concurrent process can make the other see a missing file (`adapter_purge.py:1266-1293`) and turns back to deleting what the other has blocked (`adapter_purge.py:1257-1276`), and foreign tombstones as the only outside changes. The same holds of all results of `PurgeProgress`, `PurgeResume`, `PurgeProcess` and `Handoff`. Deletion safety is proved for any number of processes and arbitrary outside changes.
- PurgeSafety.DeletionSafety: one process at a time; `PurgeFleetSafety.DeletionSafety` is the statement for any number of them.
- `PurgeFleet.SelectItem` and `Purge.SelectItem` read the order of the items and whether the registry item has completed in one step, where the source uses two transactions. That is harmless: a completed item stays completed (`PurgeFleetSafety.AuthorityIsWrittenOnce`).
- `PurgeProcess`, `GovernanceDesk`, `RegistryQueue`, `Release`, `CleanupConfirmation.Maintenance`: the methods without a row in the table do one transaction or storage call each, with exactly the effect of the step of the same name.
- The fences of a purge against other protocols are three booleans in `Purge`; `Governance` models what the governance fence looks at. The fence on the active retrieval runtime snapshot is part of the same boolean.
- `_block_item` maps unknown codes to a default one; the model has only the known codes. Item limits, the dry run and the result counters of a call are not modelled.
- Timestamps other than completion. Initial versions are 1: `app.models` is not part of this model.
- Release.UpstreamRelease.Release: models the applying transaction with its repeated validation, not the validation transaction before it, whose result is not used for any write.

Governance:

- Evaluation leases and artifacts: an evaluation is active or not, and when one ends it may succeed or fail.
- Artifact verification, requester authorization and shutdown are inputs of finalization; the heartbeats during verification are separate steps.
- GovernanceDesk.Department.ClaimNext: claims within one department; the order among departments is not modelled.
- Audit payloads, pagination, cursors and the read-only projections.

Registry:

- One adapter with its attempts; the order in which the queue looks at adapters is not modelled.
- Child process results, training-bundle and source checks are boolean inputs of a claim and of a live-claim check. `adapter_registry_queue.py:873-895` compares keys that `adapter_registry_domain.py:279` does not allow, and lines 1058-1071 read fields that `ClaimedAdapter` does not declare.
- RegistryTheorems.SingleOwner: assumes that nothing but the service changes the registry directories.

Reconciliation:

- CandidateSelection.SelectCandidates: keeps all selected rows; the source drops those that another transaction has locked (`SKIP LOCKED`). Items are all completed or blocked between operations, because an unfinished operation is resumed instead of a new selection; a blocked confirmation is one that failed to confirm.
- SelectionFairness.NoRowIsStarved: rows of the lanes 0 and 1, because of lane 2 it is false; `ConfirmationRetry` has the exact condition for all lanes.
- ScanFairness.WorkIsRegisteredInTime: the same lanes, for the same reason.
- Reconciliation.StructuralWindow: the source family; the registry family has the same shape with fewer conditions and abandons nothing.
- ReconcileResume.ResumesExactlyUnlessStuck: one process and one item, which nothing else disturbs; no foreign tombstones, and no other transaction that changes what its checks look at. What the item may delete is proved for any outside changes of its surface and tombstone (`ReconcileSafety.DeletionSafety`).
- ReconciliationTheorems.NoLaterLoadFails: the source family, and item rows without versions. That a manifest is an object is part of what makes it valid.

Safetensors and the rest:

- JSON parsing, canonical forms, SHA-256 and the adapter configuration contract: the header is given parsed, and `Safetensors.ReadHeader` ends with its bytes. Tensor names are a datatype of layer, module and matrix; their spelling is not modelled.
- Subprocess supervision, frame transport, HTTP, tokens, command-line entry points and environment settings.
