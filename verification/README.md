# Addon Manager, modelled and proved in Dafny

Addon Manager is a Kubernetes operator that installs addons by running Argo workflows. Two controllers
work on the same Addon record: the addon controller, which drives prerequisites, install and delete, and
the workflow controller, which copies the phase of a workflow into the record. Both act on copies that may
be stale, and both write one shared status through the same updater. This project models that protocol,
the operations it is made of, the dependency resolver, the version cache, and the text formats around
them, and proves what they guarantee for every input, every interleaving and every iteration order.

`dafny verify dfyconfig.toml` checks the whole project.

## Layout

| file | contents |
|---|---|
| `AddonTypes.dfy` | the Addon resource, its phases and the operations on its status |
| `Text.dfy` | splitting, joining, trimming, hexadecimal |
| `WorkflowNames.dfy` | workflow names: composing, taking apart, length |
| `VersionCache.dfy` | the nested version cache and the flat map it stands for |
| `Dependencies.dfy` | the depth-first dependency search and the graph it decides about |
| `Validation.dfy` | the validator, over all iteration orders |
| `Reconciler.dfy` | one reconcile of the addon controller as a machine that stops at every API call |
| `Outcomes.dfy` | what a reconcile does, case by case: its calls, its end, its status field by field |
| `AddonController.dfy` | the controller's methods, proved to run that machine |
| `Updater.dfy` | the status updater with its retry loop and race guard, and the workflow controller |
| `Protocol.dfy` | all interleavings of both controllers, the API server, Argo and the user |
| `Evidence.dfy` | what a recorded success is evidence of; installs come after prerequisites |
| `Undisturbed.dfy` | a reconcile that nothing disturbs, from its read to its landed write |
| `Safety.dfy`, `Theorems.dfy` | what every run keeps: writes, completed phases, finalizers, deletion |
| `CacheAgreement.dfy` | the cache agrees with the record outside the critical section |
| `Deletion.dfy` | an addon whose delete workflow has succeeded is let go |
| `Finality.dfy` | a failed delete is final |
| `Failures.dfy` | what failed prerequisites leave behind |
| `Traces.dfy`, `Counterexamples.dfy` | runs that show which hypotheses are needed, and exactly what a harmful step does |
| `StaleReads.dfy` | exactly which stale reads can undo a failed delete |
| `Manifests.dfy` | bundles of YAML documents and the labelling of documents in workflows |
| `Parameters.dfy` | the parameters an addon hands to its workflows |

## How the protocol is modelled

A world holds every version of the record ever stored (its index is the resource version), the live
workflows, the calls in flight, the mutex of the addon, its cache entries, and a log of events. A
controller may read any stored version, however old. A reconcile is interleaved at each of its API calls;
its answers are parameters of the step. A call of the updater looks its mutex up, locks it once it is free,
reads some version, is stopped by the guard or writes, and the write lands only if nothing has been stored
since the version it read; otherwise the call reads again. When the addon is not found its cache entry and,
in another step, its mutex are dropped; later calls then look up a new mutex, while calls that have the old
one go on with it. Users may edit the spec and delete the addon at any time, Argo may
move workflows between phases at will, workflows may appear and vanish, and a call of the updater may give
up at any moment before its write. Any number of reconciles may be in flight at once.

The evidence theorems hold for every run that does no harm (`Evidence.HarmlessRun`): specs may come back
and listings may fail, as long as a failed listing does not find a success that the new spec has to live up
to, and a workflow is not written down under the checksum of another spec that comes later. Both conditions
are guards on single steps, and both are exact: `Counterexamples.FailedListingEvidentExactly` and
`Counterexamples.StaleChecksumExactly` state them as equivalences, and
`Counterexamples.FailedListingBreaksEvidence` and `Counterexamples.ReturningSpecBreaksEvidence` give, for
any two specs, runs that break the evidence property without them. Runs in which listing works and no
checksum is reused meet them (`Evidence.NoReuseIsHarmless`).

## Where the code falls short of its comments or its purpose

- controllers/addon_controller.go:497 records the failure of the install once more and would clear its
  reason; `Failures.FailureIsRecordedOnce` proves that this never changes anything.
- controllers/addon_controller.go:258 stores the new checksum before the listing at line 265 can fail, so
  the old phases may end up under the new checksum. The model does the same.
- pkg/addon/addon_update.go:176-199 compares a workflow with the spec but writes its phase under the
  checksum already in the status, which may be that of another spec.
  `Counterexamples.StaleChecksumExactly` says exactly when that does harm.
- pkg/addon/addon_update.go:77 leaves writes of one completed phase over another unguarded.
  `Theorems.CompletedIsReplacedOnly` says which calls can do that, and
  `Counterexamples.CompletedReplacesCompleted` that any two phases can be so exchanged.
- pkg/addon/addon_update.go:54-55 looks the mutex up and locks it in two steps, and :132-136 may drop it at
  any time. `Counterexamples.DropBreaksAgreement` proves that a drop while any call has the mutex, even one
  that only waits for it, can leave the cache behind the record for good.
- pkg/addon/addon_validator.go:82 speaks of diamond dependency cycles; diamonds as such are accepted, by
  the code and by the model.
- pkg/addon/addon_validator.go:208 ends the check of the dependencies at the first exact version that has
  succeeded, so that later ones go unchecked; `Validation.VisitOverOrders` says exactly when that matters.

## Model

| member | source | states |
|---|---|---|
| Evidence.EvidenceHolds | controllers/addon_controller.go:254-443 | In every interleaving with injective checksums whose steps do no harm, at every version ever stored: a success recorded under the checksum of the spec beside it means that the step has no template or that this spec's workflow for the step has reached Succeeded; specs may come back, and listings may fail harmlessly |
| Evidence.InstallAfterPrereqs | controllers/addon_controller.go:466-501 | Under the same hypotheses every install workflow ever created was created after its spec's prerequisites workflow had succeeded (or had no template), with every named secret in the list made by that reconcile |
| Evidence.RunInv | controllers/addon_controller.go:254-443 | The invariant behind both theorems, over versions, calls in flight and events and with respect to all later versions, holds at the end of every such run |
| Evidence.NoReuseIsHarmless | controllers/addon_controller.go:254-443 | A run in which every listing works and no checksum is reused does no harm |
| Evidence.RunSourced | controllers/addon_controller.go:569-577 | In every run each checksum on record or in flight was computed from a version no newer than the one it goes back to |
| Safety.RunSafe | pkg/addon/addon_update.go:52-119 | With no hypothesis at all: successes are backed by an earlier spec, every call in flight passes the guard against what it read, and each version follows lawfully from the one before |
| Safety.RunWritesOnce | pkg/addon/addon_update.go:52-119 | In every run no call has landed two writes, and a call that may still write has landed none |
| Theorems.LandedWritesPassedTheGuard | pkg/addon/addon_update.go:79-96 | Every change of status on record is one landed write, which changed nothing else and passed the guard against exactly the version it replaced: no Pending or ValidationFailed stands right after a completed phase of the same checksum |
| Theorems.OneWritePerCallInRuns | pkg/addon/addon_update.go:52-119 | Two landed writes of a run belong to two calls |
| Theorems.GuardMeansMoved | pkg/addon/addon_update.go:79-111 | If the guard fires for a call, the status it met differs from the one the call set out from |
| Theorems.UndisturbedCallLands | pkg/addon/addon_update.go:52-119 | A call is not blocked, and lands its write if undisturbed, as long as the status on record is the one it set out from, whatever else has changed: a fresh retry cannot be blocked again |
| Theorems.PassesOwnSnapshot | pkg/addon/addon_update.go:79-82 | No call in flight, of either controller, trips the guard against its own snapshot |
| Theorems.CompletedIsLeftOnly | pkg/addon/addon_update.go:71-96 | As long as no listing fails for a version without install phase, a completed install phase under a checksum is left for an unfinished one only by a write of Deleting or one with another checksum |
| Theorems.CompletedStays | pkg/addon/addon_update.go:71-96 | Under that condition, over any stretch of versions with one checksum and no Deleting phase, a completed phase stays completed |
| Theorems.CompletedIsReplacedOnly | pkg/addon/addon_update.go:77-96 | In every run a landed write replaces one completed phase by another only if its call had read a version with another install phase than the one replaced, so a stale one; and a call that had read a completed phase does so exactly then |
| Theorems.SuccessGoesBack | controllers/addon_controller.go:390-443 | In every run, whatever fails: each recorded success goes back to a spec the addon had by then and whose step was empty or succeeded; a recorded delete goes back to a delete workflow that succeeded |
| Theorems.FinalizerIsLetGoOnly | controllers/addon_controller.go:619-653 | The finalizer goes only from a version that is being deleted and has a deleting phase, and only if the delete template is empty or a delete workflow of the addon has succeeded |
| Theorems.DeleteWorkflowsOnlyWhenDeleting | controllers/addon_controller.go:127-146 | Every delete workflow created goes back to a version read with a deletion timestamp and a deleting phase |
| Theorems.GoneWithFinalizers | controllers/addon_controller.go:643-651 | In every run the addon is gone only when its last finalizer is, and an addon that is being deleted is gone as soon as that is so |
| Theorems.DeletionTakesEffect | controllers/addon_controller.go:126-128 | In every run, once the user has deleted the addon it is gone or being deleted, for good |
| Theorems.WorkflowsAreAccountedFor | controllers/addon_controller.go:423-428 | In every run each live workflow was seen in some phase or was created by the controller, on record, for a version whose spec gives it its name |
| Finality.DeleteFailedIsFinal | controllers/addon_controller.go:399-402 | With DeleteFailed on record, nothing in flight, a delete template kept and only quiet reads of older versions, no run changes the status or the finalizers or removes the addon |
| StaleReads.AddonReadUndoesExactly | controllers/addon_controller.go:117-158 | In that situation one read of a version by the addon controller can lead to another status exactly when the version is not quiet: a condition on its deletion, checksums, phase and finalizer alone |
| StaleReads.WorkflowReadUndoesExactly | pkg/addon/addon_update.go:160-200 | And one read by the workflow controller can do so exactly when it speaks for the version and its status is neither blocked nor the one on record |
| StaleReads.StaleReadUndoesFailedDelete | pkg/addon/addon_update.go:160-200 | A run from a new addon to a failed delete with nothing in flight, which one stale read of the workflow controller takes on to DeleteSucceeded |
| Failures.FailureIsRecordedOnce | controllers/addon_controller.go:496-498 | In every run failed prerequisites stand beside an unfinished install only on versions being deleted, and when a reconcile records the failure of the install a second time, status and reason stay as they are |
| Failures.RunSettled | controllers/addon_controller.go:466-501 | The invariant behind it holds at the end of every run |
| CacheAgreement.CacheAgreesWithApi | pkg/addon/addon_update.go:52-136 | For a fixed package key, whenever no call holds a mutex: the cached phase is the install phase on record, as long as the mutex was never dropped between the time when a call looked it up and the end of that call; and, whatever is dropped, once a write has landed there is a cached phase, unless the addon was not found or is being deleted |
| CacheAgreement.RunAgrees | pkg/addon/addon_update.go:54-56 | Under that condition all calls that have a mutex have the same one, one of them at most is in the section it protects, and the cache is behind only between that call's write and its cache update |
| CacheAgreement.CachedPhaseWasWritten | pkg/addon/addon_update.go:98-118 | In every run, whatever is dropped, deleted or forgotten, each cached phase is that of a write that landed, by a call that had read a version with the package key of the entry: blocked and failed calls leave no trace in the cache |
| Counterexamples.FailedListingBreaksEvidence | controllers/addon_controller.go:258-268 | For any two specs that hash differently, a run with one failed listing after which the success of the first stands under the checksum of the second |
| Counterexamples.FailedListingEvidentExactly | controllers/addon_controller.go:258-268 | The status written after a failed listing is evident whatever has happened, exactly when the old status records no success for a step the new spec has a template for |
| Counterexamples.FailedListingSkipsExactly | controllers/addon_controller.go:281-284 | After that write the next reconcile makes no call at all, whatever the answers, exactly when the old phase was completed |
| Counterexamples.ReturningSpecBreaksEvidence | controllers/addon_controller.go:254-284 | For any two specs that hash differently, a run with working listings in which the first spec returns and a success of the other stands under its checksum |
| Counterexamples.StaleChecksumExactly | pkg/addon/addon_update.go:176-199 | For every version that still has the checksum of another spec, every step and every phase: the write made for a workflow of its own spec keeps what was evident for the other spec, in all circumstances, exactly when it claims nothing new for it |
| Counterexamples.CompletedReplacesCompleted | pkg/addon/addon_update.go:77-78 | For any two terminal workflow phases, a run in which the install phase of the second replaces that of the first in one cycle |
| Counterexamples.FailedListingUndoesSuccess | controllers/addon_controller.go:258-268 | A run in which a listing fails for a new addon, and the status written for that replaces a success of the same checksum by no phase at all |
| Counterexamples.DroppedMutexBreaksAgreement | pkg/addon/addon_update.go:54-55 | A run from a new addon in which the mutex is dropped while nobody holds it and one call waits for it, and after which nobody holds a mutex and the cache differs from the record |
| Counterexamples.DropBreaksAgreement | pkg/addon/addon_update.go:132-136 | From every world in which cache and record agree, a drop while some call has the mutex, at whatever stage, can be followed so that in the end nobody holds a mutex and the cache differs from the record, given another call under way with another phase |
| Reconciler.NoGuardOnOwnSnapshot | controllers/addon_controller.go:117-158 | Whatever the cluster answers, the status a reconcile hands to the updater passes the guard against the version it read, and does not turn a completed phase of it into another |
| Reconciler.ConvergesExactly | controllers/addon_controller.go:281-357 | From an unfinished cycle with matching checksum, one reconcile without errors writes a completed phase exactly when the hour is over, the prerequisites have failed, or they have succeeded and a secret is missing or the install is empty or over |
| Reconciler.ConvergesWhenWorkflowsAreOver | controllers/addon_controller.go:466-501 | In particular when every templated workflow is over, and that write passes the guard |
| Outcomes.BeginsDeletion | controllers/addon_controller.go:127-135 | The first reconcile of an addon that is being deleted makes no call and writes Deleting, with everything else as it was |
| Outcomes.DeletionOutcome | controllers/addon_controller.go:619-654 | Later ones never write; their calls, in order: the delete workflow is submitted and fetched exactly when there is one and the phase is Deleting, and the finalizer is asked to go exactly when there is none, or it had succeeded, or it is found succeeded now |
| Outcomes.NewCycleOutcome | controllers/addon_controller.go:258-279 | A new checksum: one listing, and then the fresh Pending status with the time of the start, or the old status under the new checksum if the listing failed |
| Outcomes.FinishedOutcome | controllers/addon_controller.go:281-284 | A finished cycle: no call, and the status as it was but for the resources |
| Outcomes.ValidationOutcome | controllers/addon_controller.go:286-333 | A pending dependency gives Pending and an invalid addon ValidationFailed, each with its reason, without a call; a panic writes nothing; a finalizer that cannot be put in place leaves the status alone |
| Outcomes.DeadlineOutcome | controllers/addon_controller.go:338-348 | An hour after its start a valid cycle fails without another call |
| Outcomes.PrereqsNotSubmitted | controllers/addon_controller.go:466-475 | A prerequisites workflow that cannot be submitted fails prerequisites and install at once |
| Outcomes.PrereqsOutcome | controllers/addon_controller.go:466-498 | Unless the prerequisites have succeeded there is no call for secrets or install, and failed prerequisites fail the install |
| Outcomes.PrereqsReported | controllers/addon_controller.go:390-442 | However the reconcile goes on, the prerequisites phase it ends with is the one its workflow has come to, or Succeeded without a template |
| Outcomes.SecretsOutcome | controllers/addon_controller.go:478-486 | A missing secret fails the cycle after the listing of secrets, before any call for the install |
| Outcomes.InstallOutcome | controllers/addon_controller.go:488-495 | With prerequisites and secrets in place: the calls of the install in order, the install phase for every phase of its workflow, for an empty template and for a failed submission, and the resources found |
| Deletion.AddonIsLetGo | controllers/addon_controller.go:619-654 | From any world with the current version in a deleting phase: a reconcile in a cluster in which every call works asks for the finalizer to go exactly when the delete workflow is not needed or has succeeded, and then, undisturbed, takes the addon out of the cache and the finalizer off the record, with the addon gone unless somebody else holds on to it |
| Undisturbed.CycleEndsOnRecord | controllers/addon_controller.go:281-380 | From any world with an unfinished cycle and a free mutex, the addon controller alone puts a status of that cycle on record, through its reads, calls and the updater, which is completed exactly when the cycle settles, in particular when the live workflows are over or the hour is |
| Undisturbed.ReconcileLands | controllers/addon_controller.go:117-158 | An undisturbed reconcile of the current version that ends in a write is a run of the protocol after which the status of the machine is on record, with nothing else changed but the finalizer |
| AddonController.AddonReconciler.ExecAddon | controllers/addon_controller.go:117-158 | The methods as written make exactly the calls of the machine, end with its status, and write exactly when it does; the cache is left alone except by a finalization |
| AddonController.AddonReconciler.ProcessAddon | controllers/addon_controller.go:254-380 | Leads the machine from its beginning to a write, or to a stop after a panic of the validator |
| AddonController.AddonReconciler.StartCycle | controllers/addon_controller.go:263-279 | Runs the machine through a new cycle and removes exactly the old workflows whose deletion is not refused |
| AddonController.AddonReconciler.ValidateAddon | controllers/addon_controller.go:286-333 | Each verdict of the validator leads to the status and the point that the machine has for it |
| AddonController.AddonReconciler.InstallAddon | controllers/addon_controller.go:335-380 | Runs the machine from the deadline check to the write |
| AddonController.AddonReconciler.ObserveResources | controllers/addon_controller.go:359-372 | Runs the machine through the observation of resources |
| AddonController.AddonReconciler.ExecutePrereqAndInstall | controllers/addon_controller.go:466-501 | Runs the machine through prerequisites, secrets and install |
| AddonController.AddonReconciler.SecretsThenInstall | controllers/addon_controller.go:478-495 | Runs the machine through the secrets and the install |
| AddonController.AddonReconciler.RunWorkflow | controllers/addon_controller.go:390-443 | Runs the machine through one workflow step; an error means that a templated workflow could not be submitted |
| AddonController.AddonReconciler.Submit | controllers/addon_controller.go:418-428 | Runs the machine through a submission, which fails exactly when the workflow does not exist after it |
| AddonController.AddonReconciler.FetchPhase | controllers/addon_controller.go:430-442 | Runs the machine through taking over the phase of a workflow |
| AddonController.AddonReconciler.ValidateSecrets | controllers/addon_controller.go:445-464 | Fails exactly when listing failed or some named secret is not in the list |
| AddonController.AddonReconciler.DeleteOldWorkflows | controllers/addon_controller.go:579-617 | Fails exactly when listing fails, leaving the store alone; otherwise removes exactly the owned workflows whose deletion is not refused |
| AddonController.AddonReconciler.SetFinalizer | controllers/addon_controller.go:656-670 | Runs the machine through the update of the finalizers, which replaces the status by the one stored |
| AddonController.AddonReconciler.Finalize | controllers/addon_controller.go:619-654 | Runs the machine through a deletion; the addon leaves the cache unless its delete workflow could not be submitted |
| AddonController.AddonReconciler.DropFinalizer | controllers/addon_controller.go:643-651 | Runs the machine through the removal of the finalizer |
| Updater.OneWritePerCall | pkg/addon/addon_update.go:63-98 | For any number of attempts and all answers of the server: a call reports an attempt as landed exactly when it passed the guard and stored its write after conflicts only, and as blocked exactly when, after conflicts only, it met a completed phase of the same checksum with Pending or ValidationFailed in hand; so it stores at most one write |
| Updater.FailuresPerCall | pkg/addon/addon_update.go:63-98 | A call fails exactly by a read that fails or a write that is rejected, after conflicts only, and gives up exactly when every attempt met a conflict |
| Updater.FromWorkflowMeans | pkg/addon/addon_update.go:160-200 | A workflow leads to a write exactly when the addon is not completed, the workflow has a phase, and its name is the one the addon's own spec gives to some step; the write is for that step, keeps the checksum, and passes the guard |
| Updater.WorkflowReports | pkg/addon/addon_update.go:184-197 | For each step and each phase of a workflow, the status written for an addon that is not completed, field by field |
| Updater.AddonUpdater.UpdateStatus | pkg/addon/addon_update.go:52-119 | The retry loop ends as specified, and the cache takes the phase over exactly when the write has landed |
| Updater.AddonUpdater.GetStatusMutex | pkg/addon/addon_update.go:121-130 | One mutex for a name, made when first asked for and kept while the map has it |
| Updater.AddonUpdater.AddAddonToCache | pkg/addon/addon_update.go:148-157 | The cache changes at the addon's own key alone, to its install phase |
| Updater.AddonUpdater.StatusFromWorkflow | pkg/addon/addon_update.go:166-197 | Sets the status exactly as specified, leaves it alone when there is nothing to write, and fails exactly for a name that cannot be taken apart |
| Updater.AddonUpdater.UpdateFromWorkflow | pkg/addon/addon_update.go:160-200 | Sends a status exactly when the workflow speaks for the addon; errors and cache follow the outcome of the call |
| Updater.AddonUpdater.ReconcileWorkflow | controllers/workflow_controller.go:61-103 | Only a live workflow with a phase that an addon controls is heard, and then errors and the new cache entry follow the outcome of the call; failed reads and uncontrolled workflows are errors; the cache changes only with a landed write |
| Updater.AddonUpdater.RemoveFromCache | pkg/addon/addon_update.go:202-209 | Removes one entry with the addon's name if there is one, nothing otherwise, and forgets the mutex |
| AddonTypes.Addon.SetStatusByLifecycleStep | api/addon/v1alpha1/addon_types.go:383-403 | The new status for every step and phase, and exactly when an error is returned |
| AddonTypes.Addon.SetPrereqAndInstallStatuses | api/addon/v1alpha1/addon_types.go:428-446 | The new status for every phase, with the prerequisites phase cleared exactly in the error case |
| AddonTypes.Addon.SetInstallStatus | api/addon/v1alpha1/addon_types.go:410-421 | The new phase, and the reason kept for exactly four phases |
| AddonTypes.Addon.ClearStatus | api/addon/v1alpha1/addon_types.go:448-452 | Both phases and the reason are cleared, and nothing else |
| AddonTypes.StepOutcome | pkg/common/helpers.go:113-135 | A workflow's phase records a success only if it is Succeeded and only on the field of its own step, completes a cycle exactly when it should, and never touches the checksum |
| Dependencies.Resolver.Resolve | pkg/addon/addon_validator.go:221-262 | From an empty path set: a healthy graph is always accepted; acceptance yields a certificate, ranks that fall along every dependency to a version it can resolve to, with the path set empty again; where no lookup below the root has two answers, accepted and healthy are the same; below 256 cached versions the depth cap is out of reach |
| Dependencies.Resolver.ResolveDependencies | pkg/addon/addon_validator.go:221-262 | The same for one node under any path set, with the path set restored exactly on success, termination by the cached labels not on the path, and a depth never above their number |
| Dependencies.Resolver.ResolveAll | pkg/addon/addon_validator.go:230-259 | All dependencies of a node in any order |
| Dependencies.Resolver.ResolveDependency | pkg/addon/addon_validator.go:230-257 | One dependency: on the own package, without an answer, with every answer on the path, or resolved further, each with its verdict |
| Dependencies.LooksUpTrimmed | pkg/addon/addon_validator.go:231-238 | A dependency is looked up by its package name and version without the white space around them |
| Dependencies.EveryWayIsHealthy | pkg/addon/addon_validator.go:221-262 | The recursive criterion equals the graph criterion: on every walk from the root all dependencies resolve, none is on its own package, no label repeats, and the length stays within the cap |
| Dependencies.SomeWayIsEveryWay | pkg/addon/addon_validator.go:221-262 | Where no lookup that can be made below a node has two answers, resolving in some way means resolving in every way |
| Dependencies.SomeWayIsCertified | pkg/addon/addon_validator.go:221-262 | What some way of answering the lookups resolves has a certificate: a choice of versions closed under dependencies, acyclic and within the cap; and where cached versions have labels of their own, both are the same |
| Dependencies.ColonFreeLabelsUnique | pkg/addon/addon_validator.go:226-228 | They do where entries sit under their own keys and package names have no colon |
| Dependencies.HealthyIsAcyclic | pkg/addon/addon_validator.go:221-262 | Without colons in package names, healthy means resolvable, acyclic over package versions, and short enough, the last being implied below 256 cached versions |
| Dependencies.LabelsFaithful | pkg/addon/addon_validator.go:226-228 | Without colons in package names, two versions share a path label exactly when they share a cache key |
| Dependencies.CollidesExactly | pkg/addon/addon_validator.go:226-228 | A label can be read as another key exactly when the package name or the version has a colon |
| Dependencies.DepthBound | pkg/addon/addon_validator.go:222-228 | A path of labels that are all cached, save the root, is no longer than the cache has labels |
| Validation.VisitOverOrders | pkg/addon/addon_validator.go:175-219 | Every iteration order passes exactly when no dependency is unsatisfied; some order passes exactly when that holds or an exact version has succeeded |
| Validation.EndsExactly | pkg/addon/addon_validator.go:175-219 | For every cache, in terms of cached phases: the checks can pass exactly when some dependency on a version may be found Succeeded or all dependencies are on any version of a package of which one has succeeded; they can report one as pending exactly when it may be found Pending, and as not installed exactly when it may be missing, found in another phase, or on any version of a package of which none has succeeded |
| Validation.FindsExactly | pkg/addon/addon_validator.go:181-214 | What is found about one dependency, white space aside, for a star and for a version, in terms of the phases of what the cache shows |
| Validation.Validator.ValidateDependencies | pkg/addon/addon_validator.go:175-219 | The result is that of visiting all dependencies in some order, each found as the cache may show it |
| Validation.Validator.Inspect | pkg/addon/addon_validator.go:178-215 | What is found about one dependency, for a star and for a constraint |
| Validation.Validator.ValidateDuplicate | pkg/addon/addon_validator.go:98-104 | A duplicate is reported exactly when the version looked up belongs to another addon |
| Validation.Validator.Validate | pkg/addon/addon_validator.go:51-96 | What each complaint means and which comes first, and that an addon without complaint is no duplicate, fits, has a namespace, resolvable dependencies with a certificate, and checks of them that can pass |
| VersionCache.RunRefines | pkg/addon/addon_version_cache.go:55-112 | After any sequence of additions and removals the nested map stands for the flat map with the same operations, every entry under its own key |
| VersionCache.StepRefines | pkg/addon/addon_version_cache.go:55-112 | Each operation on the nested map is the operation on the flat map |
| VersionCache.Cache.AddVersion | pkg/addon/addon_version_cache.go:55-65 | The flat contents change at one key |
| VersionCache.Cache.RemoveVersion | pkg/addon/addon_version_cache.go:94-102 | The flat contents lose one key, if it was there |
| VersionCache.Cache.RemoveVersions | pkg/addon/addon_version_cache.go:104-112 | The flat contents lose exactly the keys of one package |
| VersionCache.Cache.GetVersion | pkg/addon/addon_version_cache.go:79-92 | The exact entry if there is one, else an entry the constraint admits, and nothing exactly when there is none |
| VersionCache.Cache.ResolveVersion | pkg/addon/addon_version_cache.go:132-154 | An entry the constraint admits, and nothing exactly when there is none |
| VersionCache.Cache.GetVersions | pkg/addon/addon_version_cache.go:67-77 | A copy of the versions of a package, and nothing exactly for an unknown package |
| VersionCache.Cache.GetAllVersions | pkg/addon/addon_version_cache.go:114-116 | A copy of the whole cache |
| VersionCache.Cache.CopyVersionMap | pkg/addon/addon_version_cache.go:168-177 | The copy loop copies everything |
| VersionCache.Cache.HasVersionName | pkg/addon/addon_version_cache.go:118-130 | Found exactly when some entry has the name, and then such an entry |
| WorkflowNames.ExtractCompose | pkg/common/helpers.go:137-161 | For any name and prefix with any hyphens, every step and every hexadecimal checksum, taking the name apart gives step and checksum back |
| WorkflowNames.ExtractExactly | pkg/common/helpers.go:137-161 | A name is taken apart exactly when it ends in three parts without hyphens that are, white space aside, a word for a step, a checksum and wf, with another part before them; and into that step and checksum |
| WorkflowNames.RoundTrip | api/addon/v1alpha1/addon_types.go:364-381 | The same for the names an addon gives to its workflows |
| WorkflowNames.NameParts | api/addon/v1alpha1/addon_types.go:364-377 | The parts of a workflow name between its hyphens: those of the addon name, then those of the prefix if there is one, then the word for the step, the checksum and wf |
| WorkflowNames.WordsAre | api/addon/v1alpha1/addon_types.go:364-381 | The words for the four steps, and a checksum that denotes the hash in hexadecimal without leading zeros |
| WorkflowNames.NamesDoNotCollide | api/addon/v1alpha1/addon_types.go:364-381 | Two workflow names of an addon are equal exactly for the same step, hash and prefix |
| WorkflowNames.NameTestDecides | pkg/addon/addon_update.go:176-182 | Once the name test has passed the checksum test cannot fail |
| WorkflowNames.NameFits | pkg/addon/addon_validator.go:168-173 | A validated name and a prefix of at most 10 characters give workflow names of at most 63, the limit of section 2.3.4 of RFC 1035, and exactly when the limit is reached |
| Text.TrimExactly | pkg/common/helpers.go:137-161 | Trimming gives the one text without white space at its ends that, with white space around it, is the text given |
| Text.TrimVisible | pkg/addon/addon_validator.go:231-232 | Spaces, tabs and line ends go from both ends, and everything from the first to the last visible character stays |
| Manifests.Resources | pkg/workflows/workflow_builder.go:153-161 | The text built is the newline-ended forms of the resources joined by the separator, with one empty tail |
| Manifests.FormsAre | pkg/workflows/workflow_builder.go:155-160 | A resource that ends its last line stands in the bundle as it is, and any other with a line end |
| Manifests.BundleSplitsExactly | pkg/workflows/workflow_builder.go:153-161 | Splitting a bundle gives the forms and the tail, exactly when no resource holds a separator or ends in one that only lacks its line end; otherwise there are more pieces |
| Manifests.BundleReadsBackExactly | pkg/addonctl/addonctl.go:421-432 | Reading a bundle back gives the non-blank resources in order under exactly the same condition |
| Manifests.ReadAgainExactly | pkg/addonctl/addonctl.go:421-432 | A text read, bundled and read again comes back, exactly when no piece ends in a separator that only lacks its line end |
| Manifests.NonBlankAppend | pkg/addonctl/addonctl.go:422-425 | Dropping the blank pieces is done piece by piece, in order |
| Manifests.NonBlankOne | pkg/addonctl/addonctl.go:423-425 | A piece is dropped exactly when trimming leaves nothing of it |
| Manifests.Collected.ParseResources | pkg/addonctl/addonctl.go:416-434 | Appends exactly the non-blank pieces to the list of the step, and nothing for other steps or an unreadable file |
| Manifests.CountKeptExactly | pkg/workflows/workflow.go:364-373 | Labelling keeps the number of documents exactly when no object of the text prints with a separator, and then the output splits into the printed objects in order |
| Manifests.DocumentsKeptExactly | pkg/workflows/workflow.go:350-445 | Piece by piece the documents of a text stay, each with the four labels set, other labels and the rest kept, and empty pieces stay empty, exactly when the documents of that text, once labelled, read back and print without a separator |
| Manifests.LabellingTwice | pkg/workflows/workflow.go:350-445 | Under the same condition on the documents of the text, labelling a second time changes nothing |
| Manifests.ProcessText | pkg/workflows/workflow.go:364-373 | The split, label and join loop gives the labelled text, and an error exactly when some piece cannot be parsed or printed |
| Manifests.ProcessArtifact | pkg/workflows/workflow.go:407-429 | One piece: blank stays empty, otherwise it is parsed, labelled and printed, and errors are passed on |
| Manifests.PieceBecomes | pkg/workflows/workflow.go:407-429 | The parser gets a piece without the white space around it, and what it makes of it is printed with the four labels on it, everything else kept |
| Manifests.Resource.AddDefaultLabels | pkg/workflows/workflow.go:431-445 | The four labels are laid over the labels of the object |
| Manifests.StepObject.ProcessWorkflowResources | pkg/workflows/workflow.go:350-405 | Artifacts are rewritten up to the first that cannot be and stay as they were from there on; a manifest is rewritten only where there are no artifacts |
| Parameters.ConfigureGlobalWFParameters | pkg/workflows/workflow.go:130-211 | For every order of the maps: the template's list is kept in front; data comes first, then additional configuration, then each of the eight fixed names with its own field, then the template; and no name occurs twice exactly when the sources share none |
| Parameters.LastOfMeans | pkg/workflows/workflow.go:130-211 | What is read for a name is the value of its last entry |
| Parameters.GetAllAddonParameters | api/addon/v1alpha1/addon_types.go:330-342 | Data comes first, then additional configuration, then namespace, cluster name and cluster region each with its own field, and there is no other name |
| Parameters.InjectionAgrees | pkg/workflows/workflow.go:130-211 | Reading the injected list is the parameter map laid over the five package fields, each under its own name, laid over the template |
| Parameters.TemplateKeeps | pkg/workflows/workflow.go:130-211 | A template's parameter keeps its value exactly unless the addon or its package gives the name another |

## Left out

- Kubernetes and Argo clients, informers, watches, events and logging: reads, conditional updates, creations, deletions and listings are steps of the protocol or parameters of a method.
- Responses that get lost after a write has landed: a landed write is seen to have landed.
- Other addons: the protocol follows one addon; workflows of others, and owners of its package key, are outside it, and package keys are assumed unshared for the agreement of the cache.
- Finalizers added or removed by anyone but the controller, and labels or annotations of the record.
- The Adler-32 checksum (section 2.2 of RFC 1950), YAML, and semantic version constraints: parameters without further assumptions, except where a row names them.
- Fresh copies of cached maps: maps are values here, so that copying is trivially safe.
- The validator inside a reconcile: its verdict is an answer of the environment, any of the four at any time; validation of workflow templates is in turn a given verdict of the validator.
- `observeResources`, controllers/objects.go, `configureWorkflowArtifacts` around the processing of one part of a workflow, TTL and deadline injection, `Scripts`, `Build` and `Delete` of the workflow builder, generated clients, and the rest of the command line: they would only add easy members.
- Metadata that is not an object, and labels that are not strings, in the documents of a manifest.
- Lengths of names count characters, which for the names Kubernetes admits are bytes.
- Reasons recorded for failures are abbreviated to fixed texts.
- Dependencies.Resolver.Resolve: looks at one snapshot of the cache; changes of the cache during a search are not modelled.
- An addon that is deleted and created again under its old name: the protocol follows one object from its creation to its end.
- Fairness of schedulers: `Undisturbed.CycleEndsOnRecord` and `Theorems.UndisturbedCallLands` say what happens when nothing comes in between.
- CacheAgreement.CacheAgreesWithApi: assumes that the mutex is not dropped between the time when a call looks it up and the end of that call; `Counterexamples.DropBreaksAgreement` shows why.
