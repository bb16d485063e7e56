# Verified models of cobaltcore's state machines, planners and encodings

This Dafny project models the parts of the repository whose correctness does not
show in any one function body, and proves what their code and documentation promise:

- **Database upgrades** (`Release`, `Jobs`, `Upgrade`, `UpgradeRuns`, `UpgradeProgress`,
  `OldRuns`): the
  expand-migrate-contract flow over persisted status fields and five Jobs with fixed
  names, with stale reads of the CR and of Jobs, failing calls, crashes between delete
  and create, lost status writes and spec edits in any order.
- **Terminal metrics** (`TerminalMetric`): emission deduplicated by an optimistically
  locked annotation, from stale snapshots and with failing or unanswered patches.
- **Remote children** (`Ownership`, `Teardown`, `Resolver`, `Deletion`): who owns an object on a
  shared target cluster, the paged sweep behind a finalizer, and the two windows after
  which a CR gives its target cluster up.
- **Registry retention** (`Retention`): the keep set as a least fixpoint, the plan as a
  partition, and sweeps repeated for ever.
- **Content-addressed encodings and registrations** (`ContentHash`, `Registration`,
  `Provider`): unique decodability of two hash pre-images, and clusters that follow
  their registration Secrets.
- **Configuration printing and health probes** (`Ini`, `Probe`): the printed INI file
  against the decision taken from the map, and bounded staleness of a cached probe.
- **Sizing, RBAC and checksums** (`Sizing`, `Derivation`, `Rbac`, `Subunit`): exact rational fits and
  a budget loop, an audit whose advice is safe to follow, a static role check, and an
  in-place checksum rewrite.

Code that changes state is written as classes and methods with loops. Each method is
proved equal to a function of the old state, and what that function is worth is said by
laws beside it, exact conditions in most cases, and by laws about whole runs. `dafny verify dfyconfig.toml` checks everything.

## What the proofs found

Some promises hold only under a condition. Each is stated here with the place that makes
the promise, the exact condition, and an input that breaks it:

- *Terminal metrics.* internal/common/job/terminal.go:45-57 promises one emission per UID.
  Over runs, a delivered call repeats the UID emitted last exactly when a patch was applied
  in between whose answer was lost, and the last such patch wrote another UID
  (`TerminalMetric.RepeatsIffLostPatchMoved`, `TerminalMetric.LostAnswerRepeats`).
- *Teardown.* A swept child is on the target after its delete exactly if a finalizer of its
  own holds it, as internal/common/multicluster/teardown.go:157-161 says, so a CR can leave
  before such children do (`Teardown.HeldChildOutlivesDelete`, `Teardown.DeleteRemoteChildren`,
  `Deletion.DeleteOver`).
- *Re-run keys.* internal/common/job/job.go:84-86 promises that a terminal Job is re-run
  only when the key changes. A pass replaces a live Job exactly when it read a claimable
  terminal Job of another key and the delete goes through (`Jobs.ChangesIffDisturbs`); a
  terminal Job stays exactly as long as no pass does (`Jobs.TerminalJobStays`). With an
  unchanged key that takes a read of another Job (`Jobs.OnlyAnotherJobDisturbs`,
  `Jobs.StaleReadDeletesCurrentJob`).
- *Upgrade phases.* internal/common/database/upgrade.go:317-336 advances a phase on any
  complete Job of the current key, whenever it ran (`OldRuns.PhaseAdvancesIff`). A run from
  before the upgrade can count exactly when a Job keyed for the same release was left that
  is complete, or is live and not yet terminal (`OldRuns.OldRunNeverCounts`,
  `OldRuns.OldRunCanCount`); `UpgradeRuns.LingeringJobOfSameReleaseCounts` is one such run.
- *Progress.* Passes without faults finish every upgrade and every sync, with Jobs that
  complete, but for one state: the Job of the phase failed for good under the current key
  (`UpgradeProgress.QuietUpgradeFinishes`, `UpgradeProgress.FailedJobBlocks`).
- *Field indexes.* internal/common/multicluster/provider.go:341 promises an index on every
  cluster, engaged and future. An engaged cluster misses one exactly when it was not listed
  at the start of the engagement and no later registration found the cluster engaged
  (`Provider.MissedExactly`, `Provider.IndexInWindowIsMissed`).
- *Re-probing.* internal/common/healthcheck/healthcheck.go:60-66 bounds the detection of a
  hanging API by the TTL, the timeout and one pass; docs/reference/keystone/keystone-reconciler.md:2772-2778
  adds that no requeue is sooner than 1s. The next probe can start later than the TTL and
  one pass exactly when the pass before it ends after the entry expired and the second then
  carries the start past that bound (`HealthProbe.LateStartIff`, `HealthProbe.LateEndCostsASecond`).
- *Socket timeouts.* internal/common/database/connection.go:134-163 decides from the map
  what the rendered file will say. The two agree exactly when a key that makes the decision
  stands, in sorted order, before every key of its block that starts with a bracket, which
  prints as a header (`Ini.TextAgreesExactly`, `Ini.BracketKeyShadows`).
- *Role coverage.* hack/gen-helm-rbac-rules.py:27-32 takes a passing check to mean that a
  webhook read does not fail under the manager identity. The check ignores resourceNames;
  the manager covers every real request of the webhook role exactly when its rules cover
  each usable listed triple, without resourceNames where the webhook rule has none
  (`Rbac.CoveredExactly`, `Rbac.NamesBreakTheCheck`).
- *Acting on the RBAC report.* hack/audit-rbac-usage.py:32-36 leaves an unused get out while
  list is granted. One round of removals is enough exactly when every get so spared is
  spared by a list that stays (`Rbac.OneRoundIff`, `Rbac.SecondRoundNeeded`); two always are.

Of the probe cache alone, every hit leaves time to expiry exactly when the caller's TTL is
no longer than the stored one (`HealthProbe.HitLeavesTime`); all operators pass one constant
(internal/common/healthcheck/healthcheck.go:70), so theirs always do.

## Model

| member | source | states |
|---|---|---|
| Releases.ParseRelease | internal/common/release/release.go:30-66 | a tag that parses has a year from 2010 on and minor 1 or 2 and keeps its raw text |
| Releases.ParseOfPrint | internal/common/release/release.go:30-66 | every tag of the documented shape is read back with its year, minor and suffix, whatever the suffix holds |
| Releases.ParsedIsTag | internal/common/release/release.go:30-66 | and nothing else parses: a tag that does is a year and a minor that are read as numbers, a dot between them, and a dash before any suffix |
| Releases.AtoiReads | internal/common/release/release.go:44-58 | a number is read with or without a sign and with leading zeros, up to what a 64-bit int holds |
| Releases.Classification | internal/common/release/release.go:75-96 | on parsed tags, patch-only, sequential and downgrade are exactly equal, next and smaller positions in the half-yearly sequence |
| Jobs.TerminalCondition | internal/common/job/job.go:232-250 | the scan returns Failed if any true Failed condition is there, else Complete if one is, else nothing |
| Jobs.TerminalIgnoresOrder | internal/common/job/job.go:232-250 | the verdict does not depend on the order of the conditions |
| Jobs.FailedWins | internal/common/job/job.go:232-250 | one true Failed condition decides wherever it stands, Complete decides without one, and no other type counts |
| Jobs.JobStore.Create | internal/common/job/job.go:174-191 | creates with the key annotation; AlreadyExists is success and changes nothing |
| Jobs.JobStore.RecreateStaleJob | internal/common/job/job.go:203-209 | delete, then create, with every failure and a crash in between |
| Jobs.JobStore.RunJobWithRerunKey | internal/common/job/job.go:101-169 | the statements have the effect and the answer whose laws the rows below give, for every read, fault and stored key |
| Jobs.AbsentIsCreated | internal/common/job/job.go:105-106 | a pass that finds no Job leaves a live one of the owner, not terminal, under the pass's key, unless the create is refused |
| Jobs.CreatesIff | internal/common/job/job.go:101-209 | a pass makes a new Job iff none is there and it read none, or it replaces one that is gone after the delete |
| Jobs.AnswersIff | internal/common/job/job.go:101-169 | exactly when a pass is done, when it fails and with a permanent failure, and which Job it reports; any other answer is to wait |
| Jobs.UnannotatedIsNeverDone | internal/common/job/job.go:130-150 | a finished Job without the annotation, or with another key, is replaced and never taken for done |
| Jobs.TwoQuietRoundsFinish | internal/common/job/job.go:84-209 | from any state but a permanent failure under the current key, a pass is done after two rounds without faults in which Jobs complete |
| Jobs.StepKeepsKeys | internal/common/job/job.go:101-209 | every step of any environment keeps each own Job's annotation equal to the key of the pass that created it, and a Job seen complete did complete |
| Jobs.DoneMeansCompleted | internal/common/job/job.go:101-169 | done for a key means a Job created for that key ran to completion, and the pass touched nothing |
| Jobs.DoneInEveryRun | internal/common/job/job.go:101-209 | the same over every run from an empty cluster |
| Jobs.ChangesIffDisturbs | internal/common/job/job.go:130-209 | whatever a pass reads and whatever fails, it changes a live Job nobody is deleting iff it read a claimable terminal Job of another key and the delete goes through |
| Jobs.OnlyAnotherJobDisturbs | internal/common/job/job.go:101-209 | with the live Job's own key that takes a read of another Job: no version of the live one, however stale, does it |
| Jobs.TerminalJobStays | internal/common/job/job.go:84-86 | over any stretch of any run, with any keys, reads and failures, a terminal Job is neither deleted nor run again iff no pass meets that guard and nobody outside deletes it |
| Jobs.SameKeyNeverReruns | internal/common/job/job.go:84-86 | while the key is unchanged and reads show versions of that Job or none, it is never deleted or run again |
| Jobs.StaleReadDeletesCurrentJob | internal/common/job/job.go:203-209 | a stale read of an earlier Job deletes the current one, since the delete goes by name |
| Upgrade.HashTellsRelease | internal/common/job/job.go:49-55 | different templates, in name, release or configuration, have different keys |
| Upgrade.UpgradeFlow.InitiateUpgrade | internal/common/database/upgrade.go:144-210 | the four outcomes with status, event and result |
| Upgrade.UpgradeFlow.RunUpgradePhase | internal/common/database/upgrade.go:317-411 | running, failing and completing a phase Job, with the status each completion leaves |
| Upgrade.UpgradeFlow.DeleteUpgradeJobs | internal/common/database/upgrade.go:457-478 | the three phase Jobs are deleted in order up to the first error, NotFound aside |
| Upgrade.UpgradeFlow.AbortUpgrade | internal/common/database/upgrade.go:428-451 | the fields are reset only after every delete went through |
| UpgradeRuns.AbortsIff | internal/common/database/upgrade.go:428-478 | an abort is over iff every delete went through: then the fields are reset and every phase Job left is being deleted; else it fails and the status is as it was |
| Upgrade.UpgradeFlow.ReconcileUpgrade | internal/common/database/upgrade.go:218-286 | abort, third release, the four phases and the unknown phase |
| Upgrade.UpgradeFlow.CompleteRollingUpdate | internal/common/database/upgrade.go:487-496 | only RollingUpdate moves on, with its event |
| Upgrade.UpgradeFlow.ReconcileSyncJobs | internal/common/database/flow.go:306-394 | the statements have the effect that UpgradeRuns.SyncedIffRead describes |
| UpgradeRuns.SyncedIffRead | internal/common/database/flow.go:306-394 | the sync is over, the condition true and the marker the image's release iff the pass read a Complete db-sync of it and, if there is one, a Complete schema check; until then it requeues or fails and the marker stands; the event marks the transition |
| Upgrade.UpgradeFlow.ReconcileDatabase | operators/keystone/internal/controller/reconcile_database.go:91-166 | provisioning first, then the upgrade flow, the start of an upgrade or the sync |
| UpgradeRuns.StepKeepsJobs | internal/common/database/upgrade.go:218-286 | every pass and every event keeps the history of all five Job names consistent |
| UpgradeRuns.PassMoves | internal/common/database/upgrade.go:218-286 | whatever the API server answers, a pass makes one of eight moves of the status, each with its evidence |
| UpgradeRuns.PassKeepsStatus | internal/common/database/upgrade.go:144-286 | a pass keeps phase and target set together and the target one sequential step ahead |
| UpgradeRuns.HistoryInEveryRun | internal/common/database/upgrade.go:113-210 | in every run every version of the CR has phase empty iff target empty, a target that is a non-downgrade sequential successor, and a parseable marker that changes only patch-only or by one step |
| UpgradeRuns.MarkerNeverFallsOrSkips | internal/common/database/upgrade.go:395-411 | in every run YYYY.N never falls, and every release between two markers was installed in between |
| UpgradeRuns.InFlightHasEvidence | internal/common/database/upgrade.go:226-286 | in every run an upgrade in flight has its start and its observed expand, migrate and rollout behind it, in order |
| UpgradeRuns.PromotedOnlyAfterAllPhases | internal/common/database/upgrade.go:218-286 | in every run the marker moves in flight only to the target, after landed passes saw Complete expand, Complete migrate, a rollout and Complete contract in order, each under the key for the target and earned by a completed Job of that key |
| UpgradeRuns.PromotedOnlyWhenSynced | internal/common/database/flow.go:306-394 | in every run with no upgrade in flight the marker moves only to the spec's release, which needs no upgrade, in a landed pass that saw a Complete db-sync of it and, if there is one, a Complete schema check, each earned by a completed Job of that key |
| UpgradeRuns.LeftoverOfOtherReleaseNeverAdvances | internal/common/database/upgrade.go:317-336 | when the Job of the current phase is keyed for another release the phase does not advance, whatever the other Jobs hold |
| UpgradeRuns.ThirdReleaseBlocks | internal/common/database/upgrade.go:226-247 | a pass that finds a third release changes no status field and no Job, and fails with the condition and the event that say so |
| UpgradeRuns.ThirdReleaseFreezes | internal/common/database/upgrade.go:226-247 | over any stretch with a third release in the spec the three fields stand still, however old the versions passes read |
| UpgradeRuns.ThirdReleaseTouchesNoJob | internal/common/database/upgrade.go:226-247 | and no pass that reads a version of the stretch touches a Job |
| UpgradeRuns.ThirdReadTouchesNoJob | internal/common/database/upgrade.go:226-247 | at any time a pass touches a Job only if the version it read names no third release |
| UpgradeRuns.StaleAbortDeletes | internal/common/database/upgrade.go:428-451 | a pass that still reads a version naming the installed release deletes the live expand Job |
| UpgradeRuns.LingeringJobOfSameReleaseCounts | internal/common/database/upgrade.go:428-478 | after an abort whose deletes linger, the same upgrade passes Expanding on the old run |
| UpgradeProgress.StartsIff | internal/common/database/upgrade.go:144-210 | an upgrade starts iff the pair is sequential; a release that does not parse, a step back and a step of more than one are each refused with their error, reason and event, and nothing moves |
| UpgradeProgress.PhaseWaitsOrFails | internal/common/database/upgrade.go:317-394 | a phase whose Job is not read complete waits or fails exactly as the Job does, says so, and moves nothing |
| UpgradeProgress.NeverStalls | operators/keystone/internal/controller/reconcile_database.go:91-166 | a pass that neither fails nor requeues leaves the database synced, or an upgrade that waits for its rollout; none reports it synced otherwise |
| UpgradeProgress.EventsTellTransitions | internal/common/database/upgrade.go:144-496 | every transition of the phase has its event and every event its cause; a failure keeps the fields and records its reason, or touches nothing |
| UpgradeProgress.ConditionTellsPhase | internal/common/database/upgrade.go:218-394 | after a pass of an upgrade in flight that does not fail the condition names the phase the CR is in |
| UpgradeProgress.WaitsForProvisioning | operators/keystone/internal/controller/reconcile_database.go:91-120 | without a provisioned database a pass touches no Job and no field, and fails iff provisioning did |
| UpgradeProgress.UnknownPhaseFails | internal/common/database/upgrade.go:276-286 | a phase nobody knows is an error that changes nothing |
| UpgradeProgress.QuietUpgradeFinishes | internal/common/database/upgrade.go:218-286 | from any point of an upgrade, whatever earlier ones left, at most ten rounds without faults in which Jobs complete promote the target, reset the fields and report the database synced |
| UpgradeProgress.QuietUpgrade | internal/common/database/upgrade.go:144-286 | and from the steady state at most eleven do, for every sequential pair |
| UpgradeProgress.FailedJobBlocks | internal/common/database/upgrade.go:317-336 | the exception: behind a phase Job that failed for good under the current key no number of such rounds moves the upgrade |
| UpgradeProgress.QuietSyncFinishes | internal/common/database/flow.go:306-394 | with no upgrade asked for, at most five such rounds sync the database and set the marker |
| OldRuns.PhaseAdvancesIff | internal/common/database/upgrade.go:317-336 | a phase advances iff its Get succeeds and shows the owner's Job complete under the current key |
| OldRuns.OldRunNeverCounts | internal/common/database/upgrade.go:317-336 | in every run, if nothing left at a step can count for a release, every Complete observed for it later is of a Job created since |
| OldRuns.OldRunCanCount | internal/common/database/upgrade.go:317-336 | and if something was left, at most one event and one pass advance the phase on that older Job |
| OldRuns.PromotedOnFreshRuns | internal/common/database/upgrade.go:218-286 | in every run the marker reaches its target on Jobs created since the upgrade began, for every phase with nothing left that can count |
| TerminalMetric.KeysApart | internal/common/job/terminal.go:35-37 | different suffixes have different annotations |
| TerminalMetric.ManagementCluster.PatchAnnotation | internal/common/job/terminal.go:122-150 | the optimistically locked patch: applied only at the version read, with or without an answer |
| TerminalMetric.OwnerCopy.RecordJobTerminalState | internal/common/job/terminal.go:65-165 | what the call writes, mirrors back and records |
| TerminalMetric.EmitsIff | internal/common/job/terminal.go:76-150 | a call emits iff its Job has ended, the copy's mark is another one and the patch from that copy is delivered; else the copy is as it was |
| TerminalMetric.EmissionTells | internal/common/job/terminal.go:86-165 | what is emitted is the Job shown, failed iff a Failed condition is true, timed to the first condition that decided and never below zero; afterwards the copy has the server's version and mark |
| TerminalMetric.ConsecutiveEmissionsDiffer | internal/common/job/terminal.go:45-61 | in every run, from any stale snapshot, an emission repeats the UID emitted last for the suffix only if an answer for it was lost in between |
| TerminalMetric.NothingLost | internal/common/job/terminal.go:45-61 | with no lost answer the annotation always holds the UID emitted last |
| TerminalMetric.RepeatsExactlyWhenMarkMoved | internal/common/job/terminal.go:76-164 | a delivered call repeats the last UID iff the mark was moved on without an emission |
| TerminalMetric.RepeatsIffLostPatchMoved | internal/common/job/terminal.go:45-61 | in every run, with no emission for the suffix since the last, a delivered call from the current version that is shown the same UID emits it again iff a patch was applied in between and the last one wrote another UID; each such patch lost its answer |
| TerminalMetric.LostAnswerRepeats | internal/common/job/terminal.go:122-150 | a concrete run that emits one UID twice in a row |
| TerminalMetric.EmittedAtMostOnce | internal/common/job/terminal.go:45-61 | if shown UIDs never return to an earlier one, each is emitted at most once, lost answers included |
| TerminalMetric.MarkStays | internal/common/job/terminal.go:22-30 | in every run only calls of its own suffix move a mark |
| TerminalMetric.SuffixesAreIndependent | internal/common/job/terminal.go:22-30 | in every run, however many calls of other suffixes lie between, a delivered call from the current version emits iff its own earlier mark differs |
| Ownership.ChildObject.DropControllerRef | internal/common/multicluster/ownership.go:271-291 | exactly the controller references to the owner go, the rest keeps its order |
| Ownership.ChildObject.StampLabels | internal/common/multicluster/ownership.go:297-306 | the ownership labels on top of the present ones |
| Ownership.ChildObject.ClaimRemote | internal/common/multicluster/ownership.go:149-176 | both refusals leave the object as it was |
| Ownership.ChildObject.ClaimRemoteWithLabels | internal/common/multicluster/ownership.go:188-206 | the rebuild happens after the claim |
| Ownership.ClaimIntact | internal/common/multicluster/ownership.go:149-176 | a claimed object is recognized by its owner, with every other label and every other reference, counted, intact |
| Ownership.ClaimsIff | internal/common/multicluster/ownership.go:149-176 | a claim succeeds iff the owner's name fits a label and the object is new or the owner's already |
| Ownership.OnlyItsReferenceGoes | internal/common/multicluster/ownership.go:271-291 | a claim drops a reference iff it is a controller reference of that group, kind and name |
| Ownership.LegacyChildIsAdopted | internal/common/multicluster/ownership.go:149-176 | an object a controller reference ties to its owner is claimed, labelled, freed of the reference and recognized from then on |
| Ownership.ClaimTwice | internal/common/multicluster/ownership.go:149-176 | a second claim changes nothing |
| Ownership.RebuildRecognized | internal/common/multicluster/ownership.go:188-206 | so is a rebuilt one, with exactly the caller's other labels |
| Ownership.RebuildFirstRefuses | internal/common/multicluster/ownership.go:178-206 | rebuilding the labels before the claim would refuse the owner's own child unless the new labels name the owner |
| Ownership.ActKeepsOwnership | internal/common/apply/apply.go:83-119 | each write of an owner (apply, claim, relabel, sweep) touches only its own or an absent object and keeps at most one owner per object |
| Ownership.OwnStepsWork | internal/common/apply/apply.go:83-119 | and on what is its own or nobody's an owner gets its way: the desired object stands under its labels, a swept one is gone |
| Ownership.OwnershipInEveryRun | internal/common/multicluster/ownership.go:149-254 | in every run of any set of owners each object is controlled by at most one |
| Ownership.ForeignObjectsUntouched | internal/common/multicluster/teardown.go:209-222 | and no owner's write reshapes or deletes an object it does not control |
| Teardown.HeldChildOutlivesDelete | internal/common/multicluster/teardown.go:157-161 | a deleted child is still on the target iff a finalizer of its own holds it, and is then terminating |
| Teardown.SweepKind | internal/common/multicluster/teardown.go:180-231 | one kind: pages, at most one rescan after an expired token, termination; the finished scan holds every child live at the call that has not left, and every owned child of it is gone or terminating |
| Teardown.DeleteRemoteChildren | internal/common/multicluster/teardown.go:157-232 | success means every owned child of a served kind live at the call was deleted: it is gone, or still terminating exactly if something holds it; the other live ones appeared meanwhile; it deletes only owned ones; it fails only if a call failed or a kind expired twice |
| Teardown.GoneWhenReleased | internal/common/multicluster/teardown.go:157-161 | in every later state a deleted child is gone iff nothing holds it any more |
| Teardown.TerminatingCR.SweepRemoteChildren | internal/common/multicluster/teardown.go:62-100 | the finalizer goes exactly with an accepted update behind an abandoned or local client or a sweep that succeeded, which does not wait for held children and fails only if the reader does not resolve, a call failed or a kind expired twice |
| Deletion.Pass | operators/keystone/internal/controller/keystone_controller.go:497-524 | resolution and sweep as one pass: for every state of process and CR it is an enabled step of the resolver's runs and leaves what that step leaves, with the sweep's outcome as the step's; a successful sweep has deleted every child it answers for; with a target that resolves, or none, it does not wait, and the finalizer goes unless a call on the target fails |
| Deletion.DeleteOver | operators/keystone/internal/controller/keystone_controller.go:497-524 | any turns of passes, restarts, other CRs and other clients of the target from a fresh process on are a run of the resolver; when the finalizer has gone, every child answered for that was live at the beginning was deleted and any other live one terminates or appeared since, or there is no target cluster, or both windows passed with no resolution in the second; and it does go by the first pass that can finish, unless a call on the target fails |
| Resolver.Process.FirstUnresolvable | internal/common/multicluster/resolver.go:105-115 | the first failure is recorded once and kept |
| Resolver.Process.ForgetUnresolvable | internal/common/multicluster/resolver.go:119-124 | a resolution drops the record of that cluster alone |
| Resolver.Process.ResolveChildrenClientForDeletion | internal/common/multicluster/resolver.go:159-189 | the statements give the answer and the record whose laws Resolver.AnswersIff states, for every lookup and clock |
| Resolver.AnswersIff | internal/common/multicluster/resolver.go:159-189 | the remote client iff the cluster resolves, the local one iff there is none, giving up iff it does not resolve and both windows passed, waiting iff it does not and one is open; a record stays iff its cluster did not resolve |
| Resolver.RecordedByFailure | internal/common/multicluster/resolver.go:98-124 | a recorded time is that of a failed pass of this process with only failures since |
| Resolver.ReleasedOnlyWithLicence | internal/common/multicluster/resolver.go:159-189 | in every run with restarts and many CRs the finalizer goes only behind a successful sweep, no target cluster, or both windows passed |
| Resolver.BothWindowsRelease | internal/common/multicluster/resolver.go:159-189 | once both windows passed without a resolution or a restart, the next pass releases it |
| Resolver.ReachableIsReleased | internal/common/multicluster/resolver.go:159-189 | a pass whose cluster resolves, or that has none, releases the finalizer once it gets there and sweep and update succeed, whatever failed before |
| Resolver.FreshProcessWaits | internal/common/multicluster/resolver.go:98-124 | the first failed pass of a process waits, however long the CR has been terminating |
| Retention.ReferrerSubjects | hack/ghcr-prune-stale-versions.py:378-386 | the subjects if every tag is a referrer tag, else none |
| Retention.ExpandOnce | hack/ghcr-prune-stale-versions.py:417-433 | one round grows the keep set inside every closed set and reports a change exactly |
| Retention.KeepSet | hack/ghcr-prune-stale-versions.py:401-433 | the loop terminates with the least set closed under keeper tags, children and referrers |
| Retention.KeepSetIgnoresOrder | hack/ghcr-prune-stale-versions.py:401-433 | that set depends on which versions are listed and on nothing else |
| Retention.KeptIffReached | hack/ghcr-prune-stale-versions.py:401-433 | a digest is kept iff a chain of children and referrers leads to it from a version with a keeper tag |
| Retention.InFlightCheck.InFlight | hack/ghcr-prune-stale-versions.py:285-301 | the active runs are fetched at most once, and not at all for the own run |
| Retention.FateOfVersion | hack/ghcr-prune-stale-versions.py:436-456 | the statements give the fate that Retention.CandidateIffDeletable and Retention.FirstGuardDecides describe |
| Retention.CandidateIffDeletable | hack/ghcr-prune-stale-versions.py:436-456 | a version may be deleted iff nothing keeps it, every tag is in scope, it is at least the minimum age old and no tag names an unfinished run of somebody else |
| Retention.FirstGuardDecides | hack/ghcr-prune-stale-versions.py:436-456 | otherwise it is reported under the first of these it fails |
| Retention.InUseRowsTell | hack/ghcr-prune-stale-versions.py:449-454 | a row of the report is a version held back with exactly the unfinished runs, the own one aside, that its tags name |
| Retention.Classify | hack/ghcr-prune-stale-versions.py:435-456 | every version gets one fate; the lists and counts are those fates in listing order |
| Retention.CapAndHold | hack/ghcr-prune-stale-versions.py:460-469 | a prefix within the cap, leaving at least one version |
| Retention.BuildPlan | hack/ghcr-prune-stale-versions.py:389-480 | over the least keep set, only what passes every guard is deleted, and what passes them all is deleted, is the version held back, or was left by the cap to none younger; the report lists the rest |
| Retention.FatesPartition | hack/ghcr-prune-stale-versions.py:435-456 | counted with repetition, a version is listed under its own fate and no other |
| Retention.PlanPartition | hack/ghcr-prune-stale-versions.py:458-469 | deleted, held back and capped split the candidates, the deleted ones being the oldest |
| Retention.DeletionKeepsLeast | hack/ghcr-prune-stale-versions.py:401-433 | deleting outside the keep set leaves the least closed set what it was |
| Retention.KeptForever | hack/ghcr-prune-stale-versions.py:389-480 | no number of sweeps, with any options and failures, deletes a kept version, a child or a referrer of one |
| Retention.DeletePlanned | hack/ghcr-prune-stale-versions.py:643-656 | the planned deletions in order, none on a dry run, failure iff one failed |
| Retention.SweepPackage | hack/ghcr-prune-stale-versions.py:612-656 | the sweep from plan to exit code, refusing a full sweep with an empty keep set; every accepted deletion passed every guard |
| Retention.DeletedIsOutsideKeep | hack/ghcr-prune-stale-versions.py:643-656 | no version a sweep deletes is in its keep set |
| Retention.SweepIsARound | hack/ghcr-prune-stale-versions.py:612-656 | what a sweep leaves listed is a round of the runs of Retention.KeptForever, with every kept version still listed |
| ContentHash.WritePreimage | internal/common/config/config.go:249-263 | the bytes hashed are the encoding of the map, whatever order it is iterated in |
| ContentHash.RoundTrip | internal/common/config/config.go:250-263 | the decoder reads every map back, whatever its keys and values hold |
| ContentHash.Injective | internal/common/config/config.go:320-334 | maps with one pre-image are equal |
| Registration.ParseNamespaces | internal/common/multicluster/provider.go:373-389 | a value is taken whole, trimmed and in order, or refused whole |
| Registration.ListReadsBack | internal/common/multicluster/provider.go:373-389 | any list of labels, padded at will and joined by commas, is accepted and read back in order |
| Registration.LabelIff | internal/common/multicluster/provider.go:373-389 | a label is one to 63 lower-case letters, digits and dashes with no dash at either end |
| Registration.AcceptedIsNulFree | internal/common/multicluster/provider.go:373-389 | an accepted value holds no NUL |
| Registration.InBoth | internal/common/multicluster/provider.go:417-430 | the namespaces under both keys, each once, in assigned order |
| Registration.RegistrationPreimage | internal/common/multicluster/provider.go:436-449 | the NUL-separated bytes the hash is taken of |
| Registration.SplitOfPreimage | internal/common/multicluster/provider.go:436-449 | splitting at NUL decodes the pre-image |
| Registration.PreimageInjective | internal/common/multicluster/provider.go:436-449 | one pre-image means one kubeconfig, one set of present keys and one set of values |
| Registration.NulKubeconfigCollides | internal/common/multicluster/provider.go:436-449 | with a NUL in the kubeconfig it does not: any namespaces value can be moved into it under the same pre-image |
| Provider.KubeconfigProvider.RemoveCluster | internal/common/multicluster/provider.go:678-690 | the entry goes and its cluster is cancelled |
| Provider.KubeconfigProvider.ApplyIndexers | internal/common/multicluster/provider.go:624-635 | success means every listed index was set |
| Provider.KubeconfigProvider.CreateAndEngageCluster | internal/common/multicluster/provider.go:558-620 | every failure point with what it leaves |
| Provider.KubeconfigProvider.Check | internal/common/multicluster/provider.go:263-312 | honoured iff present, not deleting, with a kubeconfig and usable, disjoint scope keys |
| Provider.KubeconfigProvider.ReconcileSecret | internal/common/multicluster/provider.go:248-339 | one call, from the Secret read to the engagement |
| Provider.KubeconfigProvider.IndexEngaged | internal/common/multicluster/provider.go:350-365 | the index is listed and set on the engaged clusters up to the first failure |
| Provider.InvInEveryRun | internal/common/multicluster/provider.go:248-365 | in every run started and uncancelled clusters are the engaged ones and the one being engaged |
| Provider.StartedIsEngaged | internal/common/multicluster/provider.go:248-365 | outside an engagement they are exactly the map's entries, each carrying every registered index but those of its own engagement |
| Provider.EveryIndexCarried | internal/common/multicluster/provider.go:350-365 | with indexes registered outside engagements none is missed |
| Provider.IndexInWindow | internal/common/multicluster/provider.go:590-611 | in every state of an engagement, an index registered in its window reaches the new cluster iff the replay had it |
| Provider.CarriesExactly | internal/common/multicluster/provider.go:350-365 | in every run a cluster carries exactly the indexes listed at its start and those whose later registration reached it |
| Provider.MissedExactly | internal/common/multicluster/provider.go:341-365 | with registrations that succeed, an engaged cluster misses an index iff it was not listed at the start and no later registration found the cluster engaged |
| Provider.IndexInWindowIsMissed | internal/common/multicluster/provider.go:590-611 | one run in which both calls succeed and the index is missed |
| Provider.ReconcileOutcome | internal/common/multicluster/provider.go:248-339 | success means engaged under the current content's hash or absent; failure means absent or unchanged; no other name is touched |
| Provider.ReconcileSucceedsIff | internal/common/multicluster/provider.go:248-339 | a void registration always disengages, an unchanged one leaves everything running as it is, and any other is engaged as a new cluster with every listed index iff nothing obstructs it |
| Provider.VoidOrHonoured | internal/common/multicluster/provider.go:263-312 | void means gone, deleting, without a kubeconfig, with a scope key that is not accepted, an assigned scope without a placed one, or a namespace under both |
| Provider.ChangedContentReengages | internal/common/multicluster/provider.go:313-339 | changed content always cancels the old cluster |
| Ini.RenderINIMulti | internal/common/config/config.go:59-90 | the text is the print of the sorted file, whatever order the maps are iterated in |
| Ini.FileCount | internal/common/config/config.go:59-110 | each value of each key prints as exactly one entry line of its section |
| Ini.SectionsInOrder | internal/common/config/config.go:59-90 | the sections stand in sorted order, each once |
| Ini.CheckNoControlChars | internal/common/config/config.go:141-148 | passes iff no key and no value holds CR or LF |
| Ini.LinesOfPrint | internal/common/config/config.go:113-118 | text printed from one-line lines reads back as exactly those lines |
| Ini.PrintsOneLineEach | internal/common/config/config.go:30-41 | with clean sections, none of the lines is injected and each key and value has one of its own |
| Ini.NameOfPrintedLine | internal/common/database/connection.go:148-163 | the option read from a printed line is the one read from the bare key, for every key and value |
| Ini.PaddedNameReads | internal/common/database/connection.go:148-163 | a name padded with what the reader strips and cut at a colon or an equals sign is read as the bare name, or as none behind a leading blank |
| Ini.FoldsCaseOnly | internal/common/database/connection.go:165-178 | two block names are one iff they differ in the case of ASCII letters at most |
| Ini.UserSetsConnectionParameters | internal/common/database/connection.go:134-146 | true iff some folded block has a key read as connection_parameters |
| Ini.SocketTimeoutEnvVars | internal/common/database/connection.go:116-128 | the sections emitted, in order |
| Ini.EmittedOneByOne | internal/common/database/connection.go:116-128 | each section named is decided by itself, in the order given |
| Ini.EmittedExactlyWhenFileLeavesIt | internal/common/database/connection.go:116-146 | over defaults that leave the option alone, a variable is emitted iff no entry line of a rendered block of that name reads as connection_parameters |
| Ini.TextSetsIff | internal/common/config/config.go:59-118 | for clean sections, whatever their keys: the rendered text, read line by line with headers opening blocks, sets the option iff some key of a block of that name reads as it and no key up to it in the block starts with a bracket |
| Ini.TextAgreesExactly | internal/common/database/connection.go:116-163 | for clean sections, whatever their keys: the decision is the one the rendered text gives iff the user's setting, if there is one, has such a key |
| Ini.EmittedExactlyWhenTextLeavesIt | internal/common/database/connection.go:116-163 | so a variable is emitted iff the rendered text leaves the option alone, when no key starts with a bracket |
| Ini.BracketKeyShadows | internal/common/database/connection.go:134-146 | beside any key that starts with a bracket, no variable is emitted and no line of the text sets the option |
| HealthProbe.ProbeCache.Hit | internal/common/healthcheck/healthcheck.go:136-146 | same UID, same endpoint, younger than the TTL |
| HealthProbe.ProbeCache.Store | internal/common/healthcheck/healthcheck.go:151-158 | the entry keeps its own TTL |
| HealthProbe.ProbeCache.Evict | internal/common/healthcheck/healthcheck.go:162-166 | the entry of that CR alone goes |
| HealthProbe.ProbeCache.ExpiresIn | internal/common/healthcheck/healthcheck.go:172-180 | the time left under the TTL stored with the entry |
| HealthProbe.ReconcileProbe | internal/common/healthcheck/flow.go:87-194 | cache, condition and result for every answer |
| HealthProbe.ServesIff | internal/common/healthcheck/flow.go:70-100 | a configured CR is not probed iff its condition is True and its last success is of the same UID and endpoint and younger than the TTL |
| HealthProbe.PassAmountsTo | internal/common/healthcheck/flow.go:87-194 | a pass fails only if it could not ask, and then writes nothing; a failed probe is forgotten, reported False and asked again after the interval; a good one or a hit is reported True |
| HealthProbe.ScheduleReprobe | internal/common/healthcheck/flow.go:212-225 | a converged pass is requeued for the instant of expiry, or after one second |
| HealthProbe.TrueFollowsAFreshProbe | internal/common/healthcheck/flow.go:87-194 | in every run a pass without error that leaves True follows a 2xx answer of the same UID and endpoint less than one TTL old |
| HealthProbe.HitLeavesTime | internal/common/healthcheck/healthcheck.go:136-180 | of the cache alone: every hit under a TTL leaves time to expiry iff that TTL is no longer than the stored one |
| HealthProbe.HitAlwaysLeavesTime | internal/common/healthcheck/flow.go:70-76 | in every run with one TTL per CR it always does |
| HealthProbe.RaisedTTLHitsExpired | internal/common/healthcheck/healthcheck.go:136-180 | of the cache alone: a caller that raised its TTL would hit an expired entry; no operator does |
| HealthProbe.ProbesAreClose | internal/common/healthcheck/flow.go:196-225 | between two probes of a Ready CR every hit starts inside the TTL, and the next probe starts within the TTL, one pass and one second |
| HealthProbe.LateStartIff | internal/common/healthcheck/healthcheck.go:60-66 | a next pass may start past the TTL and one pass iff the pass ends after expiry and the minimum requeue carries it there |
| HealthProbe.LateProbeEndedLate | internal/common/healthcheck/flow.go:196-225 | in a run a probe starts past that bound only behind such a pass |
| HealthProbe.LateEndCostsASecond | internal/common/healthcheck/flow.go:196-225 | a run in which the second is used up |
| Sizing.Row.Classify | hack/derive-sizing-figures.py:204-226 | class, process count and thread count of every row |
| Sizing.ClassIff | hack/derive-sizing-figures.py:204-217 | what puts a row in each class; only a sidecar is taken out of another |
| Sizing.ProcessesIff | hack/derive-sizing-figures.py:218-226 | a sized row runs what was measured; unmeasured, only a tempest leg's Glance, Nova scheduler or conductor runs more than one process |
| Sizing.RoundUpIsLeast | hack/derive-sizing-figures.py:147-149 | the least multiple of the step that is at least x |
| Sizing.LargestByCount | hack/derive-sizing-figures.py:258-260 | the largest normalized memory per process count |
| Sizing.Greatest | hack/derive-sizing-figures.py:265-266 | the greatest value over every pair of counts, attained |
| Sizing.PerProcess | hack/derive-sizing-figures.py:265-267 | the least multiple of 16 from 32 on that bounds every slope |
| Sizing.Base | hack/derive-sizing-figures.py:268 | the least multiple of 16 from 0 on that covers every row |
| Sizing.MemoryFormula | hack/derive-sizing-figures.py:257-268 | fails iff fewer than two process counts were measured, else both figures are the least that do |
| Sizing.SmallestCountDecides | hack/derive-sizing-figures.py:265-268 | covering the rows of the smallest process count covers every row |
| Sizing.BaseFromSmallestCount | hack/derive-sizing-figures.py:265-268 | the base is what the smallest process count needs, rounded up, and nothing else |
| Sizing.GlanceFigure | hack/derive-sizing-figures.py:270-274 | the least multiple of 16 from 32 on that covers every Glance row; a row with no process divides by zero |
| Sizing.UpperMedianSplits | hack/derive-sizing-figures.py:152-155 | a measured value with at most half below and more than half at most it |
| Sizing.UpperMedianIsTheOnly | hack/derive-sizing-figures.py:152-155 | the only such value, so the order of the list is immaterial |
| Sizing.LargestPerKey | hack/derive-sizing-figures.py:235-240 | the largest CPU target per key, attained |
| Sizing.KeyTells | hack/derive-sizing-figures.py:235-240 | rows share a key iff owner kind, component and container agree |
| Sizing.MedianCPU | hack/derive-sizing-figures.py:276-292 | the upper median over the keys rounded up to the step, at least 10m; it fails iff there is no row |
| Sizing.Project | hack/derive-sizing-figures.py:320-341 | the projected node totals as sums over the rows |
| Sizing.ProjectionReplaces | hack/derive-sizing-figures.py:320-341 | the projected totals are the node's, less what the projected containers request today, plus what the figures give them, once per pod |
| Sizing.MovesMemoryIff | hack/derive-sizing-figures.py:325-329 | the projection moves a service's memory iff its limit is set, equals its request and is no fixed figure |
| Sizing.FitBudget | hack/derive-sizing-figures.py:342-353 | terminates with the largest 5m-step figure of at least 10m that fits, or 10m and the error when none does |
| Derivation.LeastFigure | hack/derive-sizing-figures.py:308-318 | the least multiples from the floors on that cover every row |
| Derivation.MainIsLargest | hack/derive-sizing-figures.py:294-301 | every measured workload has one main row, of its own; no other has a larger memory target, nor a larger CPU target at the same memory |
| Derivation.RulesRead | hack/derive-sizing-figures.py:228-322 | which rows, legs and owners rules 3, 5, 6, 7, 8 and 9 read; no row counts for both CPU requests |
| Derivation.BackingFigures | hack/derive-sizing-figures.py:294-311 | fails iff a kind was not measured, else each kind has the least figure over its main rows |
| Derivation.OtherFigures | hack/derive-sizing-figures.py:276-318 | rules 5 to 8: fails iff one of them lacks its rows, else every figure is the least that does |
| Derivation.ProjectedRows | hack/derive-sizing-figures.py:320-341 | the projection takes every main row of a projected backing kind with the figures of its own kind, and no other |
| Derivation.Derive | hack/derive-sizing-figures.py:249-353 | all nine rules: fails iff a rule lacks its rows or a Glance row has no process; the figures cover every non-fixed formula row and every Glance row and are the least that do, and no larger request fits the node |
| Rbac.AuditKind | hack/audit-rbac-usage.py:195-210 | idle verbs less one implied get, for one pair of a rule |
| Rbac.Diff | hack/audit-rbac-usage.py:179-210 | the used triples no rule covers, and the findings of every rule in order |
| Rbac.PatternsMatch | hack/audit-rbac-usage.py:97-127 | what a resource pattern matches: itself, every resource, or one subresource of every kind |
| Rbac.KindOfStatus | hack/audit-rbac-usage.py:195-206 | the status of a kind is looked up under the kind |
| Rbac.ReportsIff | hack/audit-rbac-usage.py:190-210 | a verb other than get is reported iff a rule without a verb wildcard grants it on the pair and no event used it; a get is noted as implied iff list on the kind is granted beside |
| Rbac.PruneKeepsUsed | hack/audit-rbac-usage.py:179-210 | removing every reported verb leaves every covered used triple covered, under any object name |
| Rbac.PruneGrantsNoMore | hack/audit-rbac-usage.py:118-127 | and grants nothing new |
| Rbac.PruneLeaves | hack/audit-rbac-usage.py:190-210 | what is left on a pair is in use or a single get implied by list |
| Rbac.TwoRoundsSuffice | hack/audit-rbac-usage.py:179-210 | auditing and removing is a fixpoint after two rounds |
| Rbac.SparedIff | hack/audit-rbac-usage.py:202-206 | an unused get is left out of the report iff list on the kind is granted and no rule names the get of the pair twice |
| Rbac.OneRoundIff | hack/audit-rbac-usage.py:179-210 | one round is a fixpoint iff every get it spares is spared by a list that is in use or under a verb wildcard |
| Rbac.SecondRoundNeeded | hack/audit-rbac-usage.py:202-206 | a get loses the list that implied it in the first round |
| Rbac.GrantsLists | hack/gen-helm-rbac-rules.py:108-116 | a triple is granted iff some rule lists all three parts |
| Rbac.CheckCoverage | hack/gen-helm-rbac-rules.py:119-128 | passes iff every webhook triple is granted, else names the first that is not |
| Rbac.CoverageIsSound | hack/gen-helm-rbac-rules.py:119-128 | passing against the manager's rules without resourceNames, every request the webhook role covers is covered, wildcards included |
| Rbac.PassingCheckCovers | hack/gen-helm-rbac-rules.py:119-128 | so a passing check is enough when no manager rule has resourceNames |
| Rbac.EveryNameIff | hack/audit-rbac-usage.py:118-127 | a request is covered under every object name iff a rule without resourceNames covers it |
| Rbac.CoveredExactly | hack/gen-helm-rbac-rules.py:27-32 | the manager covers every real request the webhook role covers iff its rules cover each usable listed webhook triple, without resourceNames where the webhook rule has none |
| Rbac.CheckIsExact | hack/gen-helm-rbac-rules.py:108-128 | where the manager's rules have no wildcard but a verb's and no resourceNames, the check passes iff every real request of the webhook role is covered |
| Rbac.NamesBreakTheCheck | hack/gen-helm-rbac-rules.py:119-128 | a passing check and a request that is not covered, with resourceNames |
| Subunit.ReadsBack | nix/lib/subunit-crc.py:41 | the four bytes are the number, big-endian |
| Subunit.CutOffIsRefused | nix/lib/subunit-crc.py:32-38 | a length field cut off by the end of the stream never passes |
| Subunit.PacketsFrame | nix/lib/subunit-crc.py:32-38 | a header reads nothing of its packet's checksum |
| Subunit.NumberReadsBack | nix/lib/subunit-crc.py:32-33 | a Number of one to four bytes is read back with its width and its value |
| Subunit.WrittenIsRead | nix/lib/subunit-crc.py:32-38 | a stream that begins with a written packet, whatever its checksum and whatever follows, begins with a packet of that length |
| Subunit.ReadIsWritten | nix/lib/subunit-crc.py:12-15 | and every packet accepted is laid out as the format says |
| Subunit.AcceptsExactlyWritten | nix/lib/subunit-crc.py:30-38 | the streams accepted are exactly the concatenations of such packets |
| Subunit.RewriteOfWritten | nix/lib/subunit-crc.py:30-42 | whatever the checksums were, the lengths are read back packet by packet and the rewrite gives the stream its writer would |
| Subunit.CheckValue | nix/lib/subunit-crc.py:41 | the checksum is CRC-32 by its published check value |
| Subunit.HeaderAt | nix/lib/subunit-crc.py:32-39 | the header check in place |
| Subunit.Rewrite | nix/lib/subunit-crc.py:30-42 | the loop terminates, stops iff the stream does not parse, and else leaves the rewritten stream |
| Subunit.File.Recompute | nix/lib/subunit-crc.py:26-45 | nothing is written unless the whole stream parsed |
| Subunit.FixedIsTheOnly | nix/lib/subunit-crc.py:30-42 | the only stream that agrees outside the checksum fields and has every checksum right |
| Subunit.RewriteIsRight | nix/lib/subunit-crc.py:30-42 | same length, same packets, every byte outside the checksum fields kept, every checksum right, and a second run is the identity |

## Left out

- Ownership: the local branch of Claim, which hands the object to SetControllerReference; garbage collection covers it.
- Ownership.ActKeepsOwnership: another writer of the same name between the live check and the apply; which fields Server-Side Apply sheds is left open.
- Ownership.OwnershipInEveryRun: other clients are taken not to hand an object to an owner nor to give it a second controller.
- Teardown.DeleteRemoteChildren: re-creation or relabelling of a name between a list and the delete by name.
- Deletion.Pass: the named cleanup flows ahead of the sweep, which are one answer to the pass; a failing status update after a failed sweep.
- Resolver.ReleasedOnlyWithLicence: a target reference that changes while the CR is terminating. An operator without a multicluster manager resolves to the local client, and its finalizer goes without a sweep.
- Jobs.DoneMeansCompleted: Jobs that another writer creates are taken as not claimable by this owner.
- Upgrade.HashTellsRelease: SHA-256 and JSON of the template are a collision-free pre-image that names the Job and the release.
- Upgrade: operators whose image tag differs from the spec's release, the provisioning step beyond its outcome, the connection Secret, and rollback safety after contract, which the code disclaims.
- TerminalMetric: the duration and result passed to the metric, and events and logs of a failed patch.
- Retention: tag patterns, manifests and timestamps are functions of their input; paging of the registry and retries.
- Retention.DeletePlanned: the text of the log lines and the JSON of the plan.
- ContentHash.RoundTrip: strings are sequences of bytes, one per character; truncation of the digest, and creation and pruning of the objects.
- Registration.PreimageInjective: a kubeconfig with a NUL, on which the encoding collides; the code takes the hash before it loads the kubeconfig and only refuses such a one there.
- Provider: watching, cache scoping by namespace, credential checks and REST configuration, each a fault or an abstract answer.
- Provider.InvInEveryRun: Reconcile calls that overlap; the provider runs one at a time.
- Ini.TextAgreesExactly: section names with an equals sign, which no operator passes; the value of the variable and the upper-casing of its name; that a parser may reject a line that opens a bracket and does not close it.
- HealthProbe.TrueFollowsAFreshProbe: a pass is one step for its own CR; passes of other CRs touch other entries of the cache.
- HealthProbe.ProbesAreClose: UID, endpoint and TTL of the CR are fixed over the stretch.
- HealthProbe: classification of network errors and the body excerpt, which only change texts.
- Derivation.Derive: parsing of the input and the printed report; the order in which main rows of a kind are listed.
- Rbac.Diff: sorting of the report and reading of the audit log; nonResourceURLs.
- Subunit.Rewrite: the array after a refused stream, which is never written; CRC-32 is defined bit by bit, and the proofs use only that it is a function of the bytes.
