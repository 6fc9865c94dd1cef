# Crash-safe repair protocols: a Dafny model

The agent repairs a host's reverse proxy in two ways. A privileged helper executes signed grants and managed
applies, and keeps a journal on disk. The agent itself repairs files it may write, and keeps a manifest per
operation. Either process can die between any two writes. The model covers both protocols and the algorithms
they rest on, and proves what they are built for.

`dafny verify dfyconfig.toml` checks the whole project.

## How it is organised

Modules are named after what they model.

- **Helper** (`HelperProtocol`, `HelperTheorems`, `HelperJournal`, `HelperEngine`, `Retention`). The protocol is
  a state machine over the durable files, the clock and the request in progress. A run is a sequence of enabled
  events: planning, admitting, claiming, writing, handler calls, crashes, recovery and pruning. The theorems hold
  over all runs. `Journal` and `Engine` are classes with the fields and the branches of the program. The journal
  keeps its run as ghost state, and `Valid()` says that the run is legal and ends in the object's fields. So the
  theorems hold of the classes, and every crash point is a prefix of some run.
- **Managed apply** (`ManagedFs`, `ManagedExecute`, `ManagedRollback`, `ManagedConfig`, `ManagedCompile`,
  `ManagedCompiler`, `ManagedApplied`, `ManagedShape`, `ManagedRecompile`, `ManagedFixpoint`, `ManagedGuard`,
  `ManagedExamples`, `Marker`). A tree is
  a map from path to regular file (content, permission bits, special bits, owner, group) or link. `ManagedExecute`
  has the passes of `Execute` and the check `Converged`; `ManagedRollback` undoes them; `ManagedCompiler` turns an
  intent into targets; `ManagedApplied` to `ManagedFixpoint` lead to the fixpoint and to the safety of pruning, and
  `ManagedGuard` has the inspection that precedes everything.
- **Agent recovery** (`RecoveryState`, `RecoverySnapshots`, `RecoveryRetention`, `RecoveryRollback`,
  `RecoveryProtocol`, `RecoveryCoordinator`, `RecoveryBreaker`). Manifests with compare-and-set transitions,
  prevalidated rollback, and the coordinator, again a class with a ghost trace of a state machine with crashes.
- **Reporter** (`ReportQueue`, `ReportOrder`, `ReportRuns`, `BoundedReporter`). The queue as a value; the exact
  condition for delivery in order; all interleavings of enqueueing and flushing; and the class with its counters.
- **Config digest** (`ConfigDigest`), and the helpers `Strings` and `Sorting`.

Host actions, the backend, the sender, clocks and failing writes answer arbitrarily (`*`) in the methods and are
events of the state machines. Rendering, host names and nginx policy are functions about which nothing is assumed.

## What turned out not to hold

Six properties one might expect are false of the program. Each has an example and, where the property matters,
the exact condition under which it holds.

- Applying an intent twice need not be a fixpoint when pruning: a certificate kept only because a file that is
  itself pruned mentions it goes in the second apply (`FixpointIff`, `RetentionMayRestOnPrunedFile`).
- A rollback that died half way may be refused when run again, if captured links are chained
  (`RerunsAlwaysIff`, `ChainedLinksStrandRollback`).
- A certificate whose name has a line break can be pruned although a kept vhost contains its path once stamped
  (`PruneLeavesNoMention`, `PruneMayLeaveMention`).
- The breaker may persist a key that its loader refuses (`LoadsIff`, `OpenKeyMayNotLoad`).
- A restored file loses setuid, setgid and sticky bits (`RewoundExact`).
- The reports of one operation can overtake each other in a flush when a snapshot naming their diagnostic stands
  between them (`DeliveredInOrderIff`).

One comment disagrees with its code: the comment of `managedAuthDirectoryPending`
(internal/agent/helper/actions_managed_apply_converged_linux.go:111-115) says that an unsafe parent is an error,
but the parent is looked at only if the directory is missing. The model follows the code.

## Model

| member | source | states |
|---|---|---|
| HelperTheorems.InvariantHolds | internal/agent/helper/journal.go:473-756 | Over every legal run (plans, executions, crashes, recovery, pruning, in any interleaving): stored plans expire within 5 min 30 s of being made and number at most 128 of each kind; every record is bound to its own id, digest and grant; a record that may still change has its own grant claim; prepared evidence is on disk; the breaker and the records agree. |
| HelperTheorems.AtMostOncePerGrant | internal/agent/helper/engine.go:283-376 | Over every run, one signed grant reaches the handler at most once, also after its record, claim and plan were all deleted. |
| HelperTheorems.AtMostOnePerPlan | internal/agent/helper/journal.go:659-756 | The same for a fixed operation and plan: evidence goes only once the record is an hour old, and by then the plan has expired and can never be stored again. |
| HelperTheorems.RecordExecutesOnce | internal/agent/helper/engine.go:322-349 | While an operation has a record the handler ran at most once for it, and not yet if the record still says authorized. |
| HelperTheorems.RecordStays | internal/agent/helper/journal.go:522-543 | A step other than deleting the record keeps the record and its digest, never moves its time back, and if it is still authorized afterwards it has not changed at all. |
| HelperTheorems.EveryRecordIsBound | internal/agent/helper/journal.go:522-602 | A record that left `authorized` holds a receipt with its own id, digest, action and state; so recovery's missing-receipt branch is never taken. |
| HelperTheorems.DurableStateIsTruthful | internal/agent/helper/engine.go:336-376 | At every point of every run the durable state tells what happened to the host: `mutated` and `validated` mean the handler reported a mutation, `rolled_back` that the restore came back full, `failed_before_mutation` that nothing was mutated. |
| HelperTheorems.BreakerLatches | internal/agent/helper/journal.go:794-803 | Once the breaker file exists it exists in every continuation of the run, and the handler is never called again (prepare, execute and rollback alike). |
| HelperTheorems.RollbackFailureImpliesBreaker | internal/agent/helper/engine.go:602-613 | At every crash point a durable `rollback_failed` record implies a durable breaker. |
| HelperTheorems.ClaimNeverOutlivesRecord | internal/agent/helper/journal.go:714-756 | However a run goes on from a claim with its record, at every point of a prune pass and across crashes that bring back unsynced deletions: as long as the claim can be read it is the same claim, and the record that consumed it is there with the same digest. Only a new operation claiming the grant ends this. |
| HelperTheorems.OwnershipStep | internal/agent/helper/journal.go:714-756 | The same for a single step. |
| HelperTheorems.LiveRecordKeepsItsGrant | internal/agent/helper/journal.go:473-520 | If two records carry one grant, the other one is already final: no two operations that may still act share a grant. |
| HelperJournal.Journal.constructor | internal/agent/helper/journal.go:154-186 | A new journal has no record, a closed breaker, and the state every run starts from. |
| HelperJournal.Journal.Reopen | internal/agent/helper/journal.go:154-186 | A restart keeps what is durable, reads the breaker back from its file and may bring back only deletions that were not synced. |
| HelperJournal.Journal.EnsurePlanCapacity | internal/agent/helper/journal.go:302-374 | Drops only expired plans of its kind, and says whether there is room for another afterwards. |
| HelperJournal.Journal.StorePlan | internal/agent/helper/journal.go:232-300 | A differing plan under a stored id is a conflict, the same plan is accepted without a write, no plan that is still valid is lost and none but the given one appears. |
| HelperJournal.Journal.GetReceipt | internal/agent/helper/journal.go:545-559 | Found, conflicting and absent are told apart exactly by the record and its digest. |
| HelperJournal.Journal.ClaimGrant | internal/agent/helper/journal.go:487-500 | Binds the grant to this operation and digest, or changes nothing. |
| HelperJournal.Journal.BeginOperation | internal/agent/helper/journal.go:473-520 | An existing record comes back or conflicts and nothing is written; a grant bound elsewhere is a replay and nothing is written; otherwise exactly one authorized record and one claim are added. Only a fresh or still authorized record may go on to the handler. |
| HelperJournal.Journal.Transition | internal/agent/helper/journal.go:522-543 | Refuses every move that is no edge or whose receipt is not the record's; otherwise replaces exactly this record, with the receipt. |
| HelperJournal.Journal.StoreSnapshot | internal/agent/helper/journal.go:188-213 | Keeps a stored snapshot and refuses a differing second one. |
| HelperJournal.Journal.OpenBreaker | internal/agent/helper/journal.go:794-803 | The open flag in memory is set even if the file could not be written; a written breaker is never taken back. |
| HelperJournal.Journal.MarkIndeterminate | internal/agent/helper/journal.go:588-598 | Turns exactly this interrupted record into an indeterminate one, or changes nothing. |
| HelperJournal.Journal.WriteOff | internal/agent/helper/journal.go:580-599 | An interrupted record is written off before the breaker is opened; the breaker is open in memory whether or not the writes succeed. |
| HelperJournal.Journal.Recover | internal/agent/helper/journal.go:561-602 | Goes through all records: a pass that returns no error leaves no interrupted record, changed only interrupted ones, and the breaker is open if it converted any; a failing pass leaves it open. |
| HelperJournal.Journal.RemoveEvidences | internal/agent/helper/journal.go:714-746 | Only claims of records in the batch go, and a record is handed on for deletion only when it is unchanged since selection and its claim is gone or bound elsewhere. |
| HelperJournal.Journal.DropRecords | internal/agent/helper/journal.go:747-755 | Deletes nothing but the listed records, and all of them if it reports no error. |
| HelperJournal.Journal.RemoveOperationBatch | internal/agent/helper/journal.go:714-756 | Skips records that changed since they were selected; every write on the way is a legal protocol step, so each crash point is covered by the theorems about runs. |
| HelperJournal.Journal.Prune | internal/agent/helper/journal.go:614-654 | Deletes only what the retention choice of the current records allows, and no claim is added or rebound. |
| HelperJournal.Journal.PruneIfDue | internal/agent/helper/journal.go:626-635 | Runs exactly if the interval passed since the last pass, and otherwise changes nothing. |
| HelperJournal.PrunedAreOld | internal/agent/helper/journal.go:659-708 | Every record the selection picks is final and at least an hour old, which is what the protocol asks of a deletion. |
| HelperEngine.WritesAreEdges | internal/agent/helper/engine.go:336-376 | Each write the engine makes is an edge of the journal's state graph. |
| HelperEngine.AuthorizedWithoutReceipt | internal/agent/helper/engine.go:287-293 | If no receipt answers a request, its record, if any, is still authorized. |
| HelperEngine.Engine.Execute | internal/agent/helper/engine.go:262-526 | A repeat of a request with a receipt gets that receipt and calls no handler, a differing request under the same id is refused, an open breaker, an unknown plan or a replayed grant reaches no handler, no other operation's record changes, and the grant has been executed at most once in the whole run. |
| HelperEngine.Engine.Process | internal/agent/helper/engine.go:283-376 | The same without the pruning that follows; an answer is the receipt the record holds, except for a converged apply, which writes nothing. |
| HelperEngine.Engine.Admit | internal/agent/helper/engine.go:294-321 | A grant passes only within its own time, with a stored plan of the same terms, and with the breaker closed; each refusal is justified by the state it was made in. |
| HelperEngine.Engine.CheckStoredPlan | internal/agent/helper/engine.go:304-321 | Passes only an unexpired plan that agrees with the grant, with the breaker closed. |
| HelperEngine.Engine.PrepareAction | internal/agent/helper/engine.go:336-344 | Goes on only with evidence valid for the plan's coverage, which is then on disk. |
| HelperEngine.Engine.Start | internal/agent/helper/engine.go:322-344 | Begins or resumes the operation; a grant or request already used for something else is refused without calling the handler. |
| HelperEngine.Engine.Run | internal/agent/helper/engine.go:336-376 | From an authorized record to a final answer, touching no other record. |
| HelperEngine.Engine.CallHandler | internal/agent/helper/engine.go:349-376 | Whatever the handler answers and whichever write fails, the run stays legal and the answer is what the record holds. |
| HelperEngine.Engine.Settle | internal/agent/helper/engine.go:357-376 | From a reported mutation, validated or not, to an answer the record holds; the run stays legal, so the mutation is recorded before it is judged. |
| HelperEngine.Engine.Accept | internal/agent/helper/engine.go:364-376 | A receipt returned here says succeeded. |
| HelperEngine.Engine.RollBack | internal/agent/helper/engine.go:593-614 | The answer is rolled back or rollback failed, always failed if the evidence does not cover everything, and a failed one comes with a durable, open breaker. |
| HelperEngine.Engine.RestoreHost | internal/agent/helper/engine.go:597-614 | The same once the rollback is recorded as running. |
| HelperEngine.Engine.RecordFailure | internal/agent/helper/engine.go:602-614 | A receipt that says rollback failed comes with a breaker on disk; as the run is legal, the breaker was written first. |
| HelperEngine.Engine.ConvergedReceipt | internal/agent/helper/engine.go:528-550 | The receipt of a converged apply claims success with no coverage and no evidence. |
| HelperEngine.Engine.PlanAction | internal/agent/helper/engine.go:140-179 | A plan handed out is stored, new, and expires five minutes after planning. |
| HelperEngine.Engine.PlanManagedApply | internal/agent/helper/engine.go:181-260 | A plan handed out is stored, has the asked terms, and expires at most 5 min 30 s from now. |
| Retention.PruneCandidates | internal/agent/helper/journal.go:659-708 | For every map iteration order, the records selected, each once, are exactly a set defined without any order. |
| Retention.GroupByAction | internal/agent/helper/journal.go:664-680 | Every final record is in the group of its action, once. |
| Retention.SplitAction | internal/agent/helper/journal.go:683-696 | Past the newest fifty of an action, the expired and the merely superfluous are separated exactly by age. |
| Retention.Split | internal/agent/helper/journal.go:681-696 | Over all actions the two lists are the expired and the overflowing records, and the count of the retained is exact. |
| Retention.Trim | internal/agent/helper/journal.go:697-706 | Takes the oldest of the overflow, no more than needed for the bound of 1000 and none younger than an hour, and stops only when one of the two holds. |
| Retention.PrunedIsOldAndOffFloor | internal/agent/helper/journal.go:683-706 | Nothing selected is among the newest fifty of its action or younger than an hour. |
| Retention.PrunedIsSuffix | internal/agent/helper/journal.go:770-777 | With a record, every older one of the same action is selected. |
| Retention.BoundOrYoung | internal/agent/helper/journal.go:697-706 | If more than 1000 remain, every one that remains outside the per-action floors is younger than an hour. |
| Retention.NewerTotal | internal/agent/helper/journal.go:770-777 | Of two records with different ids exactly one is newer. |
| Marker.StampManagedArtifact | internal/agent/proxy/marker.go:14-23 | Filters the old marker lines in a loop and puts one marker in front. |
| Marker.StampedIsMarked | internal/agent/proxy/marker.go:14-40 | Every stamped content is recognised as managed. |
| Marker.StampedIsStable | internal/agent/proxy/marker.go:14-23 | Stamping twice is stamping once. |
| Marker.StampedAddsNoPath | internal/agent/proxy/marker.go:14-23 | Stamping makes no one-line path appear in a content that was not there. |
| Marker.StampedMayAddPathAcrossLines | internal/agent/proxy/marker.go:14-23 | For a path that contains a line break it can: an example. |
| ManagedExecute.ConvergedIffExecuteKeeps | internal/agent/helper/actions_managed_apply_converged_linux.go:23-84 | `Converged` reports true exactly if `Execute` from the same state would return no error and no mutation; and then `Execute` leaves the filesystem as it is. |
| ManagedExecute.SameFirstTarget | internal/agent/helper/actions_managed_apply_linux.go:186-254 | If some target is pending or refused, the first one `Converged` meets is the first one at which `Execute` fails or changes something, across all five passes. |
| ManagedExecute.VerdictMeansConverged | internal/agent/helper/actions_managed_apply_converged_linux.go:23-84 | The early-exit check and the unordered condition "every target settled, host valid, artifacts attested" agree. |
| ManagedExecute.FirstStop | internal/agent/helper/actions_managed_apply_converged_linux.go:38-73 | Everything before the reported target is settled and the target itself is not. |
| ManagedExecute.ManagedApply.Converged | internal/agent/helper/actions_managed_apply_converged_linux.go:36-84 | The verdict of the check, with no change of state. |
| ManagedExecute.ManagedApply.Execute | internal/agent/helper/actions_managed_apply_linux.go:181-267 | The five passes in order, with validation and reload between the fourth and the fifth, leave exactly the filesystem, flags and error of the step-by-step specification. |
| ManagedExecute.ManagedApply.RemoveManagedLink | internal/agent/helper/actions_managed_apply_linux.go:1021-1034 | Fails and changes nothing, keeps an absent link, or removes exactly it. |
| ManagedExecute.ManagedApply.RemoveManagedFile | internal/agent/helper/actions_managed_apply_linux.go:1006-1019 | Fails and changes nothing, keeps an absent file, or removes exactly it. |
| ManagedExecute.ManagedApply.InstallManagedFile | internal/agent/helper/actions_managed_apply_linux.go:1186-1248 | Fails and changes nothing, keeps a file that is as wanted, or puts the wanted one, making the auth directory if needed. |
| ManagedExecute.ManagedApply.InstallManagedLink | internal/agent/helper/actions_managed_apply_linux.go:1250-1271 | Fails and changes nothing, keeps the wanted link, or puts it. |
| ManagedExecute.ManagedApply.RemoveLinksPass | internal/agent/helper/actions_managed_apply_linux.go:187-196 | The pass stops at the first failure and reports a mutation exactly if a link was removed. |
| ManagedExecute.ManagedApply.RemoveFilesPass | internal/agent/helper/actions_managed_apply_linux.go:197-206 | The same for deleted files, auth files in a pass of their own. |
| ManagedExecute.ManagedApply.InstallFilesPass | internal/agent/helper/actions_managed_apply_linux.go:207-216 | The same for installed files; preserved ones are not touched. |
| ManagedExecute.ManagedApply.InstallLinksPass | internal/agent/helper/actions_managed_apply_linux.go:217-226 | The same for installed links. |
| ManagedExecute.ManagedApply.MainPasses | internal/agent/helper/actions_managed_apply_linux.go:186-226 | The first four passes are one run that stops at the first failure. |
| ManagedRollback.RollbackUndoesPrefix | internal/agent/helper/actions_managed_apply_linux.go:165-286 | After any prefix of the steps, restoring the snapshot taken before brings every non-preserved target back and leaves the rest alone; it succeeds exactly if the directories of what was there are trusted, which they are if they were before. |
| ManagedRollback.RestoreRewinds | internal/agent/helper/actions_managed_apply_linux.go:1273-1334 | From any state that differs only at the targets, a restore that succeeds yields the old tree. |
| ManagedRollback.RestoreSucceedsIff | internal/agent/helper/actions_managed_apply_linux.go:1273-1334 | A restore succeeds exactly if every target that existed or exists lies in a trusted directory. |
| ManagedRollback.RewoundExact | internal/agent/helper/actions_managed_apply_linux.go:1273-1334 | The old tree comes back bit for bit exactly if no target had a setuid, setgid or sticky bit: a restore drops those. |
| ManagedRollback.RunStaysSafe | internal/agent/helper/actions_managed_apply_linux.go:1339-1384 | Executing steps never makes a trusted directory untrusted, and what it creates lies in trusted ones. |
| ManagedRollback.Capture | internal/agent/helper/actions_managed_apply_linux.go:1109-1135 | Captures what is at every non-preserved target, or nothing if one of them may not be inspected. |
| ManagedRollback.Rollback | internal/agent/helper/actions_managed_apply_linux.go:269-286 | Restores in reverse order and succeeds exactly if every restore, the validation and the reload do. |
| ManagedConfig.LoadSurvivingConfig | internal/agent/helper/managed_prune_safety_linux.go:41-121 | Whatever the order of the directories, the result is the content of every config file that stays (regular ones, and files that links lead to unless the agent owns them) and of the vhosts to be written, and the files too large to scan. |
| ManagedConfig.ScanDir | internal/agent/helper/managed_prune_safety_linux.go:75-99 | Exactly the untouched entries of the directory are scanned, links set aside. |
| ManagedConfig.FollowLinks | internal/agent/helper/managed_prune_safety_linux.go:100-118 | Exactly the files that a link leads to are added. |
| ManagedCompiler.Compile | internal/agent/helper/actions_managed_apply_linux.go:303-544 | The result is a permutation of the staged files, the routes' targets, the deletions and the pruned certificates, sorted; it is refused exactly if a route is refused or two targets have one path. |
| ManagedCompiler.CompileTargets | internal/agent/helper/actions_managed_apply_linux.go:326-440 | The loops over certificates, routes and deletions stop at the first refusal and otherwise yield all targets. |
| ManagedCompiler.CompileAllRoutes | internal/agent/helper/actions_managed_apply_linux.go:333-417 | The loop over the routes, with its early exit. |
| ManagedCompiler.CompileAllDeletions | internal/agent/helper/actions_managed_apply_linux.go:418-440 | The loop over the deletions, with its early exit: vhost, auth files and link of each, unless the vhost is not the agent's. |
| ManagedCompiler.StageCertificates | internal/agent/helper/actions_managed_apply_linux.go:326-332 | Certificate and key of each staged pair, in order. |
| ManagedCompiler.Candidates | internal/agent/helper/actions_managed_apply_linux.go:442-489 | Exactly the certificate files and auth files that no target of this apply accounts for, each once. |
| ManagedCompiler.PruneCertificates | internal/agent/helper/actions_managed_apply_linux.go:441-523 | Adds a deletion for exactly the candidates that no surviving config mentions. |
| ManagedCompiler.HasDuplicates | internal/agent/helper/actions_managed_apply_linux.go:536-542 | Finds a repeated path exactly if there is one. |
| ManagedCompile.DistinctIff | internal/agent/helper/actions_managed_apply_linux.go:529-543 | The paths of the whole list are distinct exactly if the targets' are and none of them is pruned. |
| ManagedShape.CompiledIsWell | internal/agent/helper/actions_managed_apply_linux.go:303-544 | Every compilation is fit to run: targets pairwise distinct, links included, deletions not preserved, modes and directories as their class wants. |
| ManagedShape.LinksAreApart | internal/agent/helper/actions_managed_apply_linux.go:536-542 | Two links of one path are the same link; this follows from the check on files alone. |
| ManagedShape.BaseHasShape | internal/agent/helper/actions_managed_apply_linux.go:326-440 | Where each compiled target comes from, and what it is. |
| ManagedApplied.RunSettles | internal/agent/helper/actions_managed_apply_linux.go:186-254 | After a run without failure over distinct paths, every step would now change nothing. |
| ManagedApplied.RunInspected | internal/agent/helper/actions_managed_apply_linux.go:1137-1184 | Every step of such a run found its path as it is allowed to be. |
| ManagedApplied.ExecutedApplies | internal/agent/helper/actions_managed_apply_linux.go:165-267 | An `Execute` without error has done all its steps, and the result is attested. |
| ManagedApplied.AppliedFile | internal/agent/helper/actions_managed_apply_linux.go:197-226 | What is at a file target afterwards: nothing, the wanted content, or what was there before. |
| ManagedApplied.AppliedLink | internal/agent/helper/actions_managed_apply_linux.go:217-226 | What is at a link target before and after: nothing, or that link. |
| ManagedApplied.AppliedElsewhere | internal/agent/helper/actions_managed_apply_linux.go:165-267 | Paths that are no target keep what they hold. |
| ManagedRecompile.AdoptedAgain | internal/agent/helper/actions_managed_apply_linux.go:350-379 | Recompiling after the apply takes the same content for each route and preserves it or not as before. |
| ManagedRecompile.StaleGone | internal/agent/helper/actions_managed_apply_linux.go:400-413 | The stale auth files are gone and are not named again. |
| ManagedRecompile.SecondBase | internal/agent/helper/actions_managed_apply_linux.go:326-440 | Recompiling names the same targets, except deletions that are done. |
| ManagedFixpoint.FixpointIff | internal/agent/helper/actions_managed_apply_linux.go:303-544 | After a successful apply, recompiling the same intent finds every target settled exactly if no certificate kept by the first apply was mentioned only by a file it pruned. |
| ManagedFixpoint.SecondApplyChangesNothing | internal/agent/helper/actions_managed_apply_linux.go:165-267 | And then the second `Execute` changes nothing, reports no mutation, and `Converged` is true exactly if it returns no error. |
| ManagedFixpoint.SameConfig | internal/agent/helper/managed_prune_safety_linux.go:41-121 | The config that survives the recompilation is the config that survived the first. |
| ManagedFixpoint.PrunesNothingIff | internal/agent/helper/actions_managed_apply_linux.go:441-523 | The recompilation prunes nothing exactly under that condition. |
| ManagedFixpoint.PruneLeavesNoMention | internal/agent/helper/actions_managed_apply_linux.go:441-523 | After the apply a pruned file is gone. A config file of the resulting tree contains its name after a slash exactly if it is a vhost kept in its stamped form and that form contains it, which it never does for a name without a line break. |
| ManagedFixpoint.PrunedIsUnmentioned | internal/agent/helper/managed_prune_safety_linux.go:129-150 | No scanned content mentions a pruned file, nor a pruned certificate under any of the four suffixes of its base. |
| ManagedFixpoint.UnscannedPrunesNothing | internal/agent/helper/managed_prune_safety_linux.go:129-140 | If any surviving config is too large to scan, nothing is pruned. |
| ManagedFixpoint.CompiledCanBeUndone | internal/agent/helper/actions_managed_apply_linux.go:269-286 | Any prefix of a compiled apply can be rolled back: the compilation meets what the rollback theorem asks. |
| ManagedExamples.RetentionMayRestOnPrunedFile | internal/agent/helper/actions_managed_apply_linux.go:441-523 | An example where a second apply prunes: with a stray link into the certificate directory the first apply removes one file, and the second exactly the other one, which it had kept. |
| ManagedExamples.PruneMayLeaveMention | internal/agent/helper/actions_managed_apply_linux.go:441-523 | An example of an apply that prunes a certificate whose name has a line break and keeps a stamped vhost that contains this name. |
| ManagedGuard.Fingerprint | internal/agent/helper/actions_managed_apply_linux.go:812-848 | Passes exactly if the vhosts fit a receipt, every target may be inspected and everything to be kept is there. |
| ManagedGuard.ExecutePlanned | internal/agent/helper/actions_managed_apply_linux.go:165-267 | Without a readable snapshot, a matching plan and a clean inspection nothing is changed; otherwise the targets are executed. |
| ManagedGuard.ConvergedPlanned | internal/agent/helper/actions_managed_apply_converged_linux.go:23-84 | The check fails in the same cases, and otherwise is the check of the targets. |
| ManagedGuard.PlannedConvergedIff | internal/agent/helper/actions_managed_apply_converged_linux.go:23-84 | With these guards too the check is positive exactly if the apply would return no error and no mutation, and a target that may not be inspected stops both before anything is changed. |
| ManagedGuard.NothingRefusedMidway | internal/agent/helper/actions_managed_apply_linux.go:186-254 | If each step alone could be done at the start, all of them can be done in a row. |
| ManagedGuard.FingerprintedGoesThrough | internal/agent/helper/actions_managed_apply_linux.go:165-254 | Behind the inspection, an apply whose directories are trusted or can be made so goes through all its targets. |
| ManagedGuard.CompiledGoesThrough | internal/agent/helper/actions_managed_apply_linux.go:165-254 | This holds of everything compiled from a valid intent. |
| RecoveryState.PathMovesOn | internal/agent/recovery/state.go:14-32 | Along any path of transitions the stage never goes back, a state once left is not met again, and what is being undone stays so. |
| RecoveryState.OutcomesAreFinal | internal/agent/recovery/state.go:14-32 | No transition leaves an outcome; applying is entered at most once; nothing undone succeeds. |
| RecoveryState.RestartOnlyUndoesOrValidates | internal/agent/recovery/state.go:34-45 | Each restart disposition starts with a transition that is valid, and only planned and snapshotted operations have none without being final. |
| RecoverySnapshots.MoveEvolves | internal/agent/recovery/snapshot.go:302-352 | A single call keeps the manifest valid, changes no identity field, only appends steps and follows a transition. |
| RecoverySnapshots.PersistedTracesPath | internal/agent/recovery/snapshot.go:302-377 | Under any sequence of calls and write failures the persisted states trace a path of valid transitions. |
| RecoverySnapshots.NoHistoryLost | internal/agent/recovery/snapshot.go:302-377 | Between any two points of such a history identity and entries stay, the step list only grows by appending and the update time never goes back. |
| RecoverySnapshots.StaleAndRepeatedCalls | internal/agent/recovery/snapshot.go:302-352 | A stale expected state is refused; an exact repeat is a no-op, whenever it comes. |
| RecoverySnapshots.SnapshotStore.Move | internal/agent/recovery/snapshot.go:302-352 | Does what the specification of a move says to this manifest and nothing to any other. |
| RecoverySnapshots.SnapshotStore.Persist | internal/agent/recovery/snapshot.go:662-692 | Writes a valid manifest or leaves the map as it was. |
| RecoverySnapshots.SnapshotStore.PrepareRestart | internal/agent/recovery/snapshot.go:354-377 | Only an operation that died while applying is written to; the answer is its disposition. |
| RecoveryRetention.Prune | internal/agent/recovery/snapshot.go:538-613 | Never removes an active operation; removes only what is too old or, if complete, outnumbered by newer ones; and without errors leaves no old inactive operation and at most the bounded number of finished ones. |
| RecoveryRollback.Capture | internal/agent/recovery/snapshot.go:121-242 | Succeeds exactly for distinct capturable paths and then captures each of them. |
| RecoveryRollback.Files.Rollback | internal/agent/recovery/snapshot.go:389-441 | If anything fails prevalidation, nothing is touched; otherwise the tree is the old one with some of the entries restored, all of them exactly if there was no error. |
| RecoveryRollback.Files.RestoreAll | internal/agent/recovery/snapshot.go:443-489 | Tries every entry in reverse order, also after one has failed; there is no error exactly if all went through. |
| RecoveryRollback.FreshPrevalidates | internal/agent/recovery/snapshot.go:491-536 | A snapshot prevalidates against the tree it was taken from. |
| RecoveryRollback.RestoreBringsBack | internal/agent/recovery/snapshot.go:443-489 | After a full restore every captured path holds its captured kind, bytes, permissions or link target, and every other path what it held. |
| RecoveryRollback.RerunReachesSame | internal/agent/recovery/snapshot.go:389-489 | After any subset of restores a second rollback that is let through reaches the same tree; it gets past prevalidation exactly if the captured links still resolve as captured. |
| RecoveryRollback.RerunsAlwaysIff | internal/agent/recovery/snapshot.go:389-536 | Before the first restore: every subset of restores can be followed by a complete second rollback exactly if each captured link resolves as captured through every mixture of the tree as it is and the tree as it is to become. |
| RecoveryRollback.OneHopRerunsAlways | internal/agent/recovery/snapshot.go:523-536 | It always does if no captured link points at another link. |
| RecoveryRollback.ChainedLinksStrandRollback | internal/agent/recovery/snapshot.go:523-536 | It may not if links are chained: an example. |
| RecoveryProtocol.AlwaysTruthful | internal/agent/recovery/coordinator.go:245-519 | Over every run with crashes at any point, manifest and memory say only what the backend did. |
| RecoveryProtocol.MutatesAtMostOnce | internal/agent/recovery/coordinator.go:434-445 | While an operation's manifest exists the recovery was executed at most once, and never after a restart. |
| RecoveryProtocol.DurableOutcomesAreEarned | internal/agent/recovery/coordinator.go:446-519 | A durable `succeeded` means the mutation, a later validation and a later reload all passed and nothing was restored; a durable `rolled_back` that restore, validation and reload did, in this order. |
| RecoveryProtocol.RollbackFailedStays | internal/agent/recovery/snapshot.go:538-613 | `rollback_failed` is never left and never pruned. |
| RecoveryProtocol.OutcomeStays | internal/agent/recovery/state.go:14-32 | The other outcomes stay until the manifest is pruned. |
| RecoveryProtocol.WritesAreTransitions | internal/agent/recovery/coordinator.go:434-475 | Whenever the coordinator writes, the manifest has the state it expects and the move is valid. |
| RecoveryCoordinator.ManifestsAreEarned | internal/agent/recovery/coordinator.go:245-519 | Of any reachable coordinator: what its manifests say was earned in its own run. |
| RecoveryCoordinator.CarriedIsAccepted | internal/agent/recovery/snapshot.go:302-352 | The store accepts every report that carries on from the stored one. |
| RecoveryCoordinator.Coordinator.constructor | internal/agent/recovery/coordinator.go:53-62 | A new coordinator continues any past run as after a crash. |
| RecoveryCoordinator.Coordinator.Now | internal/agent/recovery/coordinator.go:548-555 | Never goes back, whatever the clock says. |
| RecoveryCoordinator.Coordinator.AddStep | internal/agent/recovery/coordinator.go:586-588 | Appends one step at the current time; the report stays valid. |
| RecoveryCoordinator.Coordinator.TransitionReport | internal/agent/recovery/snapshot.go:298-352 | Succeeds with the manifest holding the report, or leaves the store as it was. |
| RecoveryCoordinator.Coordinator.AutoRepair | internal/agent/recovery/coordinator.go:215-219 | Without an enabled policy, or for an ineligible diagnostic, no manifest is written. |
| RecoveryCoordinator.Coordinator.HandleRequest | internal/agent/recovery/coordinator.go:221-241 | An invalid request changes nothing; a repeated operation id gets the stored report if it is the same request and is refused otherwise, and nothing is run. |
| RecoveryCoordinator.Coordinator.Repair | internal/agent/recovery/coordinator.go:355-475 | From a diagnostic to a final report: a legal run that touches no other operation; a success is one the manifest holds. |
| RecoveryCoordinator.Coordinator.Hindrance | internal/agent/recovery/coordinator.go:393-403 | An ineligible diagnostic and, for an automatic repair, a policy that is off or unknown always stand in the way; only then or for the breaker is a repair declined. |
| RecoveryCoordinator.Coordinator.StartReport | internal/agent/recovery/coordinator.go:363-379 | The report keeps the request's start and first step. |
| RecoveryCoordinator.Coordinator.Capture | internal/agent/recovery/coordinator.go:409-433 | A manifest is created for a new operation, with this report, or nothing is. |
| RecoveryCoordinator.Coordinator.CaptureAndCarryOut | internal/agent/recovery/coordinator.go:409-475 | The same, and then carried out to its end. |
| RecoveryCoordinator.Coordinator.CreateManifest | internal/agent/recovery/snapshot.go:121-188 | Refuses an operation that exists. |
| RecoveryCoordinator.Coordinator.CarryOut | internal/agent/recovery/coordinator.go:434-475 | From a snapshotted manifest to an outcome; without an error the manifest says succeeded. |
| RecoveryCoordinator.Coordinator.ValidateAndActivate | internal/agent/recovery/coordinator.go:454-459 | Goes on to success only through a validation and then a reload that passed, and otherwise gives up from `validating`. |
| RecoveryCoordinator.Coordinator.RollBack | internal/agent/recovery/coordinator.go:477-519 | The report says rolled back or rollback failed; if it could be written, the manifest holds it. |
| RecoveryCoordinator.Coordinator.Undo | internal/agent/recovery/coordinator.go:486-513 | Rolled back exactly if restore, validation and reload all passed. |
| RecoveryCoordinator.Coordinator.Rewind | internal/agent/recovery/coordinator.go:484-497 | The outcome that is then written follows from the three answers. |
| RecoveryCoordinator.Coordinator.GiveUp | internal/agent/recovery/coordinator.go:481-518 | If rolling back could not be recorded, nothing is restored and the outcome is refused by the store. |
| RecoveryCoordinator.Coordinator.Close | internal/agent/recovery/coordinator.go:460-474 | The outcome is remembered exactly if it was written. |
| RecoveryCoordinator.Coordinator.Recover | internal/agent/recovery/coordinator.go:245-353 | Other operations keep their manifests; an operation without disposition is left alone and its report handed back; otherwise, without an error, the manifest holds the report, which says succeeded if the operation died validating and rolled back if it died before or while undoing. |
| RecoveryCoordinator.Coordinator.ResumeValidating | internal/agent/recovery/coordinator.go:284-312 | Without an error the manifest says succeeded, after a validation and reload by this process. |
| RecoveryCoordinator.Coordinator.ResumeByUndoing | internal/agent/recovery/coordinator.go:303-312 | The operation is undone or, if that could not be recorded, left as it was. |
| RecoveryCoordinator.Coordinator.ResumeApplying | internal/agent/recovery/coordinator.go:268-352 | An operation that died while applying is undone and never executed again. |
| RecoveryCoordinator.Coordinator.UndoLoaded | internal/agent/recovery/coordinator.go:316-352 | Without an error the manifest says rolled back. |
| RecoveryCoordinator.Coordinator.MarkRestarted | internal/agent/recovery/snapshot.go:354-377 | The manifest says rolling back before anything is restored. |
| RecoveryBreaker.AtMostThreeFailures | internal/agent/recovery/breaker.go:140-257 | Over every run with times that do not go back, restarts from the file included, each key has at most three failures, ascending and none in the future, in memory and in the file. |
| RecoveryBreaker.OpenForAnHour | internal/agent/recovery/breaker.go:140-209 | From the third failure within the window until an hour later every automatic request is refused, whatever else is asked or recorded and however often the process restarts, unless a success of that key is recorded. |
| RecoveryBreaker.LatchedUntilValidated | internal/agent/recovery/breaker.go:140-209 | After a recorded `rollback_failed` automatic requests are refused at all times, by every later process too, until a success with manual validation is recorded. |
| RecoveryBreaker.RefusedIff | internal/agent/recovery/breaker.go:140-171 | Exactly when an automatic request is refused. |
| RecoveryBreaker.LoadsIff | internal/agent/recovery/breaker.go:97-118 | After any run the loader accepts the file exactly if it has at most 10000 keys and each is closed or has three failures. |
| RecoveryBreaker.OpenKeyMayNotLoad | internal/agent/recovery/breaker.go:113-116 | A run of four failures after which the file is refused. |
| RecoveryBreaker.Breaker.Load | internal/agent/recovery/breaker.go:97-119 | Takes over the file exactly if the loader accepts it, and changes nothing otherwise. |
| RecoveryBreaker.Breaker.Compact | internal/agent/recovery/breaker.go:248-257 | Keeps exactly the failures of the window, in order. |
| RecoveryBreaker.Breaker.AllowRequest | internal/agent/recovery/breaker.go:140-171 | Decision and new map are those of the specification. |
| RecoveryBreaker.Breaker.Record | internal/agent/recovery/breaker.go:173-209 | The new map is that of the specification; a failed write leaves the map as it was. |
| RecoveryBreaker.Breaker.PersistOrRestore | internal/agent/recovery/breaker.go:211-238 | A failed write restores the map before, and the file keeps what it had. |
| ReportOrder.DeliveredIsPrefix | internal/agent/recovery/reporter.go:110-256 | Over every history of non-overlapping calls: if no snapshot naming an operation's diagnostic was admitted between two of its reports, what was delivered for it is a prefix of what was admitted, and the rest is queued in order. |
| ReportOrder.DeliveredInOrderOfCalls | internal/agent/recovery/reporter.go:110-256 | The same from the calls alone, whichever of them are admitted: no such snapshot is enqueued between two of the reports. |
| ReportOrder.QueueWithinAdmitted | internal/agent/recovery/reporter.go:110-256 | At every point of a history the queue is what was admitted with items left out, in the same order. |
| ReportOrder.DeliveredInOrderIff | internal/agent/recovery/reporter.go:163-256 | For one flush: the reports of an operation go out in order, whatever the sender answers, exactly if the queue is not straddled in this way. |
| ReportOrder.InOrderUnlessStraddled | internal/agent/recovery/reporter.go:183-191 | The one direction, for each list of answers. |
| ReportOrder.OvertakenWhenStraddled | internal/agent/recovery/reporter.go:183-191 | The other: if all is accepted, a straddled operation is overtaken by itself. |
| ReportOrder.NoneWhenQuarantined | internal/agent/recovery/reporter.go:186-190 | A flush sends nothing of a quarantined operation. |
| ReportQueue.FlushKeepsOrder | internal/agent/recovery/reporter.go:172-254 | What a flush leaves in the queue is in its original relative order. |
| ReportQueue.QueueAfter | internal/agent/recovery/reporter.go:172-254 | After n turns the queue is the items not yet visited followed by those left. |
| ReportRuns.InvariantHolds | internal/agent/recovery/reporter.go:110-256 | With enqueues, turns, cancellations and answers interleaved at will: keys distinct, snapshot numbers distinct and above the last delivered one, lanes within the limit, and the item in flight is still at the head or was coalesced away. |
| ReportRuns.QueueIsBoundedAndOrdered | internal/agent/recovery/reporter.go:110-256 | Keys are distinct, lanes never exceed the limit, and delivered snapshot numbers strictly increase. |
| ReportRuns.QuarantinedNeverSends | internal/agent/recovery/reporter.go:186-190 | Once quarantined, an operation stays so and nothing more of it is delivered. |
| ReportRuns.TurnIsPickAndSettle | internal/agent/recovery/reporter.go:174-250 | A turn of a flush is a pick and a settlement with nothing in between. |
| BoundedReporter.Reporter.Enqueue | internal/agent/recovery/reporter.go:110-161 | Answer and state are those of the specification; the counters of lanes and diagnostics and the key set again equal what the queue holds. |
| BoundedReporter.Reporter.Coalesce | internal/agent/recovery/reporter.go:124-135 | Removes the snapshots behind the last operation report, and their keys and counts. |
| BoundedReporter.Reporter.PickHead | internal/agent/recovery/reporter.go:174-191 | Takes the head unless it is held back, in which case it goes to the end. |
| BoundedReporter.Reporter.Settle | internal/agent/recovery/reporter.go:213-250 | An answer counts only if the head still has the item's key; a delivery, a retry and a quarantine leave exactly the specified state. |
| BoundedReporter.Reporter.Deliver | internal/agent/recovery/reporter.go:215-236 | The delivered item and its counts are gone, and an emptied terminal lane with them. |
| BoundedReporter.Reporter.Rotate | internal/agent/recovery/reporter.go:247-247 | The item that was taken goes to the end. |
| BoundedReporter.Reporter.TakeTurn | internal/agent/recovery/reporter.go:172-254 | One turn is the specified one for the answer it got. |
| BoundedReporter.Reporter.Flush | internal/agent/recovery/reporter.go:163-256 | Takes one turn for each item that was queued at the start. |
| BoundedReporter.Reporter.AddPendingDiagnostics | internal/agent/recovery/reporter.go:268-272 | The counts rise by the multiplicities in the snapshot. |
| BoundedReporter.Reporter.ReleasePendingDiagnostics | internal/agent/recovery/reporter.go:274-281 | And fall by them, zero counts being removed. |
| ConfigDigest.DecodesBack | internal/agent/helper/actions_proxy_linux.go:399-408 | A decoder recovers every list of entries from the hashed bytes. |
| ConfigDigest.EncodingIsInjective | internal/agent/helper/actions_proxy_linux.go:399-408 | So two lists with the same bytes are the same list. |
| ConfigDigest.EntryReadBack | internal/agent/helper/actions_proxy_linux.go:400-407 | One entry is read back from in front of anything. |
| ConfigDigest.FieldReadBack | internal/agent/helper/actions_proxy_linux.go:401-404 | So is one length-prefixed field. |
| ConfigDigest.ModeReadBack | internal/agent/helper/actions_proxy_linux.go:401-401 | The text of a mode determines it. |
| ConfigDigest.NumberOfDecimal | internal/agent/helper/actions_proxy_linux.go:401-402 | The decimal text of a size determines it. |
| ConfigDigest.PlainConcatenationIsAmbiguous | internal/agent/helper/actions_proxy_linux.go:401-404 | Without the length prefixes two entries would collide: an example. |
| ConfigDigest.HashInput | internal/agent/helper/actions_proxy_linux.go:399-408 | The nested loops write exactly the encoding. |

## Left out

Deliberately weaker or simpler members:

- HelperEngine.Engine.Execute: host actions and managed applies share one method, with a flag for what differs; signatures and the identity of agent and helper are one bit of the request; a digest is the request itself. The two processes' calls do not interleave within a method; the runs of `HelperTheorems` do.
- HelperEngine.Engine.PlanManagedApply: which of several compatible stored plans is reused is arbitrary.
- HelperEngine.Engine.ConvergedReceipt: whether the host is converged is an arbitrary answer here; what makes it so is in `ManagedGuard`. The validation of the receipt is left out.
- HelperJournal.Journal.Recover: for passes that return only. Recovery writes an indeterminate record before the breaker and does not look at it again, so a crash between the two leaves such a record without a breaker file.
- HelperJournal.Journal.Reopen: a crash can undo unsynced claim deletions; deletions of snapshots and records count as durable at once.
- HelperJournal.Journal.OpenBreaker: for the two callers there are, recovery and a failed rollback.
- HelperJournal.Journal.Transition: asks that an accepted move be the engine's next one, so that it is a step of the run; refusals are for any move.
- ManagedGuard.ExecutePlanned: whether compilation and fingerprint equal the plan's is an input; the digests and the path checks of `validateManagedCompilationTargets` are left out.
- ManagedCompiler.Compile: the staged pairs are given, with the order of the result's equal elements left open; loading them from the staging directory is not modelled.
- ManagedRollback.RollbackUndoesPrefix: an auth directory that `Execute` made stays, as in the program.
- RecoverySnapshots.SnapshotStore.Move: the captured entries are a fixed part of the manifest; text limits and sanitising are one predicate on texts.
- RecoveryRollback.Files.Rollback: of inode identities only the parent directory's is kept, and file owners are not modelled.
- RecoveryCoordinator.Coordinator.Repair: the answers of path guard, breaker and reporter are arbitrary, and the retention pass at the end is not called; the steps an automatic repair drops from a declined report are chosen as in the program, message texts are not.
- RecoveryCoordinator.Coordinator.Recover: an operation that died in `snapshotted` has no disposition, so no claim is made that every active operation ends.
- RecoveryBreaker.Breaker.Record: validity checks of keys and times and the closed breaker are left out.
- BoundedReporter.Reporter.Flush: retries, backoff and the HTTP status are folded into one answer per item; the early return on an empty queue cannot happen without overlap. No bound on the queue's length and no order under overlapping calls is claimed.
- BoundedReporter.Reporter.Enqueue: the three forms of report the coordinator emits, with structured keys.
- ConfigDigest.HashInput: the sorted entries are given; walking the tree, the trust checks and the size limits are left out. Texts are sequences of characters that stand for bytes.

Not modelled at all:

- Signatures, canonical JSON, sockets, HTTP, systemd, package and firewall actions.
- Corrupt or unreadable records, directory errors, failing directory syncs, temporary files, races with other writers.
- The messages, notes and leftover lists of receipts, and how plan digests and fingerprints are computed.
- Rendering of nginx and apache configuration and the policy on raw configuration: functions about which nothing is assumed.
- Link directories: only the last component of a path can be a link.
- Diagnosis (`Inspect`, `Observe`), dashboards, command line, DNS, installation, detection and logs.
- Host actions of one branch each: they would only add easy members.
