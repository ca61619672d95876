# The coordinator around a game emulator, modelled in Dafny

The repository runs one real game (the root) and many speculative copies (Branches) on a closed
emulator spread over worker processes. This project models the bookkeeping that makes that sound and
proves the promises that span its parts.

| file | what it models |
|---|---|
| `LeaseAccess.dfy` | the generation-stamped lease on the one game (`game_access.py`) |
| `Handoff.dfy` | RUN/COMBAT hand-off of an instance with failures at every foreign call |
| `TextIds.dfy`, `Identifiers.dfy` | textual ids and the per-instance registries with their O(delta) undo |
| `EventRng.dfy`, `EventBatch.dfy` | reference-counted RNG hypotheses, Event batches and their rollback |
| `EventDispatch.dfy` | a published Event batch at the worker pool, and its results back at the Branches |
| `PhaseRecords.dfy` | the combat phase's records: internal ids, cascading cancels, releases, hypotheses |
| `CombatBranches.dfy` | capacity, bookkeeping and phase records over whole runs of combat operations |
| `CombatContracts.dfy` | what each of these operations does, said of the dictionaries alone |
| `CombatCoordinator.dfy`, `StandaloneCombat.dfy` | the same operations step by step, and the two ways of unwinding a batch |
| `LegalActions.dfy` | semantic keys that re-find an action under new opaque ids |
| `Emulator.dfy`, `BranchReplay.dfy`, `RootAnchor.dfy` | an abstract deterministic emulator, Branches rebuilt by replay, the root's record |
| `Server.dfy` | sequence-numbered sessions, verbatim retries, instance ownership |
| `WorkerPool.dfy`, `WorkerRuntime.dfy` | routing, leases, the dispatch loop, respawn, and what one process does |
| `PileMask.dfy` | order-erasing pile masking |
| `FloorHistory.dfy` | replaying a recorded run into a deck |
| `Wrappers.dfy` | Option, Result, and one fact about set sizes |

Objects the code updates in place are classes whose methods are proved against functions or relations
over plain values (`Abs()` gives an object's value); the theorems over whole runs are lemmas about those.
What such a function does is stated once more without it, over dictionaries, decks, results or the machine
alone (`SteppedIff`, `CommitTakesItsAction`, `PlanIs`, `BatchIsRefusedIff`, `HoldsAfterIff`, `HandlerAnswers`, ...).
A call into foreign code (emulator, combat phase, worker process, handler) may raise wherever the source
lets it: its outcome is an argument (`Fault`, `EnterPoint`, `Script`, `Answer`, `Arrival`, `Fate`, `Finish`), and
the statements are for all of them. Holders are identity tokens, digests are identity of what they digest.

What does not hold is stated as well, with the exact condition: `ClaimKeepsShapeIff`,
`SingletonCommitRestoresIff`, `ReservedAreUnreleasedIff`, `PhaseAgreesIff`, `IdsAreOwnIff`,
`PoisonedKeepsReservationsIff`, `FailedBatchIsUndoneIff`, `FailedBatchCanBeResentIff`, `LeakIsBookkeptIff`,
`RetireAfterFoldRaisesIff`, `UnrecordedCommitAnchorsIff`, `PinnedStepLeavesItsHolderIff`, `KeepsContextIff`, `ExploreKeepsContextIff`,
`MaskingHidesOrderIff`, and the concrete runs `LateRaiseThenQuery`, `SharedIdThenQuery`,
`CancelledBranchOutlivesCombat`, `CombatBreaksTheRecord`, `UnrecordedMapIsMissed`,
`OverriddenContextIsTrusted`, `BlankEnchantmentShowsOrder`, `MixedTypesShowOrder`, `LostTinkerStateStaysExact`.
Three of these contradict the code's own comments: a combat batch is documented to unwind its reservation
after any error (`API/instance_whole_run.py:1375-1376`), a reservation to belong to a phase record until its
release (`API/instance_whole_run.py:309-311`), and masking to discard order only (`API/masking.py:92`). The
model follows the code.

## Model

| member | source | states |
|---|---|---|
| `LeaseAccess.GameAccess.Claim` | game_access.py:68-81 | refused while transferring or poisoned; otherwise supersedes any holder under the next generation |
| `LeaseAccess.GameAccess.Release` | game_access.py:83-87 | only the current lease gives the access up, and that makes it stale |
| `LeaseAccess.GameAccess.MutatingGame` | game_access.py:89-92 | succeeds exactly for the current lease |
| `LeaseAccess.GameAccess.Begin` | game_access.py:94-100 | turns the current lease into a transfer lease and remembers where it came from |
| `LeaseAccess.GameAccess.Commit` | game_access.py:102-111 | only the current transfer lease, only to RUN or COMBAT; the two refusals are told apart |
| `LeaseAccess.GameAccess.Rollback` | game_access.py:113-120 | gives state and holder of the origin back under a new lease |
| `LeaseAccess.GameAccess.Poison` | game_access.py:122-127 | always accepted; nobody holds the access afterwards |
| `LeaseAccess.GameAccess.ValidateCurrent` | game_access.py:129-142 | generation, holder and state all agree and the access is neither transferring nor poisoned |
| `LeaseAccess.GameAccess.ValidateTransfer` | game_access.py:144-154 | the transfer in progress, by its own generation and origin holder |
| `LeaseAccess.RunKeepsInvariant` | game_access.py:68-154 | over any run of calls: issued generations strictly increase and only the last issued lease can be alive |
| `LeaseAccess.GenerationCountsAcceptedCalls` | game_access.py:68-127 | the generation counts accepted calls; a run with none accepted changed nothing |
| `LeaseAccess.AtMostOneLeaseMutates` | game_access.py:89-92 | of all leases ever issued at most one can mutate, and it is the latest |
| `LeaseAccess.StaleStaysStale` | game_access.py:129-142 | a lease that cannot mutate now never can again, also after a rollback |
| `LeaseAccess.PoisonIsAbsorbing` | game_access.py:122-127 | after poison no call issues a lease and no lease mutates |
| `LeaseAccess.TransferIsExclusive` | game_access.py:94-127 | during a transfer nobody mutates and the only accepted calls are poison, and commit or rollback with the newest lease |
| `LeaseAccess.RollbackRestoresExactly` | game_access.py:94-120 | begin then rollback is the identity up to two generations, under a fresh lease; the old one stays dead |
| `LeaseAccess.ClaimKeepsShapeIff` | game_access.py:68-81 | claim does not check its state argument: the access stays well shaped exactly for RUN and COMBAT |
| `LeaseAccess.ClaimingTransferringWedges` | game_access.py:68-81 | claiming TRANSFERRING leaves an access that accepts nothing but poison, for ever |
| `Handoff.WholeRunSession.MutatingGame` | Run/whole_run_session.py:69-72 | claims RUN on first use, afterwards insists on its own lease |
| `Handoff.WholeRunSession.BeginLeaseTransfer` | Run/whole_run_session.py:79-85 | claims on first use, then withdraws the lease exactly when the transfer begins |
| `Handoff.WholeRunSession.RollbackLeaseTransfer` | Run/whole_run_session.py:93-98 | installs the returned lease only if it is this session's RUN lease |
| `Handoff.WholeRunSession.AcceptTransferredLease` | Run/whole_run_session.py:100-105 | installs only a current RUN lease of its own holder, never claims |
| `Handoff.WholeRunSession.PoisonMutations` | Run/whole_run_session.py:107-110 | drops the lease and poisons the access |
| `Handoff.WholeRunSession.Close` | Run/whole_run_session.py:112-122 | releases its lease if still current; a newer holder is left alone |
| `Handoff.LiveCombatSession.AcceptTransferredLease` | Combat/live_combat_session.py:493-504 | installs only a current COMBAT lease of its own holder |
| `Handoff.LiveCombatSession.BeginLeaseTransfer` | Combat/live_combat_session.py:506-513 | refuses without a lease; otherwise withdraws it into a transfer |
| `Handoff.LiveCombatSession.Step` | Combat/live_combat_session.py:815-918 | a faulted session refuses every step and a faulting action shuts it for good |
| `Handoff.LiveCombatSession.Close` | Combat/live_combat_session.py:556-567 | releases its lease if still current |
| `Handoff.CombatPhase.CommitRootAction` | API/combat_phase.py:205-245 | the point of no return is marked exactly when the live step went through, whether or not recording it succeeds |
| `Handoff.WholeRunInstance.constructor` | API/instance_whole_run.py:259-320 | a fresh instance holds RUN and satisfies the hand-off invariant |
| `Handoff.WholeRunInstance.EnterCombatPhase` | API/instance_whole_run.py:417-458 | for every set of failing calls: refused, rolled back to RUN, poisoned, or COMBAT held by the new phase |
| `Handoff.WholeRunInstance.LeaveCombatPhase` | API/instance_whole_run.py:460-495 | for every set of failing calls: back in RUN, or poisoned with no phase |
| `Handoff.WholeRunInstance.PoisonCombatTransaction` | API/instance_whole_run.py:497-518 | terminal: faulted, no phase, access poisoned, both leases gone |
| `Handoff.WholeRunInstance.CommitCombatAction` | API/instance_whole_run.py:661-697 | before the live step a failure changes nothing; after it any failure poisons |
| `Handoff.WholeRunInstance.CloseInstance` | API/instance_whole_run.py:875-899 | releases whichever session holds the access, once |
| `Handoff.OpKeepsHandoff` | API/instance_whole_run.py:417-518 | one operation with failures anywhere keeps the invariant; a faulted instance never touches the access again |
| `Handoff.HandoffHoldsOnEveryRun` | API/instance_whole_run.py:417-734 | between operations never TRANSFERRING; active phase means its session holds COMBAT; faulted means POISONED without a phase; otherwise the run holds RUN |
| `Handoff.HandoffIsALegalLeaseRun` | API/instance_whole_run.py:417-518 | every operation is a legal run of lease calls, all accepted, so the lease theorems apply to instances |
| `Handoff.FaultsIff` | API/instance_whole_run.py:417-518 | which failures end the run: any once the board changed hands or a step went through, and none before |
| `Handoff.PhaseStandsIff` | API/instance_whole_run.py:417-734 | after any operation a combat phase is there exactly if one was entered without a failure, or was there and the fight goes on |
| `Handoff.CompletedCommitDecides` | API/instance_whole_run.py:613-649 | a commit that completes publishes the next numbered root decision; one that fails without ending the run leaves the published one |
| `Handoff.FaultedActionShutsTheSession` | Combat/live_combat_session.py:815-918 | after a faulting action no later commit in that fight does anything |
| `TextIds.WorkIdsAreDistinct` | API/instance_whole_run.py:1044-1045 | `branch_id-rng_id` is injective, dashes in the branch id included |
| `TextIds.DecisionIdsAreDistinct` | API/identifiers.py:110-113 | a decision id names one branch and one counter value |
| `TextIds.InstanceIdsAreDistinct` | API/server.py:236 | different serials give different instance ids, also beyond six digits |
| `Identifiers.BranchIdRegistry.Register` | API/identifiers.py:83-88 | accepted exactly for an id never used before |
| `Identifiers.BranchIdRegistry.RollbackRegistration` | API/identifiers.py:90-99 | gives an unpublished id back; the root id is never given up |
| `Identifiers.DecisionPointRegistry.Issue` | API/identifiers.py:110-113 | a fresh id becomes the branch's current one |
| `Identifiers.DecisionPointRegistry.Clear` | API/identifiers.py:130-131 | exactly that branch loses its decision |
| `Identifiers.DecisionPointRegistry.RestoreCurrent` | API/identifiers.py:133-138 | puts a captured current id, or its absence, back |
| `Identifiers.RngHypothesisTable.HypothesisIndexFor` | API/identifiers.py:150-167 | allocates the next index of its decision once per key and keeps the table consistent |
| `Identifiers.RngHypothesisTable.Snapshot` | API/identifiers.py:169-176 | the marker is the number of allocations |
| `Identifiers.RngHypothesisTable.Restore` | API/identifiers.py:178-204 | pops exactly the allocations made since the marker; a marker out of range changes nothing |
| `Identifiers.RestoreIsInverse` | API/identifiers.py:150-204 | allocate anything, restore: both dictionaries are exactly as at the marker, also through nested markers |
| `Identifiers.AllocateThenRestore` | API/identifiers.py:150-204 | the same on the mutable table |
| `Identifiers.IndicesAreDense` | API/identifiers.py:150-167 | under each decision the indices are exactly 0..n-1, one per rng id, with n the counter |
| `Identifiers.IndexIsCount` | API/identifiers.py:150-167 | a new key's index is the number of keys of its own parent and decision allocated before it |
| `EventRng.EventRngHypothesisRegistry.CommitBranch` | API/whole_run_event_rng.py:110-113 | a first holder starts a life with the next generation, later ones join only with the same state |
| `EventRng.EventRngHypothesisRegistry.EnsureEntry` | API/whole_run_event_rng.py:98-108 | one override per live key; a differing state is refused and changes nothing |
| `EventRng.EventRngHypothesisRegistry.ReleaseBranch` | API/whole_run_event_rng.py:148-157 | the last holder ends the life; generations stay |
| `EventRng.EventRngHypothesisRegistry.ReleaseAll` | API/whole_run_event_rng.py:166-168 | ends every life |
| `EventRng.EventRngHypothesisRegistry.SnapshotGenerations` | API/whole_run_event_rng.py:115-123 | captures exactly the named keys' counters |
| `EventRng.EventRngHypothesisRegistry.RestoreGenerations` | API/whole_run_event_rng.py:125-136 | puts captured counters back, zero as absence |
| `EventRng.ReleaseUndoesCommit` | API/whole_run_event_rng.py:110-157 | a release undoes a commit up to the generation taken |
| `EventRng.ReversedReleaseUndoes` | API/instance_whole_run_beam.py:341-343 | releasing a batch in reverse undoes its commits up to generations, shared keys included |
| `EventRng.FailedBatchIsInvisible` | API/instance_whole_run_beam.py:325-347 | reversed release plus generation restore returns all three dictionaries exactly |
| `EventRng.StepIsALifeStep` | API/whole_run_event_rng.py:91-168 | each operation does to a key exactly what the reference notion of lives says |
| `EventRng.RunsFollowLives` | API/whole_run_event_rng.py:91-168 | over whole runs, rolled-back batches included |
| `EventRng.LiveIffHeld` | API/whole_run_event_rng.py:98-157 | live exactly while some Branch holds it, and the generation is the number of surviving lives |
| `EventBatch.EventCoordinator.PrepareEventBranch` | API/instance_whole_run.py:1009-1065 | pure: a root Branch derives or reuses the key's state, a child inherits its parent's plan unchanged |
| `EventBatch.PlanIs` | API/instance_whole_run.py:1009-1037 | over the registry's dictionaries: a root plan has the key of its own rng id, the prefix length, and the draw of that id or the live state; a child has its parent's plan; and when there is none |
| `EventBatch.PublishedCarryTheirDraws` | API/instance_whole_run.py:1022-1037 | so every Branch of a published batch carries the draw of its own rng id, or its parent's plan |
| `EventBatch.CommitsIff` | API/instance_whole_run.py:1067-1099 | a commit goes through exactly if nothing raises, the id is new, and a live hypothesis has the same state |
| `EventBatch.EventCoordinator.CommitPreparedBranch` | API/instance_whole_run.py:1067-1099 | publishes one Branch, or undoes its partial commit but not the generation |
| `EventBatch.EventCoordinator.RollbackPreparedBranch` | API/instance_whole_run.py:1101-1115 | takes one published Branch back |
| `EventBatch.EventCoordinator.CommitInOrder` | API/instance_whole_run_beam.py:335-339 | commits until the first that raises and says which |
| `EventBatch.EventCoordinator.RollbackInReverse` | API/instance_whole_run_beam.py:340-343 | everything but generation counters is back as it was |
| `EventBatch.EventCoordinator.CommitBatch` | API/instance_whole_run_beam.py:325-347 | every Branch published, or the whole coordinator exactly as before, for every placement of failures |
| `EventBatch.EventCoordinator.RetireBranch` | API/instance_whole_run.py:809-850 | cancel or release of one Branch drops its reference once |
| `EventBatch.EventCoordinator.ReleaseAllBranches` | API/instance_whole_run.py:1218-1238 | a root commit tombstones every Branch and ends every hypothesis |
| `EventBatch.RetireIs` | API/instance_whole_run.py:809-850 | over the dictionaries: a released Branch stays, a cancelled one can only be released, otherwise it takes the status and drops its plan; nothing else moves |
| `EventBatch.RetireReleases` | API/whole_run_event_rng.py:148-157 | its hypothesis loses exactly that Branch, and dies with its last one |
| `EventBatch.RetireAllIs` | API/instance_whole_run.py:1218-1238 | over the dictionaries: tombstones everywhere, cancelled ones staying cancelled, no hypothesis left, generations kept |
| `EventBatch.EventCoordinator.RestoreCounters` | API/instance_whole_run_beam.py:344-346 | the captured generations make the rolled-back coordinator equal to the one before |
| `EventBatch.SingletonCommitRestoresIff` | API/instance_whole_run.py:774-775 | the singleton path captures no generations: a failed commit restores everything unless it had just started a life, then one generation is lost |
| `EventBatch.PublishKeepsCoherent` | API/instance_whole_run.py:1067-1099 | publishing keeps registry references and bookkept holders equal |
| `EventBatch.PreparedBatchCommits` | API/instance_whole_run_beam.py:320-339 | a batch prepared together never meets a mismatched hypothesis, even when items share keys |
| `EventBatch.EveryRunIsCoherent` | API/instance_whole_run.py:809-1240 | over every run of batches, singleton commits that may fail, retirements and root commits, references are exactly the usable Branches |
| `EventBatch.LiveIffSomeBranchCarriesIt` | API/instance_whole_run.py:1067-1240 | a hypothesis is live exactly when a usable Branch carries it, with the same override |
| `EventDispatch.EachBranchIsAnswered` | API/instance_whole_run_beam.py:367-371 | work ids, request ids and routing together: whatever else arrives, a dispatched Event batch routes, and each Branch gets the first answer to its own request or the time-out of the worker it went to |
| `EventDispatch.BeamInstance.FinalizeEventBranch` | API/instance_whole_run.py:1117-1190 | a fault or a raise before the decision leaves a faulted Branch without its reference; a success opens its next decision |
| `EventDispatch.BeamInstance.FinalizeAll` | API/instance_whole_run_beam.py:393-400 | every Branch is told its own answer and its own decision id, or the first result that raises ends it |
| `EventDispatch.BeamInstance.RetirePrepared` | API/instance_whole_run_beam.py:372-383 | all Branches of the batch become tombstones and give their references up, no other Branch changes |
| `EventDispatch.BeamInstance.AskPool` | API/instance_whole_run_beam.py:367-371 | one answer per Branch, its own, in order |
| `EventDispatch.BeamInstance.GiveUp` | API/instance_whole_run_beam.py:402-412 | all Branches of the batch are released, wherever finalizing stopped; other Branches and decisions stand |
| `EventDispatch.BeamInstance.DispatchPreparedBatch` | API/instance_whole_run_beam.py:362-400 | published, faulted as a whole, or given up as a whole, for every script of arrivals and every raise |
| `EventDispatch.BeamInstance.EmulateEvents` | API/instance_whole_run_beam.py:325-400 | a failing commit leaves no trace; otherwise each Branch comes to what the answer to its own request says |
| `EventDispatch.SurvivesIffAnswered` | API/instance_whole_run.py:1117-1216 | a hypothesis is live after the batch exactly if it was live before or some Branch sharing it got a success as its own answer |
| `EventDispatch.RepliesAreOwn` | API/instance_whole_run.py:1117-1190 | what the client is told of a Branch is its own answer, under the decision that is then current for it |
| `EventDispatch.GivenUpAreReleased` | API/instance_whole_run_beam.py:402-412 | a batch that is given up leaves each of its Branches released without a plan, wherever it had got to |
| `PhaseRecords.CombatPhase.BuildWorkItems` | API/instance_whole_run.py:1384-1394 | hypotheses are allocated in item order, exactly up to the call that raises, its own included if it had got that far |
| `PhaseRecords.CombatPhase.SubmitMany` | Combat/search/branch_manager.py:131-164 | queued records under the next serials, each below its parent's |
| `PhaseRecords.SubmittedAre` | Combat/search/branch_manager.py:131-164 | each new record hangs below its own parent and all above that; older records stand |
| `PhaseRecords.CombatPhase.ActiveBranchCount` | Combat/search/branch_manager.py:123-124 | how many records are queued or running |
| `PhaseRecords.CombatPhase.Cancel` | Combat/search/branch_manager.py:449-490 | one record and everything below it, released ones left alone; an unknown id raises |
| `PhaseRecords.CombatPhase.CancelNew` | Combat/search/branch_manager.py:449-490 | cancelling the records of one batch touches no older record, whatever hangs below what |
| `PhaseRecords.CombatPhase.Release` | Combat/search/branch_manager.py:492-515 | the named records and no others; an unknown id raises, and what was released before stays released |
| `CombatCoordinator.WholeRunInstance.Admit` | API/instance_whole_run.py:1333-1378 | a batch is admitted exactly if every item is, capacity included, and refusing touches nothing |
| `CombatCoordinator.WholeRunInstance.AdmitItem` | API/instance_whole_run.py:1348-1373 | fresh id, extendable parent from before the batch, its rng id, its current decision, an offered action |
| `CombatContracts.BatchIsRefusedIff` | API/instance_whole_run.py:1333-1378 | over the dictionaries: any objection (used or repeated id, parent unknown, in the batch, gone or not branchable, other rng id, decision not the parent's current one, action not offered, no phase, over capacity) and nothing changes; without one the batch is published or undone |
| `CombatContracts.StaleBatchChangesNothing` | API/instance_whole_run.py:1370-1371 | one item whose decision is not its parent's current one, and the whole state is as it was |
| `CombatContracts.SucceedsIff` | API/instance_whole_run.py:1383-1464 | a batch succeeds exactly if every item is built, submitted, polled, and answered with something that can be shown |
| `CombatContracts.PublishedShows` | API/instance_whole_run.py:1407-1464 | a published Branch shows its own result, under its own rng id and the internal id of its position |
| `CombatContracts.PublishedDecides` | API/instance_whole_run.py:1441-1447 | it gets the next free decision number, unless it failed |
| `CombatContracts.PublishedBesideOthers` | API/instance_whole_run.py:1383-1464 | ids, books and reservations grow by exactly the batch; older Branches and their decisions stand |
| `CombatContracts.PublishedHasItsHypothesis` | API/instance_whole_run.py:1384-1394 | its hypothesis is on file under its own parent, decision and rng id |
| `CombatContracts.PublishedHangsBelow` | Combat/search/branch_manager.py:131-164 | its record is finished as its own result says and hangs below its own parent's |
| `CombatContracts.FailedBatchLeaves` | API/instance_whole_run.py:1466-1478 | what a batch that failed after admission leaves, whether or not its clean-up raised |
| `CombatCoordinator.WholeRunInstance.SubmitAndRegister` | API/instance_whole_run.py:1383-1402 | as many Branches are registered as internal ids came back; a wrong count raises |
| `CombatCoordinator.WholeRunInstance.FinalizeBranch` | API/instance_whole_run.py:1407-1464 | one result faults the Branch, or opens its decision and shows its view, or raises part-way |
| `CombatCoordinator.WholeRunInstance.FinalizeBranches` | API/instance_whole_run.py:1405-1464 | results in order until one cannot be published, with decision numbers following |
| `CombatCoordinator.WholeRunInstance.Unwind` | API/instance_whole_run.py:1466-1478 | restores ids, books, decisions, hypotheses and reservations, unless cancel or release raised first; and which records are released then |
| `CombatCoordinator.WholeRunInstance.EmulateCombatPhaseActions` | API/instance_whole_run.py:1331-1478 | refused, published whole, rolled back, or (clean-up raised) left half-way, for every script of foreign outcomes |
| `CombatCoordinator.WholeRunInstance.SweepBranches` | API/instance_whole_run.py:809-873 | cancel, release and status requests: ids in order, first refused id ends it; a faulted instance refuses all but status |
| `CombatCoordinator.WholeRunInstance.SweepBranch` | API/instance_whole_run.py:813-872 | what one id of such a request does here and at the phase; only a release that returns gives the reservation up; a call that raises may have taken effect |
| `CombatContracts.ReachIs` | API/instance_whole_run.py:809-872 | a request stops exactly at the root, an unknown id, or a Branch whose phase call is due and raises or finds no record |
| `CombatContracts.RequestDoes` | API/instance_whole_run.py:809-872 | what a whole request does to each Branch: its status, its view, its reservation and its room, by whether the request reached it |
| `CombatContracts.RecordsAfter` | Combat/search/branch_manager.py:449-515 | at the phase a cancel reaches the record and all below it, a release only the record; released ones stay |
| `CombatContracts.RootCommitDoes` | API/instance_whole_run.py:613-649 | outside combat a root commit retires every Branch and opens the next decision, up to the call that raises |
| `CombatContracts.CombatCommitDoes` | API/instance_whole_run.py:663-697 | a commit in combat that advanced the board ends with every Branch retired and the next decision out, or with the run over, the Branches retired exactly if one of the two attempts went through; one that did not advance changes nothing |
| `CombatContracts.CommitReleasesAtThePhase` | API/instance_whole_run.py:1224-1231 | a commit after which the fight goes on releases at the phase exactly the records a Branch still held |
| `CombatContracts.EntryDoes` | API/instance_whole_run.py:417-458 | entering combat gives the board back with at most a number spent, poisons, or ends in an empty phase with the decision out |
| `CombatCoordinator.WholeRunInstance.RetireAllBranches` | API/instance_whole_run.py:1218-1238 | everything tombstoned and unreserved, cancelled records staying cancelled; raises without a phase or at an id the phase does not know, with what it had released by then |
| `CombatCoordinator.WholeRunInstance.PoisonCombatTransaction` | API/instance_whole_run.py:497-518 | faulted, the phase dropped, and one more attempt to give everything back whose failure is ignored |
| `CombatCoordinator.WholeRunInstance.LeaveCombatPhase` | API/instance_whole_run.py:460-495 | the phase is dropped after every Branch was retired, or the run is poisoned |
| `CombatCoordinator.WholeRunInstance.CommitInsideCombat` | API/instance_whole_run.py:663-697 | a commit in combat, whichever of its calls raises: unchanged, recorded, folded, or poisoned |
| `CombatCoordinator.WholeRunInstance.CommitIntoCombat` | API/instance_whole_run.py:417-458 | the board is given back, poisoned, or adopted and the commit recorded; a raising recording leaves the fight entered |
| `CombatCoordinator.WholeRunInstance.RecordRootCommit` | API/instance_whole_run.py:613-649 | Branches retired and the next decision published, up to the call that raises |
| `CombatCoordinator.WholeRunInstance.CommitOutsideCombat` | API/instance_whole_run.py:699-734 | outside combat a commit whose step went through is recorded, up to the call that raises |
| `CombatBranches.CapacityHoldsOnEveryRun` | API/instance_whole_run.py:1269-1278 | in every state of every run reservations fit max_branches, whatever raised on the way |
| `CombatBranches.WellFormedOnEveryRun` | API/instance_whole_run.py:1218-1478 | in every state of every run bookkept and deciding ids are registered, a faulted instance has no phase, serials are never ahead of the phase's counter |
| `CombatBranches.ReservedAreUnreleasedIff` | API/instance_whole_run.py:852-873 | along any run each reserved id stays a bookkept unreleased combat Branch exactly unless a status request reaches a reserved Branch whose record is released, or an unclean batch had got too few ids |
| `CombatBranches.PhaseAgreesIff` | API/instance_whole_run.py:830-850 | along any run each reserved id is unreleased here and at the phase exactly unless a release gives a record up without getting through to its Branch, or a raising clean-up had given ids back; until then every reserved id is bookkept and unreleased |
| `CombatBranches.IdsAreOwnIff` | Combat/search/branch_manager.py:119-121 | internal ids restart with every phase: along any run whatever is owed to the phase is on its records, each Branch under an id of its own, exactly unless some fight is entered while an earlier one is still owed something |
| `CombatBranches.OnlyLateRaisesDiverge` | API/instance_whole_run.py:837-842 | without shared ids a release request goes wrong exactly if its phase call for a reserved id took effect and then raised |
| `CombatBranches.LateRaiseThenQuery` | API/instance_whole_run.py:837-871 | concrete: a release raises after taking effect, a status request records it, and the Branch is released while reserved |
| `CombatBranches.SharedIdThenQuery` | API/instance_whole_run.py:830-873 | concrete, with every call returning: a cancelled Branch outlives its fight, the next fight reuses its internal id, releasing the old one frees the new one's record, a status request calls the new one released while reserved |
| `CombatBranches.PoisonedKeepsReservationsIff` | API/instance_whole_run.py:497-506 | poisoning during a fight leaves reservations exactly if its own attempt to release them raised too |
| `CombatBranches.FailedBatchIsUndoneIff` | API/instance_whole_run.py:1466-1478 | a failed batch restores everything but the decision counter and the phase's tombstones, and can be resent under the same ids, exactly if no clean-up call raised on ids handed out |
| `CombatBranches.LeakIsBookkeptIff` | API/instance_whole_run.py:1466-1478 | after a raising clean-up every reservation is still bookkept exactly if enough internal ids had come back |
| `CombatBranches.StrandedCapacityIsLost` | API/instance_whole_run.py:1232-1237 | a reservation without a book survives every later operation until its id is named again |
| `CombatBranches.RetireAfterFoldRaisesIff` | API/instance_whole_run.py:1224-1237 | after the fold, retiring everything raises exactly if a combat Branch was cancelled before |
| `CombatBranches.WedgedUntilNextCombat` | API/instance_whole_run.py:1228-1231 | from then on every root commit's retirement raises until another combat is entered |
| `CombatBranches.UnknownIdPoisons` | API/instance_whole_run.py:685-692 | in a fight whose phase does not know an owed id, every commit that advances the board poisons the run |
| `CombatBranches.LeftoverPoisonsNextFight` | API/instance_whole_run.py:729-734 | a leftover lets the next fight be entered unrecorded, and a commit there before any Branch is opened poisons the run |
| `CombatBranches.CancelledBranchOutlivesCombat` | API/instance_whole_run.py:1224-1237 | a concrete run: cancel one Branch, finish the fight, and the next retirement raises |
| `StandaloneCombat.CombatInstance.Admit` | API/instance_combat.py:316-334 | a batch is admitted exactly if open, non-empty, without duplicates, every item fits the state before it, and it fits beside the queued and running Branches |
| `StandaloneCombat.CombatInstance.AdmitItem` | API/instance_combat.py:290-312 | fresh id; a parent that is known, alive at the phase and branchable, with its rng id; its current decision; an offered action |
| `StandaloneCombat.BatchIsTurnedAwayIff` | API/instance_combat.py:290-334 | over the dictionaries: one objection and nothing changes; without one the batch is entered or undone |
| `StandaloneCombat.EnteredShows` | API/instance_combat.py:390-420 | each entry has its own rng id, the internal id of its position, and the end and view its own result says |
| `StandaloneCombat.EnteredDecides` | API/instance_combat.py:390-420 | it gets the next free decision number, unless it failed |
| `StandaloneCombat.EnteredHangsBelow` | Combat/search/branch_manager.py:131-164 | its record is finished as its own result says and hangs below its own parent's |
| `StandaloneCombat.CombatInstance.FinalizeBranch` | API/instance_combat.py:390-420 | a result shows its view and opens the next decision, or raises; a fault result changes nothing |
| `StandaloneCombat.CombatInstance.EmulateActions` | API/instance_combat.py:314-388 | refused, published whole with numbered decisions, or undone except for the ids; a raising clean-up closes the instance |
| `StandaloneCombat.CombatInstance.Undo` | API/instance_combat.py:367-388 | cancel and release are both tried, everything else is restored whatever they do |
| `StandaloneCombat.FailedBatchCanBeResentIff` | API/instance_combat.py:353-388 | a failed batch can be resent under its ids exactly if it failed before registering and its clean-up returned; otherwise the instance is as before, or closed |
| `LegalActions.SemanticKeyAndOrdinal` | API/instance_whole_run_beam.py:128-158 | the key of the chosen action and how many earlier actions share it; nothing for an unknown id |
| `LegalActions.SameKeyIffAlike` | Run/legal_action_identity.py:23-26 | equal keys exactly for equal type, label and the nine named parameters |
| `LegalActions.NineNamesTellApart` | Run/legal_action_identity.py:10-26 | the nine by name: no other parameter tells two actions apart |
| `LegalActions.EncodedPositionIsDecoded` | Run/worker_pool.py:616-631 | any list with the same key sequence decodes the pair to its own action at the same position |
| `LegalActions.EncodingIsInjective` | API/instance_whole_run_beam.py:128-158 | different positions get different pairs |
| `Emulator.DrainTrivialRewardFrontier` | Run/reward_auto_progress.py:25-77 | the returned steps are the ones taken, in order; it raises exactly when the drain function does |
| `Emulator.TakeIfTrivial` | Run/reward_auto_progress.py:39-60 | one turn steps the only published TAKE, stops at none, raises at several |
| `Emulator.PublishedTakes` | Run/reward_auto_progress.py:40-53 | the available trivial TAKEs of a reward frontier, in published order |
| `Emulator.TakesAre` | Run/reward_auto_progress.py:40-48 | an id is taken for trivial exactly if an available potion TAKE of a reward frontier carries it |
| `Emulator.DrainIsTheForcedPath` | Run/reward_auto_progress.py:25-77 | exactly the forced path, at most the cap, and no trivial TAKE left |
| `Emulator.DrainedStateIsStepped` | Run/reward_auto_progress.py:25-77 | stepping the returned actions gives the settled state |
| `Emulator.DrainSettles` | Run/reward_auto_progress.py:25-77 | draining gives exactly this state and these steps exactly if they are the forced path, within the cap |
| `BranchReplay.BootstrapReach` | Run/worker_pool.py:388-417 | load, enter, replay with the override spliced in: the calls made and the state reached, or a failure exactly when that run fails |
| `BranchReplay.ReplayPrefix` | Run/worker_pool.py:411-417 | steps the prefix without draining, override before its entry |
| `BranchReplay.ExecuteBootstrapStep` | Run/worker_pool.py:527-675 | a bootstrap execution computes `Execute` and makes exactly `StepCalls` |
| `BranchReplay.ResolveAndSettle` | Run/worker_pool.py:547-675 | boundary check, late override, resolution, step and drain from the state reached |
| `BranchReplay.SteppedIff` | Run/worker_pool.py:547-675 | on the machine alone: a bootstrap step reports a settled state exactly if the re-found action leads to a state whose forced path, within the cap, ends there; and no trivial TAKE is left |
| `BranchReplay.ReachedOrMismatchIff` | Run/worker_pool.py:547-610 | it reports a mismatch exactly at another boundary than the target, and a held context exactly without an action |
| `BranchReplay.OverrideOnceAtItsIndex` | Run/worker_pool.py:411-417 | the override is applied exactly once, right before the entry it was established at |
| `BranchReplay.ChildRepeatsTheCalls` | API/instance_whole_run.py:108-142 | bootstrapping the child view makes exactly the calls of the parent's worker |
| `BranchReplay.ChildDescribesSettledState` | API/instance_whole_run.py:108-142 | the child view rebuilds exactly the state the worker settled in |
| `BranchReplay.DescendDescribes` | API/instance_whole_run.py:1009-1065 | so at every level of a chain |
| `BranchReplay.ReplayAtEveryDepth` | Run/worker_pool.py:388-675 | from any process state, the leaf's coordinates rebuild the settled state, which is also the live state with override and own steps applied; one override; no mismatch fault |
| `BranchReplay.ReplayHappens` | Run/worker_pool.py:388-675 | an instance of the theorem on a small emulator, so its hypotheses can be met |
| `RootAnchor.RootRun.constructor` | API/instance_whole_run.py:317-319 | a run begins with exactly the rewards its drain took recorded, and the map captured if it is up |
| `RootAnchor.RootRun.MaybeCaptureMapSnapshot` | API/instance_whole_run.py:324-329 | a map boundary restarts the record from a fresh snapshot |
| `RootAnchor.RootRun.CommitAction` | API/instance_whole_run.py:613-734 | the record after a commit, also when its recording raises before the capture, and when it stops being faithful |
| `RootAnchor.CommitTakesItsAction` | API/instance_whole_run.py:715-719 | on the machine alone: off the map a commit steps the chosen action, then the forced rewards, and its record is the old one plus both |
| `RootAnchor.CommitEntersItsRoom` | API/instance_whole_run.py:700-714 | at the map it enters the chosen room and the record starts over with that room and its rewards |
| `RootAnchor.FailedCommitLeaves` | API/instance_whole_run.py:699-725 | a call that raises leaves the record, a drain that raises leaves the step or the room in it |
| `RootAnchor.CombatRecords` | API/instance_whole_run.py:460-495 | a combat room is entered undrained with an empty record; leaving a fight records its rewards alone |
| `RootAnchor.CommitExtendsAnchor` | API/instance_whole_run.py:699-717 | a commit with its hidden auto-actions extends the record from anchor to anchor |
| `RootAnchor.UnrecordedCommitAnchorsIff` | API/instance_whole_run.py:635-637 | after a commit whose recording raised before the capture the record is still replayable to the live state exactly if it was and the map was not reached |
| `RootAnchor.UnrecordedMapIsMissed` | API/instance_whole_run.py:635-637 | concrete: three such commits, every emulator call succeeding, and the record replays to another room |
| `RootAnchor.EventKeepsAnchor` | API/instance_whole_run.py:613-734 | commits, recorded or not, failures and combats keep: faithful means replayable |
| `RootAnchor.RootAnchorInvariant` | API/instance_whole_run.py:324-734 | after any run, a faithful record with a snapshot replays to the live root state |
| `RootAnchor.FreshRunIsAnchored` | API/instance_whole_run.py:317-329 | a new run is anchored, whatever its initial drain took |
| `RootAnchor.CompletedCommitStaysFaithful` | API/instance_whole_run.py:699-734 | a commit that went through is faithful exactly if the record was or a map was captured, and not if a map was missed |
| `RootAnchor.CombatBreaksTheRecord` | API/instance_whole_run.py:488 | a concrete machine where the record after a combat replays to another state |
| `RootAnchor.FaithfulRootIsDescribed` | API/instance_whole_run.py:331-357 | a faithful root at an event is what the replay theorem starts from |
| `RootAnchor.BranchesOfAnyRunAreRebuilt` | API/instance_whole_run.py:1009-1056 | end to end: after any run that stands faithful at an event, any prepared root Branch and any chain below it, the leaf's coordinates rebuild the settled state from any process state, without mismatch |
| `RootAnchor.RebuildingHappens` | API/instance_whole_run.py:699-734 | an instance on a small emulator, so the hypotheses of the end-to-end theorem can be met |
| `Server.SessionLedger.Begin` | API/identifiers.py:46-73 | replays the latest request verbatim, refuses a reused or skipped number, opens the next one |
| `Server.SessionLedger.Complete` | API/identifiers.py:75-76 | the response becomes replayable |
| `Server.RLApiServer.HandleRequest` | API/server.py:86-144 | one delivery does to all sessions and instances exactly what `Handle` says |
| `Server.RLApiServer.ExecuteNewRequest` | API/server.py:146-197 | ownership and dispatch of one request, for every answer of the foreign handler |
| `Server.RLApiServer.HandleStartInstance` | API/server.py:233-268 | an instance that fails to start is not kept but its serial is spent |
| `Server.HandlerAnswers` | API/server.py:104-126 | a client gets its handler's status and body, a rejection's or failure's reason, or a fault for an improper answer, and the instance was handed the request once |
| `Server.StrangersAreRejected` | API/server.py:159-166 | a request for an instance the session does not own reaches no handler |
| `Server.CloseAnswers` | API/server.py:178-197 | closing always ends the instance; only the answer tells whether it raised |
| `Server.StartAnswers` | API/server.py:233-268 | a start is refused beside an instance; otherwise a serial is spent, and kept only with a completed answer |
| `Server.OthersAreAnswered` | API/server.py:86-144 | what is not executed changes nothing and is told why, or gets the latest response again |
| `Server.RLApiServer.CloseAll` | API/server.py:77-84 | forgets sessions and instances; serials go on |
| `Server.HandleKeepsInv` | API/server.py:86-268 | one delivery keeps ownership one to one and every ledger replayable |
| `Server.ExecutedExactlyOnce` | API/server.py:86-126 | for any interleaving a session executes 1..last_seq, once each, in order |
| `Server.ChangesIffExecuted` | API/server.py:123-126 | a request changes the server exactly if it is executed |
| `Server.SessionsAreIsolated` | API/server.py:146-176 | no other session's ledger or instance is touched |
| `Server.RetriesAreInvisible` | API/identifiers.py:50-61 | retries inserted anywhere change neither the final server nor any other response |
| `Server.RetryReplaysItsResponse` | API/identifiers.py:50-61 | a retry gets the very response of its request while the session has not moved on |
| `Server.OwnershipIsABijection` | API/server.py:146-197 | sessions' active ids are pairwise distinct and are exactly the live instances |
| `Server.UnknownInstanceIsUnreachable` | API/server.py:167-172 | the unknown-instance branch is never taken |
| `Server.InstancesSeeEachRequestOnce` | API/server.py:86-126 | a live instance was handed only its owner's requests, each at most once, in order |
| `Server.InstanceIdsAreNeverReused` | API/server.py:233-268 | an id once given out and gone never comes back |
| `WorkerPool.LeaseRegistry.Set` | Run/worker_pool.py:229-230 | files a lease under its own context |
| `WorkerPool.LeaseRegistry.Invalidate` | Run/worker_pool.py:232-233 | drops the lease of one context |
| `WorkerPool.LeaseRegistry.InvalidateLease` | Run/worker_pool.py:235-238 | drops a lease only while it is the one on file |
| `WorkerPool.LeaseRegistry.InvalidateWorkerGeneration` | Run/worker_pool.py:240-247 | drops exactly the leases of one worker generation |
| `WorkerPool.LeaseRegistry.InvalidateWorkerAllGenerations` | Run/worker_pool.py:249-252 | drops exactly the leases of one worker |
| `WorkerPool.PositionIsRemainder` | Run/worker_pool.py:978 | the turn taken is the index modulo the number of candidates |
| `WorkerPool.FreeWorkersTakeTurns` | Run/worker_pool.py:974-979 | with an unleased worker nothing is evicted and the unleased ones take turns |
| `WorkerPool.OneWorkerIsEvicted` | Run/worker_pool.py:1008-1011 | with every worker leased one loses its leases and gets the whole batch |
| `WorkerPool.SubBranchesEvictAtMostOneWorker` | Run/worker_pool.py:974-1011 | at most one worker evicted, none while one is unleased, and then shares differ by at most one |
| `WorkerPool.LoadIs` | Run/worker_pool.py:974-979 | a position's share is the full rounds plus one if its turn came in this one |
| `WorkerPool.HolderStepsAreCurrent` | Run/worker_pool.py:991-1003 | in any batch a continuation is sent only under a lease of the target's current generation and its own context |
| `WorkerPool.PinnedStepLeavesItsHolderIff` | Run/worker_pool.py:992-1003 | a pin is checked on the generation alone: the step leaves the lease's worker exactly if the pinned one has the same generation |
| `WorkerPool.ContinuationRoutesIff` | Run/worker_pool.py:991-1006 | a continuation goes out under its context's lease exactly if the target's generation is the lease's; otherwise the lease is dropped |
| `WorkerPool.UnheldEndsTheBatch` | Run/worker_pool.py:1004-1006 | a continuation nobody holds ends the batch there, with its lease dropped and what was routed before it sent |
| `WorkerPool.BootstrapTakesATurn` | Run/worker_pool.py:974-1011 | a sub-branch takes the next turn among the unleased workers and nothing is dropped, or, with all leased, the next turn among all and exactly that worker's leases are dropped |
| `WorkerPool.SubBranchBatch` | Run/worker_pool.py:1039-1052 | a batch of sub-branches alone always routes |
| `WorkerPool.LateAnswersAreIgnored` | Run/worker_pool.py:1083-1086 | answers to other requests make no difference, however many and whenever |
| `WorkerPool.DuplicatesAreIgnored` | Run/worker_pool.py:1083-1089 | nothing after a first answer replaces it |
| `WorkerPool.FirstAnswerIs` | Run/worker_pool.py:1054-1089 | a request's answer is the first message with its id, if the queue has not run dry by then |
| `WorkerPool.SettledWhenAnswered` | Run/worker_pool.py:1083-1089 | a request is settled at the arrival that answers it |
| `WorkerPool.HungIff` | Run/worker_pool.py:1061-1068 | a worker is given up on exactly if one of the requests sent to it has no answer |
| `WorkerPool.OutcomeIs` | Run/worker_pool.py:1061-1089 | a request comes to its first answer, or to a time-out naming its worker and the generation at dispatch |
| `WorkerPool.GivenUpWorkersMoveOn` | Run/worker_pool.py:877-895 | a worker given up on is one generation on, once, and exactly what it held in the old one is dropped |
| `WorkerPool.WholeRunWorkerPool.Submit` | Run/worker_pool.py:897-904 | request ids strictly increase |
| `WorkerPool.WholeRunWorkerPool.RespawnWorker` | Run/worker_pool.py:877-895 | one generation on, and exactly the old generation's leases gone |
| `WorkerPool.WholeRunWorkerPool.Route` | Run/worker_pool.py:982-1011 | where one item goes and what that does to the leases |
| `WorkerPool.WholeRunWorkerPool.SubmitAll` | Run/worker_pool.py:1039-1052 | items routed and sent in order; a failing route leaves the earlier ones sent |
| `WorkerPool.WholeRunWorkerPool.Collect` | Run/worker_pool.py:1054-1089 | terminates on every finite arrival order with a first answer or a timeout for each work id, later settled requests overwriting; hung workers respawned once |
| `WorkerPool.WholeRunWorkerPool.AbandonHung` | Run/worker_pool.py:1061-1082 | each hung worker respawned once, each of its requests answered with a timeout |
| `WorkerPool.WholeRunWorkerPool.DispatchChoiceWorkItems` | Run/worker_pool.py:1017-1102 | one result per item in input order, the first answer to or timeout of its work id's last settled request; or the routing failure with the turn counter unstored; and the leases either way |
| `WorkerPool.OwnRequestAnswers` | Run/worker_pool.py:1054-1102 | with distinct work ids each item gets the first answer to its own request, or its timeout |
| `WorkerPool.WholeRunWorkerPool.SettleAll` | Run/worker_pool.py:1091-1099 | leases updated from the results item by item |
| `WorkerPool.HoldsAfterIff` | Run/worker_pool.py:1091-1099 | over results and dictionary: a context holds a lease exactly if the last result to touch it established it and no later fault names its worker, or it was on file and nothing dropped it |
| `WorkerPool.DispatchLeavesLeaseIff` | Run/worker_pool.py:1017-1102 | the same for a whole dispatch, evictions and abandoned generations included |
| `WorkerPool.EstablishedIsContinued` | Run/worker_pool.py:991-1096 | an established lease brings its context's next continuation to its worker while the generation stands |
| `WorkerRuntime.WorkerProcess.ExecuteChoice` | Run/worker_pool.py:527-692 | what one execution does to the session and the remembered context, for every placement of failures |
| `WorkerRuntime.AnswerIs` | Run/worker_pool.py:527-692 | which failure, hold or success a request is answered with, check by check in the code's order |
| `WorkerRuntime.RemembersIff` | Run/worker_pool.py:93-114 | the context remembered afterwards is the request's own exactly if it is held, none otherwise |
| `WorkerRuntime.GenerationCountsRespawns` | Run/worker_pool.py:877-895 | over any run a worker's generation has moved on by one per respawn of it, and by nothing else |
| `WorkerRuntime.RespawnedStartsOver` | Run/worker_pool.py:877-895 | a respawned worker has no queue, no context and no lease of its old generation; no other worker or lease changes |
| `WorkerRuntime.KeepsContextIff` | Run/worker_pool.py:93-114 | the remembered context stays true exactly unless a request keeps it after an override, whether in the replayed prefix or after it |
| `WorkerRuntime.ExploreKeepsContextIff` | Run/worker_pool.py:707-715 | exploring is harmless exactly when no context is held |
| `WorkerRuntime.HolderStepFindsItsContext` | Run/worker_pool.py:534-545 | a continuation succeeds only on a session at its context, untouched since, in its generation |
| `WorkerRuntime.OpKeepsInv` | Run/worker_pool.py:877-1011 | sends, executions, respawns and any lease traffic keep every process truthful and every queued continuation current |
| `WorkerRuntime.HolderSafety` | Run/worker_pool.py:527-1011 | over every run: the generation fault never fires and a succeeding continuation finds its own untouched context |
| `WorkerRuntime.OverriddenContextIsTrusted` | Run/worker_pool.py:93-114 | concrete, for both places of the override: keeping its context lets a later continuation succeed on the wrong state |
| `PileMask.MultisetOf` | API/masking.py:91-121 | counting and representatives in one pass under keys as a dictionary compares them, published in sorted order of the stored keys; nothing for a non-list |
| `PileMask.PublishedAlikeIff` | API/masking.py:51-72 | cards are published alike exactly if no field differs, in value or in type, and both or neither have an enchantment |
| `PileMask.PublishedAlikeByField` | API/masking.py:51-72 | said of the cards: all ten public fields agree, an absent flag or level counting as false or zero |
| `PileMask.KeyOrder` | API/masking.py:75-77 | the sort key orders card keys totally |
| `PileMask.MaskIsAMultiset` | API/masking.py:91-121 | pairwise different keys ascending, counts right and positive, every card with an id covered, counts summing to their number |
| `PileMask.RecordsAreCards` | API/masking.py:97-121 | every published record is the public form of a card with an id that is in the pile |
| `PileMask.MaskingHidesOrderIff` | API/masking.py:91-121 | the output is the same for every order of the pile exactly if cards whose keys compare equal have the very same fields and all or none of them an enchantment |
| `PileMask.TypedPilesAreUniform` | API/masking.py:51-121 | so for cards with flags only at `upgraded` and no enchantment or one with an id |
| `PileMask.BlankEnchantmentShowsOrder` | API/masking.py:80-88 | two cards that differ in absent and blank enchantment give their order away |
| `PileMask.MixedTypesShowOrder` | API/masking.py:97-104 | so do two cards with cost 1 and cost true, which a dictionary takes for one key |
| `FloorHistory.ReplayState.constructor` | Combat/data/reconstruct_floor_state.py:99-125 | starting deck, relic and HP, the bane from ascension 5 to 10, a warning for an unknown character |
| `FloorHistory.StartIs` | Combat/data/reconstruct_floor_state.py:99-125 | position by position: the kit's deck on floor 1, the bane after it exactly from ascension 5 to 10, HP and relic from the kit |
| `FloorHistory.ReplayState.FindCardCandidates` | Combat/data/reconstruct_floor_state.py:139-149 | the matching positions in deck order |
| `FloorHistory.ReplayState.AddCard` | Combat/data/reconstruct_floor_state.py:151-163 | one card more; only a MAD_SCIENCE without state is warned about |
| `FloorHistory.GainAppends` | Combat/data/reconstruct_floor_state.py:151-163 | the gained card comes last; a state is kept for MAD_SCIENCE alone and its absence warned about |
| `FloorHistory.ReplayState.RemoveCard` | Combat/data/reconstruct_floor_state.py:165-186 | floor pin first, any copy otherwise, the first candidate goes |
| `FloorHistory.RemovalTakesThePinned` | Combat/data/reconstruct_floor_state.py:165-186 | over the deck: a removal takes the first card of the id on the floor it names |
| `FloorHistory.RemovalFallsBack` | Combat/data/reconstruct_floor_state.py:165-186 | without one there it takes the first of the id |
| `FloorHistory.RemovalMisses` | Combat/data/reconstruct_floor_state.py:165-186 | without one at all it takes none and warns |
| `FloorHistory.ReplayState.UpgradeCard` | Combat/data/reconstruct_floor_state.py:188-197 | flips the first plain copy or warns |
| `FloorHistory.ReplayState.DowngradeCard` | Combat/data/reconstruct_floor_state.py:199-206 | flips the first upgraded copy or warns |
| `FloorHistory.FlipTakesTheFirst` | Combat/data/reconstruct_floor_state.py:188-206 | over the deck: an upgrade flips the first plain copy, a downgrade the first upgraded one, keeping floor and state |
| `FloorHistory.FlipMisses` | Combat/data/reconstruct_floor_state.py:188-206 | without one the deck stands and a warning says so |
| `FloorHistory.ReplayState.ApplyPointStats` | Combat/data/reconstruct_floor_state.py:208-278 | a history point is its changes in the fixed order, transformations as removal then gain |
| `FloorHistory.CardStepsAre` | Combat/data/reconstruct_floor_state.py:208-242 | the order within a point: gains, removals, transformations as pairs, upgrades, downgrades |
| `FloorHistory.OtherStepsAre` | Combat/data/reconstruct_floor_state.py:243-278 | then relics gained and lost, potions gained, used and discarded, then gold and HP |
| `FloorHistory.BeltAndRelics` | Combat/data/reconstruct_floor_state.py:243-262 | only picked relics and potions are gained, a relic once; the first of a lost one goes or is missed |
| `FloorHistory.VitalsReplace` | Combat/data/reconstruct_floor_state.py:263-278 | recorded HP replaces what was known, and unrecorded HP is unknown from then on |
| `FloorHistory.ReconstructEncounters` | Combat/data/reconstruct_floor_state.py:281-333 | one encounter per combat room, with the state right before it |
| `FloorHistory.CandidatesAreAll` | Combat/data/reconstruct_floor_state.py:139-149 | no matching card is overlooked |
| `FloorHistory.DeckIsConserved` | Combat/data/reconstruct_floor_state.py:151-206 | without a NOTFOUND the deck's ids are what they were plus gains minus removals |
| `FloorHistory.RunConservesDeck` | Combat/data/reconstruct_floor_state.py:281-333 | the same over a whole run up to any point |
| `FloorHistory.RelicsStayDistinct` | Combat/data/reconstruct_floor_state.py:243-253 | a relic is held at most once whatever the log repeats |
| `FloorHistory.WarningsOnlyGrow` | Combat/data/reconstruct_floor_state.py:208-278 | no step takes a warning back |
| `FloorHistory.NoExactAfterDoubt` | Combat/data/reconstruct_floor_state.py:396-411 | after a NOTFOUND or AMBIGUOUS no later state is classified exact |
| `FloorHistory.ExactIff` | Combat/data/reconstruct_floor_state.py:396-411 | a state is exact exactly with known HP in range, supported ids and nothing missing or ambiguous; and when it is inconsistent |
| `FloorHistory.EncountersCarryTheirState` | Combat/data/reconstruct_floor_state.py:281-333 | every reconstructed fight carries exactly the state before its history point |
| `FloorHistory.EveryRoomIsAFight` | Combat/data/reconstruct_floor_state.py:281-333 | every combat room of every point is among the fights, with the state before its point |
| `FloorHistory.FightsAreRooms` | Combat/data/reconstruct_floor_state.py:281-333 | and no others: as many fights as combat rooms, each at a room of its point |
| `FloorHistory.NoExactFightAfterDoubt` | Combat/data/reconstruct_floor_state.py:281-411 | so none of the reconstructed fights after a NOTFOUND or AMBIGUOUS is classified exact |
| `FloorHistory.FlaggedIffTheChoiceMatters` | Combat/data/reconstruct_floor_state.py:165-186 | a removal is flagged ambiguous exactly if two candidates would leave different (id, upgraded) multisets |
| `FloorHistory.LostTinkerStateStaysExact` | Combat/data/reconstruct_floor_state.py:396-411 | a MAD_SCIENCE without its state is warned about and still counts as exact |

## Left out

- CombatCoordinator.WholeRunInstance.SweepBranches: what cancelling or releasing an Event Branch does to its RNG reference is in `EventBatch`, not repeated here.
- CombatCoordinator.WholeRunInstance.RetireAllBranches: the order in which one release call takes its ids is not modelled; a release that raises has released some subset of them.
- CombatCoordinator.WholeRunInstance.PoisonCombatTransaction: the root decision of a poisoned instance is not followed, and closing the phase and the pools is assumed to return.
- CombatBranches.CapacityHoldsOnEveryRun: `close()` is not an operation of these runs; the instance is dropped after it.
- PhaseRecords.CombatPhase.SubmitMany: the manager's own refusals (unknown parent, too many active records) are the submission's foreign failure.
- PhaseRecords.CombatPhase.Cancel: the code's `partial` state is not told apart from the other finished states, and a cascade that raises half-way is not modelled; no promise above depends on either.
- EventDispatch.BeamInstance.DispatchPreparedBatch: a pool call that raises leaves the pool and its leases as they were here; what it leaves there in the code depends on the call that raised.
- EventDispatch.BeamInstance.EmulateEvents: starts from the validated and prepared items; validation of the request text is not modelled.
- Server.RLApiServer.ExecuteNewRequest: the two rejections inside `_dispatch` are not modelled; both instance types allow every operation that validation lets through.
- WorkerRuntime.HolderSafety: for plan-free continuations, overrides that come with an action, and exploring on the main worker only; `KeepsContextIff`, `ExploreKeepsContextIff` and `OverriddenContextIsTrusted` show these conditions are needed.
- BranchReplay.BootstrapReach: relic injection into the snapshot and prefix discovery are not modelled; Event Branches use neither.
- BranchReplay.ReplayAtEveryDepth: for a deterministic emulator, and for chains that do not end at the map, where the code blocks further Branches; plan-bearing map choices do not occur.
- RootAnchor.RootAnchorInvariant: assumes that loading a snapshot gives the state it was saved from.
- Handoff.LiveCombatSession.Step: the frame check, the claim on first use and the resynchronisation with the engine are one outcome, a refusal that changes nothing.
- PileMask.MultisetOf: field values are null, integers, flags and texts; floats and values that cannot be hashed are not modelled.
- StandaloneCombat.CombatInstance.EmulateActions: the singleton request and later commits are not modelled; closing the phase is assumed to return.
- The emulator itself, the CLR bridge and snapshot parsing: foreign code, an abstract machine here.
- The explore walk: it only produces inputs of what is modelled.
- TCP transport, process spawn, the readiness handshake and wall clocks: only "a result arrives" and "the queue is empty" remain.
- SHA-256 derivations of RNG states, payload digests and context ids: pure functions; collision freedom is an assumption.
- The dispatch loop and worker pools of `Combat/search/`, and its decision contexts: of its BranchManager only ids, states and the cascade are modelled; a poll is its results.
- Stable anchors and the replay prefix of the combat phase.
- Bookkeeping records are values in a map, so aliasing of one record is not modelled.
- Stray lease entries after a batch that both answered and respawned one worker: harmless, because routing checks the generation.
- Masked DTO contents beyond piles, the forbidden-key list, error texts and logs: data.
- Id prefixes in run histories, the canonical id dictionaries and the Tinker Time lookup: inputs of the history model.
- Batch scripts, probes, reports, heuristics and statistics: measurement.
