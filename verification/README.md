# Verified models of Logos blockchain components

A Dafny 4.11 project that models four parts of the Logos blockchain repository and proves
what they promise. `dafny verify dfyconfig.toml` checks all of it.

* **λSQL** (`logos_sql/`): a SQL database replicated over a channel. A participant keeps two
  databases, LIB (the finalized history) and LIVE (LIB, the surviving history and its own
  queued writes), a queue of unpublished writes, and a control store with the sequencer
  checkpoint, write statuses, rejections and a rebuild flag. The three stores commit
  separately, so a crash can fall between any two commits.
* **Merkle Mountain Range** (`mmr/`): an append-only accumulator and the Merkle paths that a
  wallet keeps up to date while others append.
* **Block rewards and fees** (`ledger/`): the reward formula in 64- and 128-bit arithmetic,
  what a transaction is charged, the block limits and where the fees go, and the controller
  that retargets the proof-of-work reward difficulty.
* **Workspace check** (`scripts/cargo-hack-check/`): the topological order of the crates and
  the cache of earlier checks.

## How the λSQL model is built

`SqlHistory` defines what replaying writes does to one database; the SQL engine is a function
parameter. `Commits` lists every atomic transaction of the stores as a value, says what each
does (`Do`, `Run`), and gives, for every operation of the source, the list of transactions it
commits in order. A crash or a storage failure is a prefix of such a list.

`Participant` is the state machine over those lists: local writes, retries, publication,
channel events, failures after any number of commits, crashes, restarts and recovery. While a
process lives, the event whose attempt failed is attempted again; after a restart any event
that meets the sequencer's contract may come: an extension in place of an old conflict, or a
backfill that finalizes another branch before its orphans are reported.

Two invariants are proved. The first (`Invariant`, `PublicationProofs`, `EventProofs`) is about
what was committed, queued, published and tracked; it holds in every run, and `RunTheorems`
derives the safety results from it. The second (`Agreement`) says that LIB and LIVE are the
replay that the specification names: the finalized history, then the surviving history, then
the queue, from an empty database. It holds in the steady runs of `Participant.IsSteadyRun`,
in which each event finds the databases as it needs them. `Convergence` states that
specification, `Resumption` what an event does to databases that have executed part of it
already, `Redelivery` compares two deliveries of one event with one, and `Healing` follows what
was executed too early until it has arrived again in pieces. `Counterexamples` gives, for each
of the four hypotheses of the steady runs, a run in which the other three hold, this one fails
in the last step, and LIVE diverges.

What the application sees is proved beside them. `EventOutcomes` says, from an event's own
fields, when it is applied directly and when a rebuild finishes; `Rejections` which rejections
are on record afterwards; `OpenDisplacements` that a displaced write is listed until it is
handled, restored or finalized; `Guards` when a participant may write and publish.
`StatusTruth` says when the recorded statuses of our writes are true of the channel, and
`EventStatuses` carries that through a complete attempt at an event.

`Databases`, `Applier` and `Runtime` are the imperative code: classes and methods that update
the stores field by field and may fail at any commit. Each method is proved to commit exactly
a prefix of its list (all of it when it succeeds) and to stop early only when a commit failed or
an event contradicts a publication of ours, and each method of `Runtime` to take steps
of the state machine, so the theorems about runs are about this code. `Publication` packs and
recognizes the batches on the stored queue, through the wire codec, and `FunctionCapture` shows
that the engine which replays captured writes commits what their local execution committed.

Hashing, the SQL engine, the statements that a write's payload holds and the wire codec are
function-valued parameters. What the sequencer
promises is `Participant.SequencerContract`: finalization extends the finalized history; an
event with orphans carries the whole new history; batches are not empty; unpublished ids are
unknown to the channel; a message id names one payload. The checkpoint that a publication
returns contains the publication, and generated ids are fresh.

## What turned out false, and when it holds

* **Redelivery.** An event that was interrupted and is delivered again does not always lead to
  the state of one uninterrupted delivery: the rejection table is not consulted when a write is
  applied, so a write that was rejected the first time may succeed the second time.
  `Redelivery.RedeliveryCanDiverge` is an instance and `Counterexamples.RetriedEventCanDiverge` a
  run. `Redelivery.RedeliveryConvergesExactlyWhenSettled` gives the exact condition for every
  event with distinct ids and every interruption, the one between LIB and LIVE included: what
  the first attempt executed changes nothing on the state it left.
  `Resumption.ResumptionAgreesExactlyWhenItRepeats` and
  `Agreement.RebuiltLibAgreesExactlyWhenItRepeats` are the exact conditions for agreement with
  the specification.
* **A different next event.** A direct application that was interrupted leaves no flag. If the
  process restarts and another event comes that does not carry what the attempt executed, LIVE
  keeps it and nothing repairs it: `Counterexamples.DifferentEventCanDiverge` is a run.
  Convergence needs that everything executed returns with the next event
  (`Resumption.LiveLeftoversMustReturn`, `Resumption.LibLeftoversMustReturn`), and with events that
  continue the interrupted one (`Participant.Continues`) it holds exactly when their repeated
  writes are quiet (`Resumption.ResumptionAgreesExactlyWhenItRepeats`). During a rebuild LIVE is
  replaced, so only LIB's part is asked of the next event. What returns may also come in
  smaller pieces: they change nothing, and the databases agree again when the rest has come
  (`Healing.PiecesHeal`).
* **An unreported fork.** A backfill reports finalized inscriptions as an extension. If they are
  of another branch than the saved history, the event is applied directly and LIVE keeps the
  abandoned writes: `Counterexamples.UnreportedForkCanDiverge` is a run. Whatever the event, LIVE
  can agree only if the new history has every write that LIVE has applied
  (`Counterexamples.DroppedMarkDiverges`); for events that extend the history
  (`Participant.ExtendsHistory`) the conditions are those above.
* **Stale rejections.** A rejection recorded on an abandoned branch makes the same inscription
  count as processed when it is adopted again, so it is applied on top of the queued writes
  instead of below them. `Counterexamples.StaleRejectionCanDiverge` is a run: adopt and reject,
  orphan and rebuild, write locally, adopt again. `Resumption.QueuedAgreesExactlyWhenAdoptedQuiet`
  is the exact condition, within the history and beyond it: the adopted writes change nothing
  above the queue. The steady runs ask for quietness only of writes whose rejection is on record;
  any other write that LIVE lacks makes the plan a rebuild
  (`EventOutcomes.DirectExactlyWhenSettled`).
* **Write statuses.** A displaced write that returns under another message and is finalized by a
  backfill stays displaced, because finalization looks for the recorded message only:
  `StatusTruth.BackfilledWriteCanStayDisplaced`. `StatusTruth.StatusesStayTrueExactlyWhenNoticed`
  is the exact condition under which true statuses (live: in the history; finalized: in the
  finalized history; displaced: in neither) stay true through an update, and
  `EventStatuses.AttemptKeepsStatusesTrueExactlyWhenNoticed` the same for a complete attempt at an
  event; publishing new writes and displacing queued ones always keep them true.
* **Fees.** A transaction balance is cast to 64 bits without a check. Fees are conserved exactly
  when every balance fits (`BlockFees.ApplyBlockContents`); `BlockFees.OversizedBalanceIsLost` is
  an instance of the loss.
* **Reward difficulty.** The target's floor is there so that the target can always ease again,
  and the target number of claims is meant to leave the target alone. Validation also accepts
  configurations for which neither holds: without a claim target, or without smoothing and with
  claim target and precision both one (`RewardDifficulty.AcceptedTargetCanStayAtFloor`).
  `RewardDifficulty.TargetRecoversExactlyWhenItEases`,
  `RewardDifficulty.OnTargetIsFixedExactlyWhenTargetIsSet` and
  `RewardDifficulty.TargetMovesExactlyWhen` are the exact conditions on the configuration.

## Model

| member | source | states |
|---|---|---|
| `RunTheorems.ReplicasConverge` | logos_sql/src/applier.rs:113-332 | In every steady run, whenever no event is in progress, LIB is the replay of the finalized history, and with the rebuild flag clear LIVE is the replay of finalized history, surviving history and queue, from an empty database. |
| `RunTheorems.RunKeepsAgreement` | logos_sql/src/applier.rs:113-332 | In every state of every steady run, also within an interrupted event, LIB and LIVE are the saved replay and exactly what the interrupted attempt executed above it. |
| `RunTheorems.StepKeepsAgreement` | logos_sql/src/runtime.rs:264-352 | Every steady action keeps that agreement, whatever number of its transactions commits. |
| `RunTheorems.NoCommittedWriteIsLost` | logos_sql/src/db.rs:671-716 | In every reachable state, crashes included, each committed local write is queued or has a status row. |
| `RunTheorems.CommittedOnlyGrows` | logos_sql/src/runtime.rs:414-435 | The record of committed writes only grows along a run. |
| `RunTheorems.StepKeepsInv` | logos_sql/src/runtime.rs:264-352 | Every enabled action keeps the safety invariant, whatever number of its transactions commits and whatever event follows an interrupted one. |
| `RunTheorems.RunKeepsInv` | logos_sql/src/runtime.rs:264-352 | The safety invariant holds in every state of every run, steady or not. |
| `RunTheorems.FinalizedIsTerminal` | logos_sql/src/db.rs:930-1041 | Once a write's status is finalized it stays finalized for the rest of the run. |
| `RunTheorems.HandledStaysHandled` | logos_sql/src/db.rs:616-626 | A handled displacement is never reopened under the same identity, by redelivery or otherwise. |
| `RunTheorems.OldIdentityNeverReturns` | logos_sql/src/db.rs:616-626 | A displacement identity that was cleared or replaced never returns, and handling it later changes nothing. |
| `RunTheorems.IdentityKeepsPayload` | logos_sql/src/db.rs:616-626 | In every run the payload and the reason under one displacement identity never change. |
| `RunTheorems.UnhandledInCommitOrder` | logos_sql/src/db.rs:581-608 | In every run the unhandled displacements are listed in commit order, are all listed, and all belong to displaced writes. |
| `RunTheorems.PublicationIsFifo` | logos_sql/src/runtime.rs:606-649 | Whatever waits for its publication checkpoint is a non-empty contiguous part of the committed writes that starts at the oldest queued one. |
| `RunTheorems.QueueStaysWithinLimits` | logos_sql/src/db.rs:742-806 | In every run the queue respects the count limit and the byte limit. |
| `RunTheorems.StepEvolves` | logos_sql/src/db.rs:511-534 | No action undoes a finalized row, removes a row, lowers the displacement counter or reopens a handled displacement. |
| `RunTheorems.RunEvolves` | logos_sql/src/db.rs:511-534 | The same between any two states of a run. |
| `Counterexamples.StaleRejectionCanDiverge` | logos_sql/src/db.rs:558-579 | After a steady run, an enabled event that meets the other three hypotheses and not the one on recorded rejections leaves LIVE different from the replay. |
| `Counterexamples.DifferentEventCanDiverge` | logos_sql/src/applier.rs:295-304 | After a steady run, an interruption and a restart, an enabled event that meets the other three hypotheses and does not continue the interrupted one leaves LIVE different from the replay. |
| `Counterexamples.RetriedEventCanDiverge` | logos_sql/src/runtime.rs:543-576 | After a steady run, retrying the very event that failed, which meets the other three hypotheses, leaves LIVE different from the replay, because a write rejected first is accepted then. |
| `Counterexamples.UnreportedForkCanDiverge` | zone-sdk/src/sequencer/backfill.rs:128-143 | After a steady run, a backfill of another branch, which meets the other three hypotheses and does not extend the history, leaves LIVE different from the replay. |
| `Counterexamples.DroppedMarkDiverges` | logos_sql/src/applier.rs:295-304 | For every event applied directly without queued writes: if the new history lacks a write that LIVE has applied, LIVE is different from the replay. |
| `Counterexamples.DivergesOnlyUnsteady` | logos_sql/src/applier.rs:113-332 | A step from a steady run that leaves LIVE different from the replay is never steady. |
| `EventOutcomes.DirectExactlyWhenSettled` | logos_sql/src/applier.rs:239-293 | An event is applied directly if and only if no rebuild is pending, it orphans nothing, and nothing is queued or each write of each inscription that it adopts or finalizes is in LIVE with its content or has its rejection on record; otherwise the whole queue is displaced. |
| `EventOutcomes.RebuildFinishesExactlyWhenHistoryIsKnown` | logos_sql/src/runtime.rs:516-527 | After a complete attempt the flag is set if and only if a rebuild was needed and the event has neither a chain nor an available history; otherwise a rebuild has emptied the queue and LIVE is LIB with the new history replayed. |
| `OpenDisplacements.DisplacedIsListed` | logos_sql/src/db.rs:1010-1041 | In every run, a step that displaces a write lists it for the application. |
| `OpenDisplacements.LeavesListOnlyWhenEnded` | logos_sql/src/db.rs:581-626 | A step takes a write off the list only by handling or retrying it under its identity, or by an event that restores or finalizes it. |
| `OpenDisplacements.ListedUntilEnded` | logos_sql/src/db.rs:581-626 | Between any two states of a run, a displaced write stays listed until such a step. |
| `OpenDisplacements.HandlingUnlists` | logos_sql/src/db.rs:616-626 | Handling under the current identity takes exactly that write off the list; an outdated identity takes off none. |
| `Guards.ReadyOnlyAfterCheckpoint` | logos_sql/src/runtime.rs:578-600 | In every run a process is ready only if, since it started, the sequencer became ready and an event was applied completely after that. |
| `Guards.WritesWait` | logos_sql/src/runtime.rs:462-486 | In every run a write, a retry or a publication happens only with such a process, outside a rebuild, with no event waiting for retry and no publication pending. |
| `Guards.DisplacementsComeFirst` | logos_sql/src/runtime.rs:414-451 | A new write happens only when no displacement is listed; a retry executes the statements of a listed displacement under its identity. |
| `Rejections.WriteRecordsRejection` | logos_sql/src/db.rs:809-838 | Applying one write adds its rejection exactly when the databases it is for do not have it afterwards, and touches no other marker. |
| `Rejections.InscriptionRecordsRejections` | logos_sql/src/applier.rs:423-487 | After an inscription, each of its rejections is on record exactly when it was before or its write was not accepted, and an inscription that does not decode is recorded itself. |
| `Rejections.DirectRecordsRejections` | logos_sql/src/applier.rs:295-304 | After a direct application a rejection is on record if and only if it was before, or LIB and LIVE do not both have the finalized write, or LIVE the adopted one; and a message without writes if and only if it was before or does not decode. |
| `Rejections.RebuildRecordsRejections` | logos_sql/src/applier.rs:306-332 | After a rebuild that finishes: if and only if it was before, or LIB does not have the finalized write, or the new LIVE the write of the new history. |
| `Rejections.ReplayRecords` | logos_sql/src/applier.rs:393-420 | The replay of a history records exactly the writes that the finished image does not have. |
| `Rejections.FinalizedWriteOutcome` | logos_sql/src/db.rs:827-838 | A finalized write known to either database with another content changes neither; otherwise LIB executes it, and LIVE only if LIB has it then. |
| `Rejections.OtherWriteOutcome` | logos_sql/src/db.rs:809-825 | An adopted write concerns LIVE only, a write finalized during a rebuild LIB only. |
| `Invariant.InitiallyInv` | logos_sql/src/db.rs:377-408 | Empty stores satisfy the invariant. |
| `Invariant.CommitLocalKeepsInv` | logos_sql/src/db.rs:742-790 | A committed local write keeps the invariant. |
| `Invariant.NoRowsInQueue` | logos_sql/src/db.rs:472-507 | Outside a rebuild, no unpublished queued write has a status row. |
| `PublicationProofs.PersistKeepsInv` | logos_sql/src/runtime.rs:651-673 | Saving an accepted publication keeps the invariant wherever it stops. |
| `PublicationProofs.SavingPublishesPrefix` | logos_sql/src/db.rs:472-507 | After the control commit, the batch is both the last saved message and the queue's prefix, with a live row for each of its writes. |
| `PublicationProofs.ClearingEndsOverlap` | logos_sql/src/db.rs:472-507 | Removing the batch from the queue leaves only unpublished writes. |
| `PublicationProofs.RecoveryFindsPrefix` | logos_sql/src/runtime.rs:675-706 | After a crash between the two commits, recovery completes exactly the published prefix, with any newer writes behind it. |
| `PublicationProofs.NothingToRecover` | logos_sql/src/runtime.rs:675-706 | With nothing published, recovery changes nothing. |
| `PublicationProofs.RestartKeepsInv` | logos_sql/src/runtime.rs:675-706 | A restart keeps the invariant wherever its recovery stops. |
| `EventProofs.AttemptKeepsInv` | logos_sql/src/applier.rs:113-183 | Every attempt at any event that meets the contract keeps the safety invariant, however many of its transactions commit and whatever was interrupted before. |
| `EventProofs.DirectCompletionKeepsInv` | logos_sql/src/applier.rs:295-304 | A complete direct application keeps the safety invariant at the new position. |
| `EventProofs.DirectInterruptionKeepsInv` | logos_sql/src/applier.rs:295-304 | So does one that stops after any number of transactions, at the saved position. |
| `EventProofs.RebuildInterruptionKeepsInv` | logos_sql/src/applier.rs:306-332 | An interrupted rebuild loses no committed write: each is queued or has its row, in commit order. |
| `EventProofs.RebuildCompletionKeepsInv` | logos_sql/src/applier.rs:306-332 | A complete rebuild keeps the safety invariant, with the history or without it. |
| `EventProofs.InstallLosesNothing` | logos_sql/src/db.rs:688-722 | Replacing LIVE may empty the queue because every queued write is recorded displaced before. |
| `EventProofs.DisplaceNext` | logos_sql/src/applier.rs:306-319 | Displacing the next queued write appends its row in commit order. |
| `Agreement.AttemptKeepsAgreement` | logos_sql/src/applier.rs:113-332 | Every steady attempt at an event keeps the agreement, wherever it stops. |
| `Agreement.QuietBelowQueue` | logos_sql/src/applier.rs:271-293 | When an event is applied directly above queued writes, none of its new writes has an effect below the queue and no adopted one above it: LIVE has them, or their rejections are on record and hold. |
| `Agreement.DirectInterruptionAgrees` | logos_sql/src/applier.rs:295-304 | A direct attempt that stops anywhere leaves LIB and LIVE at what it and earlier attempts executed, LIB possibly one write ahead. |
| `Agreement.DirectCompletionAgrees` | logos_sql/src/applier.rs:295-304 | A complete direct application, also after an interrupted attempt at another event that it continues, reaches the replay of the new position. |
| `Agreement.RebuildInterruptionAgrees` | logos_sql/src/applier.rs:306-332 | An interrupted rebuild leaves LIB at a prefix of the finalized writes above the saved base. |
| `Agreement.RebuildCompletionAgrees` | logos_sql/src/applier.rs:306-332 | A complete rebuild, also by an extension that follows an interrupted conflict, reaches the replay of the new position, or keeps the flag when the history is unavailable. |
| `Agreement.RebuiltLibAgreesExactlyWhenItRepeats` | logos_sql/src/applier.rs:306-319 | With distinct ids, a rebuild brings LIB to the new base if and only if the finalized writes it executes again change nothing. |
| `Agreement.SameEventContinues` | logos_sql/src/runtime.rs:543-576 | Attempting the interrupted event again always continues it. |
| `Agreement.InterruptedIsAhead` | logos_sql/src/applier.rs:295-304 | What an interrupted attempt leaves in a steady run without queued writes is where the healing in pieces starts. |
| `Agreement.LibProgress` | logos_sql/src/applier.rs:306-319 | During a rebuild LIB has advanced by as many finalized writes as the committed transactions contain, redelivered ones included. |
| `Agreement.PersistKeepsAgreement` | logos_sql/src/runtime.rs:651-673 | Saving an accepted publication keeps the agreement wherever it stops: the batch replays to the same LIVE from the history and from the queue. |
| `Agreement.RestartKeepsAgreement` | logos_sql/src/runtime.rs:675-706 | So does a restart, wherever its recovery stops. |
| `Agreement.CommitLocalKeepsAgreement` | logos_sql/src/db.rs:742-790 | So does a local write, which is applied on top of the queue. |
| `Resumption.DirectApplicationAgrees` | logos_sql/src/applier.rs:295-304 | From databases that have executed any part of it, applying an extending event, which finalizes a prefix of the history or all of it and more, reaches agreement at the new position if what is executed again is quiet. |
| `Resumption.ResumptionAgreesExactlyWhenItRepeats` | logos_sql/src/applier.rs:295-304 | With distinct ids and no queue, it reaches agreement if and only if what is executed again is quiet. |
| `Resumption.QueuedAgreesExactlyWhenAdoptedQuiet` | logos_sql/src/applier.rs:271-304 | Over queued writes, with new writes that change nothing below the queue, it reaches agreement if and only if the adopted writes change nothing above it. |
| `Resumption.LiveLeftoversMustReturn` | logos_sql/src/applier.rs:295-304 | For every event: LIVE can agree only if each write it has executed is in the saved history or among the event's new writes. |
| `Resumption.LibLeftoversMustReturn` | logos_sql/src/applier.rs:295-304 | For every event: LIB can agree only if each write it has executed is finalized or among the event's finalized writes. |
| `Resumption.NotMismatched` | logos_sql/src/db.rs:827-838 | The digest check on LIVE stops a finalized write only where LIB would not accept it either. |
| `Healing.PiecesHeal` | logos_sql/src/applier.rs:113-136 | What an interrupted attempt executed ahead of the saved position, delivered again in any number of pieces, changes nothing, and the event that brings the rest, and possibly more, brings agreement. |
| `Healing.PiecesHealByThemselves` | logos_sql/src/applier.rs:113-136 | Pieces that bring everything bring agreement with the position they reach. |
| `Healing.PieceLeavesTheRest` | logos_sql/src/applier.rs:295-304 | One piece changes neither database and leaves exactly the rest ahead of the new position. |
| `Redelivery.RedeliveryConverges` | logos_sql/src/applier.rs:113-136 | Stopping a direct application anywhere, LIB committed without LIVE included, and applying again gives the state of the longer attempt alone, if rejections repeat. |
| `Redelivery.RedeliveryConvergesExactlyWhenSettled` | logos_sql/src/db.rs:827-838 | For every event with distinct ids and every interruption, LIB committed without LIVE included, delivering it again gives the state of one delivery if and only if what the first attempt executed changes nothing on the state it left. |
| `Redelivery.SettledExactlyWhenRejectionsRepeat` | logos_sql/src/db.rs:1136-1196 | The condition in terms of markers and the SQL engine. |
| `Redelivery.RedeliveryCanDiverge` | logos_sql/src/db.rs:1136-1172 | An event, an interruption within its transactions and an engine for which redelivery diverges. |
| `SqlHistory.QuietExactlyWhenMarkedOrRejected` | logos_sql/src/db.rs:1136-1196 | Applying a write changes nothing exactly when it is already marked, mismatched or rejected by SQL. |
| `SqlHistory.ReplayIsQuietExactlyWhenWritesAre` | logos_sql/src/db.rs:1136-1172 | Replaying writes changes nothing exactly when each of them alone changes nothing. |
| `SqlHistory.ReplayAppliedAgain` | logos_sql/src/db.rs:1174-1196 | Writes that are marked can be replayed again without effect. |
| `SqlHistory.NewMarkersAreReplayed` | logos_sql/src/db.rs:1174-1196 | A marker that a replay did not find came from a write of that replay. |
| `WriteStatuses.DisplacingIsValid` | logos_sql/src/db.rs:1010-1041 | A write that was not displaced gets exactly the row: displaced, its own payload, the given reason, the next identity, not handled. One that was displaced keeps its row, no other row or publication changes, and the rows stay consistent. |
| `WriteStatuses.FinalizingIsValid` | logos_sql/src/db.rs:930-945 | Finalizing a message keeps the rows consistent and undoes nothing. |
| `WriteStatuses.OrphaningIsValid` | logos_sql/src/db.rs:947-973 | Orphaning a write keeps the rows consistent and leaves finalized rows alone. |
| `WriteStatuses.AdoptingIsValid` | logos_sql/src/db.rs:975-1008 | Restoring a write keeps the rows consistent and undoes nothing. |
| `WriteStatuses.UpdatingIsValid` | logos_sql/src/db.rs:511-534 | A whole status update keeps the rows consistent and undoes nothing. |
| `WriteStatuses.HandlingIsValid` | logos_sql/src/db.rs:616-626 | Handling the current identity makes exactly that row handled; an older identity, and every other displacement, is left alone. |
| `WriteStatuses.PublishingIsValid` | logos_sql/src/db.rs:472-507 | Recording a published batch keeps the rows consistent and undoes nothing, makes the rows of the batch live and leaves the others. |
| `WriteStatuses.PublishingRecordsBatch` | logos_sql/src/db.rs:483-492 | Each write of the batch is recorded live under the message of the batch, with its content unless one is on record; no other row or publication changes. |
| `WriteStatuses.UpdatingLeavesUnpublished` | logos_sql/src/db.rs:511-534 | A status update does not touch a write that is not published and not restored. |
| `StatusTruth.StatusesStayTrueExactlyWhenNoticed` | logos_sql/src/db.rs:511-534 | From true statuses, an update that reports the change of the channel leads to true statuses if and only if no orphaned write of ours is finalized under another message than the recorded one without being adopted. |
| `StatusTruth.EventKeepsStatusesTrueExactlyWhenNoticed` | logos_sql/src/applier.rs:347-391 | The same for the update of an event, with its adopted inscriptions or with the whole new history. |
| `StatusTruth.BackfilledWriteCanStayDisplaced` | logos_sql/src/db.rs:930-945 | True statuses and an extension after which a write is displaced and finalized. |
| `StatusTruth.ExtensionAccounts` | logos_sql/src/applier.rs:295-304 | An extension accounts for everything that leaves or enters the history. |
| `StatusTruth.UpdateFailsExactlyWhenContradicted` | logos_sql/src/db.rs:947-973 | A status update is refused if and only if an orphaned write contradicts a publication of ours that the same update does not finalize. |
| `StatusTruth.PublishingKeepsStatusesTrue` | logos_sql/src/db.rs:472-507 | Publishing a batch of new writes keeps true statuses true of the history that it extends. |
| `StatusTruth.DisplacingKeepsStatusesTrue` | logos_sql/src/db.rs:671-686 | Displacing a queued write keeps true statuses true. |
| `StatusTruth.HandlingKeepsStatusesTrue` | logos_sql/src/db.rs:616-626 | So does handling a displacement. |
| `EventStatuses.EventUpdatesStatuses` | logos_sql/src/applier.rs:306-391 | A complete attempt changes the tables by one status update, of what the event adopts or of the whole known history, after a rebuild has displaced the queued writes. |
| `EventStatuses.QueuedWritesAreDisplaced` | logos_sql/src/applier.rs:306-319 | After a complete rebuild every write that was queued is displaced under a new identity with its own payload, because the history below it changed, and not handled. |
| `EventStatuses.AttemptKeepsStatusesTrueExactlyWhenNoticed` | logos_sql/src/applier.rs:113-183 | From true statuses, a complete attempt at an event that accounts for the change of the history leads to true statuses if and only if no orphaned write of ours returns unnoticed. |
| `Commits.RunConcat` | logos_sql/src/db.rs:433-507 | Transactions compose: running two lists in turn is running their concatenation. |
| `DatabasesClass.Databases.constructor` | logos_sql/src/db.rs:377-408 | Opened stores hold what was saved, with an empty log and no cached usage. |
| `DatabasesClass.Databases.PersistCheckpoint` | logos_sql/src/db.rs:433-439 | Commits the checkpoint or nothing. |
| `DatabasesClass.Databases.PersistRebuiltCheckpoint` | logos_sql/src/db.rs:441-459 | Commits the checkpoint and clears the rebuild flag together, or nothing. |
| `DatabasesClass.Databases.RequireRebuild` | logos_sql/src/db.rs:540-546 | Sets the rebuild flag or nothing. |
| `DatabasesClass.Databases.RecordPendingWriteDisplacement` | logos_sql/src/db.rs:671-686 | Commits the displacement of one queued write, whose whole row `WriteStatuses.DisplacingIsValid` states, or nothing, and nothing only when the commit fails. |
| `DatabasesClass.Databases.UpdateWriteStatuses` | logos_sql/src/db.rs:511-538 | One transaction for all statuses; an inconsistent state commits nothing. |
| `DatabasesClass.Databases.RecordRejectedWrite` | logos_sql/src/db.rs:724-740 | Commits one rejection or nothing. |
| `DatabasesClass.Databases.MarkDisplacementHandled` | logos_sql/src/db.rs:616-626 | Handles the displacement with that identity, unless the commit fails. |
| `DatabasesClass.Databases.UnhandledDisplacements` | logos_sql/src/db.rs:581-608 | Lists exactly the unhandled rows in sequence order, each with its id, identity, reason and the statements of its payload. |
| `DatabasesClass.Databases.UnhandledIds` | logos_sql/src/db.rs:581-608 | The loop selects exactly the unhandled ids in sequence order. |
| `DatabasesClass.Databases.PendingUsage` | logos_sql/src/db.rs:792-807 | The usage equals the count and byte total of the stored queue, cached or not. |
| `DatabasesClass.Databases.CommitLocalWrite` | logos_sql/src/db.rs:742-790 | Commits the write, its marker and its queue entry together, or changes nothing. It commits exactly when count, bytes, SQL, inscription size, id and storage allow it, and SQL failure, excess size and a full queue are reported exactly under their conditions. |
| `DatabasesClass.Databases.StoreLocalWrite` | logos_sql/src/db.rs:767-790 | The one commit: effects, marker, queue entry, and a cached usage that stays exact. |
| `DatabasesClass.Databases.CompleteBatch` | logos_sql/src/db.rs:472-507 | Checkpoint, rows and the message of every published write, as `WriteStatuses.PublishingRecordsBatch` states them, commit before the queue is cleared; any prefix of the two commits may happen, a proper one only when a commit fails; the cached usage is dropped. |
| `DatabasesClass.Databases.ApplyAdoptedWrite` | logos_sql/src/db.rs:809-813 | Applies a write to LIVE once, or records its rejection. |
| `DatabasesClass.Databases.ApplyFinalizedWriteToLib` | logos_sql/src/db.rs:815-825 | Applies a write to LIB once, or records its rejection. |
| `DatabasesClass.Databases.ApplyFinalizedWrite` | logos_sql/src/db.rs:827-838 | Checks both digests first, commits LIB before LIVE, and runs LIVE only if LIB did not reject. |
| `DatabasesClass.Databases.FinishLiveRebuild` | logos_sql/src/db.rs:688-722 | Replaces LIVE and its queue by the rebuilt copy in one commit. |
| `Applier.ApplyInscriptions` | logos_sql/src/applier.rs:334-345 | Applies inscriptions in channel order; a rejected or malformed one does not stop the rest. |
| `Applier.ApplyInscription` | logos_sql/src/applier.rs:423-487 | Applies a batch write by write, each in its own transaction. |
| `Applier.UpdateStatusesFor` | logos_sql/src/applier.rs:347-391 | Observes the event's writes and commits one status update, refused exactly when an orphaned write contradicts a publication of ours that is not finalized with it. |
| `Applier.ApplyDirectly` | logos_sql/src/applier.rs:295-304 | Commits the direct application's transactions in order. |
| `Applier.SaveWithStatuses` | logos_sql/src/applier.rs:295-304 | Updates the statuses for what the event adopts, then saves the checkpoint. |
| `Applier.PrepareRebuild` | logos_sql/src/applier.rs:306-319 | Sets the flag, records every queued write displaced, then advances LIB. |
| `Applier.BeginRebuild` | logos_sql/src/applier.rs:306-319 | Sets the flag before any displacement is recorded. |
| `Applier.ReplayInscription` | logos_sql/src/applier.rs:393-420 | Replays one inscription into the image; a malformed one is recorded and skipped. |
| `Applier.ReplayHistory` | logos_sql/src/applier.rs:393-420 | Replays the surviving history into a copy of LIB and stores only the rejections. |
| `Applier.RebuildLive` | logos_sql/src/applier.rs:393-420 | Installs exactly LIB with the surviving history replayed on top. |
| `Applier.FinishRebuild` | logos_sql/src/applier.rs:321-332 | Finishes with the rebuilt checkpoint, or saves progress, as `EventOutcomes.RebuildFinishesExactlyWhenHistoryIsKnown` distinguishes them; stops early only at a failed commit or a contradictory event. |
| `Applier.InstallHistory` | logos_sql/src/applier.rs:321-332 | Records the rejections of the replay, replaces LIVE, then saves the checkpoint that clears the flag. |
| `Applier.PlanFor` | logos_sql/src/applier.rs:239-293 | The loop over the queue and the observed writes computes the plan that `EventOutcomes.DirectExactlyWhenSettled` characterizes. |
| `Applier.ProcessBlocks` | logos_sql/src/applier.rs:113-183 | The whole event commits a prefix of its specified transactions, all of them exactly on success; it stops early only at a failed commit or when the event contradicts a publication of ours. |
| `RuntimeClass.Runtime.constructor` | logos_sql/src/runtime.rs:237-262 | A started runtime is not ready and has nothing pending. |
| `RuntimeClass.Runtime.EnsureReadyToWrite` | logos_sql/src/runtime.rs:462-486 | Accepts exactly when the state machine allows a write, the client may write and the inscription limit is known; each refusal names its reason. |
| `RuntimeClass.Runtime.Execute` | logos_sql/src/runtime.rs:414-435 | Takes the local-write step exactly when writing is allowed, every displacement is handled and the write can be committed; otherwise changes nothing. |
| `RuntimeClass.Runtime.RetryDisplacement` | logos_sql/src/runtime.rs:437-460 | Takes the retry step, for a write with the statements of the displaced one, exactly when writing is allowed, that displacement is open under that identity and the write can be committed, with the second commit or, only if it fails, without it; otherwise changes nothing. |
| `RuntimeClass.Runtime.MarkHandled` | logos_sql/src/runtime.rs:386-398 | Takes the handling step exactly when no event waits for retry and the commit succeeds; otherwise changes nothing. |
| `RuntimeClass.Runtime.RecordAcceptance` | logos_sql/src/runtime.rs:632-646 | Takes the acceptance step for a queue prefix. |
| `RuntimeClass.Runtime.PersistPublishCheckpoint` | logos_sql/src/runtime.rs:651-673 | Takes the persistence step; the publication stays pending unless both commits happen. |
| `RuntimeClass.Runtime.SaveAcceptance` | logos_sql/src/runtime.rs:632-649 | Takes the acceptance step and then the persistence step. |
| `RuntimeClass.Runtime.SavePending` | logos_sql/src/runtime.rs:606-615 | Takes the persistence step exactly for a publication that is pending, and leaves none when it succeeds. |
| `RuntimeClass.Runtime.Pack` | logos_sql/src/runtime.rs:616-628 | What is packed of the stored queue decodes to its oldest writes, within the batch and inscription limits, and is the first halving of the longest body that fits; nothing is packed exactly when the queue is empty, an error means that the longest body cannot be packed, and a queue that was stored is never refused as invalid. |
| `RuntimeClass.Runtime.PublishBatch` | logos_sql/src/runtime.rs:616-649 | The payload handed to the sequencer is what packing gives, and the acceptance step publishes exactly the writes it carries; without a batch or an acceptance nothing changes, and the batch is missing only if the queue is empty or cannot be packed. |
| `RuntimeClass.Runtime.AdvancePublish` | logos_sql/src/runtime.rs:606-649 | Takes only enabled steps, none during a rebuild; saves an earlier acceptance before the next batch is packed, whose payload is what packing gives for the queue left then; success without a payload means a rebuild or an empty queue. |
| `RuntimeClass.Runtime.ApplyEvent` | logos_sql/src/runtime.rs:516-600 | Takes the attempt step; the event waits for retry exactly when not all its transactions committed, which needs a failed commit or a contradictory event. |
| `RuntimeClass.Runtime.RecordAppliedEvent` | logos_sql/src/runtime.rs:578-600 | Ends the retry, and makes a runtime ready whose ready event has been seen. |
| `RuntimeClass.Runtime.HandleEvent` | logos_sql/src/runtime.rs:529-541 | A new event is taken exactly when none is pending and no publication waits, and then the attempt is an enabled step. |
| `RuntimeClass.Runtime.RetryPendingEvent` | logos_sql/src/runtime.rs:543-576 | Attempts the pending event itself, and keeps it until it is applied. |
| `RuntimeClass.Runtime.HandleReadyEvent` | logos_sql/src/runtime.rs:578-587 | Readiness waits for the checkpoint behind the ready event. |
| `RuntimeClass.Runtime.RecoverPublishedWrite` | logos_sql/src/runtime.rs:675-706 | Scanning the sequencer's own saved transactions through the codec takes the restart step; the runtime is up exactly when recovery commits completely, which only a failed commit prevents. |
| `RuntimeClass.FindOwnPublication` | logos_sql/src/runtime.rs:685-703 | The first saved transaction that matches the queue through the codec, and how much of the queue it is, determine what recovery commits. |
| `RuntimeClass.RecoveryScansOwn` | logos_sql/src/runtime.rs:685-703 | The own transactions recover what the whole saved history would. |
| `Publication.TakeBody` | logos_sql/src/publication.rs:20-52 | Takes the longest sound queue prefix within the count and body limits; fails exactly when filling it meets an entry that does not decode to the write it names. |
| `Publication.BodyLengthAddsUp` | logos_sql/src/publication.rs:20-52 | A body is two bytes and the encoded writes. |
| `Publication.Shrink` | logos_sql/src/publication.rs:54-73 | Returns the first halving that fits; fails exactly when the batch is empty or repeats an id, or when no halving fits. |
| `Publication.HalvedDivides` | logos_sql/src/publication.rs:54-73 | Halving any number of times divides by that power of two, rounding down. |
| `Publication.Prepare` | logos_sql/src/publication.rs:20-75 | The batch is a non-empty queue prefix that decodes to the queued writes and fits, the first halving of the longest body that does; each of the three errors is returned exactly under its condition. |
| `Publication.MatchesPending` | logos_sql/src/publication.rs:77-100 | Finds a match exactly when the payload's writes are the queue's prefix. |
| `Publication.PublishThenRecover` | logos_sql/src/publication.rs:20-100 | A published batch is found again as exactly its prefix, with newer writes behind it. |
| `Publication.StoredQueueDecodes` | logos_sql/src/db.rs:742-790 | The queue reads back as the writes that were queued. |
| `Publication.FindInQueue` | logos_sql/src/publication.rs:77-100 | On a stored queue the match through the codec is the match on writes, and it never fails. |
| `FunctionCapture.FunctionOverrides.InvokeFunction` | logos_sql/src/functions.rs:236-271 | Records results while capturing, nothing when the built-in fails; supplies them while replaying; a mismatch fails and stays failed. |
| `FunctionCapture.FunctionOverrides.RunCaptured` | logos_sql/src/functions.rs:132-181 | The captured calls are exactly those the transaction makes; it is refused exactly when it rejects or a built-in fails. |
| `FunctionCapture.FunctionOverrides.RunReplayed` | logos_sql/src/functions.rs:190-234 | A replay commits exactly when the transaction makes the recorded calls and then finishes, with the data of the replica's engine. |
| `FunctionCapture.ExecuteThenApply` | logos_sql/src/functions.rs:132-145 | Executing locally and applying the captured write are the same step of the engine that the replicas run: any replica with the same tables ends with the same tables and the same marker. |
| `FunctionCapture.ReplayCommitsWhatWasRecorded` | logos_sql/src/functions.rs:236-271 | The engine commits exactly what the recorded calls lead to. |
| `FunctionCapture.PrefixesDetermine` | logos_sql/src/functions.rs:204-227 | The recorded results determine the call sequence. |
| `Bits.SiblingsAtExactlyOneHeight` | mmr/src/path.rs:230-237 | Distinct leaves are siblings at a height exactly when it is their sibling height. |
| `Bits.SiblingHeightInRange` | mmr/src/path.rs:235-237 | The sibling height of two leaves below a capacity lies within the tree. |
| `MerkleTree.RootIsMerkleRootOfPaddedLeaves` | mmr/src/lib.rs:231-259 | The subtree hashes the range works with are those of the perfect tree over the padded leaves. |
| `MerkleTree.NodeUnchangedByAppend` | mmr/src/lib.rs:121-154 | A complete subtree is unchanged by an append. |
| `MerkleTree.NodeBeyondLeaves` | mmr/src/lib.rs:281-292 | A subtree beyond the leaves is the empty subtree of its height. |
| `MountainRange.New` | mmr/src/lib.rs:113-119 | A new range holds no leaves. |
| `MountainRange.Push` | mmr/src/lib.rs:121-154 | Fails exactly at capacity; otherwise holds one more leaf; the height assertion never fires. |
| `MountainRange.MergeNext` | mmr/src/lib.rs:132-146 | Merging the top peak carries the new leaf's subtree one level up. |
| `MountainRange.PeakExistsExactlyAtSetBits` | mmr/src/lib.rs:121-154 | A peak of a height exists exactly when that bit of the leaf count is set, and it is the last complete subtree of its height. |
| `MountainRange.FullExactlyAtCapacity` | mmr/src/lib.rs:121-124 | The test on the top peak detects exactly a full range. |
| `MountainRange.PadTo` | mmr/src/lib.rs:242-255 | The padding loop keeps the walk on the tree. |
| `MountainRange.FrontierRoot` | mmr/src/lib.rs:231-259 | Returns the root of the padded tree over the pushed leaves; both height assertions hold. |
| `MountainRange.Len` | mmr/src/lib.rs:271-273 | Counts the pushes. |
| `MountainRange.PrecomputeEmptyRoots` | mmr/src/lib.rs:281-292 | The table holds the roots of empty trees of heights 1 to 33. |
| `MountainRange.ClimbNext` | mmr/src/path.rs:198-210 | The sibling of the new leaf's subtree is an empty subtree or the next peak, which exists. |
| `MerklePaths.ComputePathRoot` | mmr/src/path.rs:68-81 | The loop computes the root that the path's siblings give. |
| `MerklePaths.PathVerifies` | mmr/src/path.rs:83-86 | A path that follows the tree verifies its own leaf. |
| `MerklePaths.VerifiedLeafIsBound` | mmr/src/path.rs:68-86 | A path verifies only the padded leaf at its index, or the hash has a collision. |
| `MerklePaths.PatchedFollowsTree` | mmr/src/path.rs:155-219 | Assigning the one sibling slot makes a path follow the grown tree. |
| `MerklePaths.PathLifeFollowsTree` | mmr/src/lib.rs:161-228 | A path passed to every later push follows the tree after each. |
| `MerklePaths.TrackedPathAlwaysVerifies` | mmr/src/lib.rs:161-228 | For every sequence of pushes, a tracked path always verifies its leaf against the current root. |
| `MerklePaths.NoErrorExactlyWhenAllValid` | mmr/src/path.rs:39-65 | Validation passes exactly when every path has the right length and a leaf index in range. |
| `MerklePaths.ErrorNamesFirstInvalid` | mmr/src/path.rs:39-65 | The error is that of the first invalid path: expected and found number of siblings, or else its leaf index and the leaf count. |
| `MerklePaths.ValidatePaths` | mmr/src/lib.rs:170-173 | Reports the first invalid path. |
| `MerklePaths.UpdatePathsAtMerge` | mmr/src/path.rs:155-175 | At a merge, patches exactly the paths whose sibling subtree is the new one. |
| `MerklePaths.CompleteNewPath` | mmr/src/path.rs:192-210 | Completes the new leaf's path and its subtree hashes; the peaks never run out. |
| `MerklePaths.CompleteNext` | mmr/src/path.rs:198-210 | One level of the walk assigns the right sibling and goes on above it; the peak it needs exists. |
| `MerklePaths.UpdatePathsAboveMerge` | mmr/src/path.rs:212-219 | Patches each remaining path at its unique sibling height. |
| `MerklePaths.MergePeaks` | mmr/src/lib.rs:192-209 | The merging phase with path updates. |
| `MerklePaths.AppendAndPatch` | mmr/src/lib.rs:186-228 | Both phases: the range of a plain push, the new path, and every tracked path patched in one slot. |
| `MerklePaths.PushWithPaths` | mmr/src/lib.rs:161-228 | Error cases leave the paths alone; otherwise the range is that of a push, the new path follows the tree and each tracked path has exactly its sibling slot assigned. |
| `BlockRewards.New` | ledger/src/config.rs:683-709 | Accepts exactly the configurations whose denominators multiply to at most the bound. |
| `BlockRewards.Rewards` | ledger/src/config.rs:715-758 | No step overflows; each share is its exact part rounded down; together they are the whole reward or one less, at most the larger of full emission and fee. |
| `BlockRewards.WeightIsExact` | ledger/src/config.rs:729-733 | The saturating weight equals the clamp over unbounded integers. |
| `BlockRewards.NumeratorFits` | ledger/src/config.rs:734-736 | The reward numerator and its parts fit 128 bits. |
| `BlockRewards.ShareFits` | ledger/src/config.rs:741-752 | The widest product fits 128 bits and every share 64 bits. |
| `BlockRewards.SharesAddUp` | ledger/src/config.rs:753-757 | The two floors add up to the floored reward or one less. |
| `BlockRewards.RewardBound` | ledger/src/config.rs:734-736 | The reward is a weighted mean of emission and fee, hence at most the larger. |
| `RewardDifficulty.RewardTargetFloor` | ledger/src/config.rs:353-370 | The floor is the least positive target the smoothing can raise; an error exactly when the factor is not below the precision. |
| `RewardDifficulty.RetargetStaysInRange` | ledger/src/mantle/pow/difficulty.rs:16-65 | With an accepted configuration, every retarget stays between floor and cap; too few claims never harden the target and too many never ease it. |
| `RewardDifficulty.RetargetIsTheQuotient` | ledger/src/mantle/pow/difficulty.rs:42-65 | Between floor and cap the new target is the claim target times the old one times the precision, divided by the smoothed claims and rounded down; at the floor and at the cap the bound of that side holds. |
| `RewardDifficulty.ValidationProtects` | ledger/src/config.rs:315-341 | Each error names what goes wrong without its test: no floor, a share above the fees, a target that cannot move, a payout scale that does not fit; an accepted configuration has none of them. |
| `RewardDifficulty.MoreClaimsHarden` | ledger/src/mantle/pow/difficulty.rs:16-65 | More claims never give an easier target. |
| `RewardDifficulty.OnTargetIsFixedExactlyWhenTargetIsSet` | ledger/src/mantle/pow/difficulty.rs:104-112 | The target number of claims leaves every target in range unchanged if and only if the claim target is positive. |
| `RewardDifficulty.EasingIsBounded` | ledger/src/mantle/pow/difficulty.rs:134-142 | One step never eases the target by more than the inverse of the smoothing fraction. |
| `RewardDifficulty.TargetMovesExactlyWhen` | ledger/src/config.rs:330-338 | The target can move at all if and only if the cap is above the floor, which validation asks for, and the claim target is positive, which it does not. |
| `RewardDifficulty.DroughtEasesToCap` | ledger/src/mantle/pow/difficulty.rs:193-203 | Each block without claims eases the target by at least one until it is back at the genesis target, and it never passes it. |
| `RewardDifficulty.TargetRecoversExactlyWhenItEases` | ledger/src/config.rs:344-370 | Every target in range returns to the genesis target when claims stay away if and only if the configuration eases. |
| `RewardDifficulty.AcceptedTargetCanStayAtFloor` | ledger/src/config.rs:315-341 | Two configurations, accepted with any cap above nine, whose target stays at the floor for ever. |
| `RewardDifficulty.PowFeeShare` | ledger/src/config.rs:417-427 | The share rounded down, never more than the fees. |
| `BlockFees.TransactionFees` | ledger/src/lib.rs:464-490 | Charged exactly when the cost is representable and covered by the balance and by its truncation; burned plus tip is the truncated balance; insufficient balance and overflow are told apart. |
| `BlockFees.ChargedAfterOperations` | ledger/src/lib.rs:446-491 | A transaction is charged at the prices after its operations, for their gas and its size, out of the balance they leave, and leads to their ledger; each failure has its error. |
| `BlockFees.AddFees` | ledger/src/gas_and_fees.rs:29-55 | Adds exactly when the gas limit and the 64-bit totals hold. |
| `BlockFees.FeesAreConserved` | ledger/src/lib.rs:477-487 | Over a block, burned fees and tips never exceed the balances, and equal them exactly when every balance fits 64 bits. |
| `BlockFees.OversizedBalanceIsLost` | ledger/src/lib.rs:482-482 | A balance of 2^64 is accepted and lost. |
| `BlockFees.SummedFees` | ledger/src/cryptarchia/mod.rs:643-648 | Sums the window without overflow. |
| `BlockFees.ComputeBlockRewards` | ledger/src/lib.rs:367-411 | Burned fees are the refill plus the pooled fee; the leader gets its share and the tips; fails exactly when a sum overflows. |
| `BlockFees.CreditIsExact` | ledger/src/lib.rs:367-411 | The refill, the pooled fee, the Blend share and the leader share in numbers, the last two rounded down from a reward over the fee window that includes this block. |
| `BlockFees.ApplyNext` | ledger/src/lib.rs:514-533 | One round accepts exactly when count, size, execution, fees and gas all do. |
| `BlockFees.ApplyTransactions` | ledger/src/lib.rs:509-536 | The loop succeeds exactly when the plain totals respect count, size and gas limits, and returns those totals. |
| `BlockFees.ApplyBlockContents` | ledger/src/lib.rs:500-546 | A block is accepted exactly when its totals respect the limits and its rewards can be credited; conservation holds exactly when every balance fits. |
| `BlockFees.WindowSumsLastFees` | ledger/src/lib.rs:373-388 | The window written round-robin sums the fees of exactly the last 120 blocks. |
| `BlockFees.BlockPoolsRecentFees` | ledger/src/lib.rs:373-401 | A block's rewards pool its own fee with those of the 119 blocks before it. |
| `CrateSchedule.BuildDependents` | scripts/cargo-hack-check/script.py:232-237 | The dependents map inverts the dependencies. |
| `CrateSchedule.SortTopologically` | scripts/cargo-hack-check/script.py:254-290 | The result is the schedule: each next member is the ready one first by name, until none is ready. |
| `CrateSchedule.Release` | scripts/cargo-hack-check/script.py:277-282 | Removes a listed member from its dependents, which all held it, and pushes exactly those left without dependencies. |
| `CrateSchedule.DependenciesFirst` | scripts/cargo-hack-check/script.py:275-284 | Each listed member comes after all its dependencies and is listed once. |
| `CrateSchedule.ScheduleIsTopological` | scripts/cargo-hack-check/script.py:254-290 | A schedule is a topological order. |
| `CrateSchedule.ListsAllExactlyWhenAcyclic` | scripts/cargo-hack-check/script.py:286-287 | All members are listed exactly when there is no dependency cycle. |
| `CrateSchedule.ScheduleIsUnique` | scripts/cargo-hack-check/script.py:269-276 | With unique names there is one schedule. |
| `CheckPass.Cache.InvalidateDependents` | scripts/cargo-hack-check/script.py:397-425 | Removes exactly the dependents' entries. |
| `CheckPass.Cache.HandleSuccess` | scripts/cargo-hack-check/script.py:376-388 | Saves the entry, then removes the dependents' entries; a kept entry is never older than a dependency's last successful check. |
| `CheckPass.Cache.Check` | scripts/cargo-hack-check/script.py:350-372 | Runs exactly when the entry is not current; a failure changes nothing. |
| `CheckPass.CheckAll` | scripts/cargo-hack-check/script.py:532-556 | With or without failures, a member ran exactly when it was stale or a dependency was checked again with success, and its entry is current unless its check failed; stops early only at a failure. |
| `CheckPass.PassRunsStaleClosure` | scripts/cargo-hack-check/script.py:350-424 | Without failures, the members that run are exactly those with a dependency chain to a stale member, and every entry is current afterwards. |
| `CheckPass.CurrentPassRunsNothing` | scripts/cargo-hack-check/script.py:350-358 | With every entry current, a pass runs nothing. |

## Left out

- SQLite, its authorizer, pragmas, files and the backup interface: a store is a value with atomic commits, and the SQL engine a function parameter.
- Tokio, channels, timers, HTTP and the sequencer's own algorithm: only the guards and the order of steps remain; what the sequencer promises is stated as a contract.
- The λSQL wire codec and compression: a parameter that round-trips, with an arbitrary size function.
- Hash functions, signatures and proofs: the compression function is a parameter.
- Ledger operations, UTXO trees, service declarations, epoch state, the execution market and the retarget of the Blend difficulty: executing a transaction's operations is a parameter, and block accounting starts from its results.
- Deserialization of a Merkle Mountain Range: it does not re-establish the peaks, so ranges are those reached from an empty one.
- An error that is not retryable ends the worker in the source; here that is a failed attempt followed by a crash.
- Read-only clients, statistics, readers and snapshots of the λSQL databases: they change none of the modelled state.
- Discovery of workspace members, command lists and the dashboard of the workspace check: they only feed or show what is modelled; member names are taken as unique, as the script's cache files need.
- RunTheorems.ReplicasConverge: is about steady runs, because the code does not converge in all runs; none of the four hypotheses follows from the others, as the runs of `Counterexamples` show. On writes that were rejected earlier and stay below the queue, the hypothesis is sufficient and not necessary, because writes that commute with the queue agree as well. `Continues` asks that what LIB executed is a prefix of the next event's finalized writes; smaller pieces are followed by `Healing`, without queued writes and without local writes in between.
- BlockFees.ComputeBlockRewards: the addition to the pending leader rewards wraps at 64 bits, as in a release build without overflow checks; whether the Blend service exists to receive its income is not modelled.
- RewardDifficulty.RetargetStaysInRange: targets are integers; the cap is the number that the configured modulus shift denotes, taken as a parameter, and being below the field's modulus it makes the conversion back exact.
- BlockRewards.New: the bound is sufficient for the absence of overflow and not shown to be necessary.
- EventStatuses.AttemptKeepsStatusesTrueExactlyWhenNoticed: is about one complete attempt outside a rebuild; that every event of a run accounts for the change of its history is a promise of the sequencer that the code does not rely on, and interrupted updates followed by another event are not considered.
- RuntimeClass.Runtime.RecoverPublishedWrite: that the inscriptions outside the sequencer's own transactions do not match the queue is required of the saved checkpoint.
