# Elowyn's state protocols, verified

Elowyn keeps canonical state — tasks, projects, goals, decisions, plan versions — in tables behind a
few validated write services, and beside it a memory index that can be rebuilt from the message
archive. This project models those services and proves what they promise over all runs.

Identifiers and times are natural numbers, tables are maps, sets and sequences, and each transaction
(each action decorated as atomic) is one step that either completes or leaves the state unchanged.
Services that update rows in place are classes; every method ends in the state that a pure
specification gives for its command, and the lemmas are about runs of that specification. The
modules whose names end in `Outcomes` say what each command writes, column by column and edge by edge,
and which error it is refused with when, without referring to the functions that compute it.

- **Memory generations** (`GenerationProtocol`, `GenerationSafety`, `GenerationDelivery`,
  `GenerationLoss`, `MemoryRebuild`). Workers retain into the pointed bank while a rebuild replays the archive into a
  fresh one and moves the pointer. The protocol has one step per await point, so workers, rebuilds,
  recovery, cleanup, arrivals and crashes interleave freely. The manager class carries a ghost trace
  showing that each of its methods is a run of that protocol.
- **Ingestion** (`IngestionLedger`, `IngestionProcessor`, `LedgerRuns`, `DerivedRefresh`,
  `DerivedRefreshLedger`, `RetryDelay`). Leases, receipts, retries and the derived-refresh marker, for one worker as a
  class and for many as a state machine.
- **World State** (`WorldModel`, `WorldSpec`, `WorldGraphs`, `WorldUndo`, `WorldClock`, `WorldServices`,
  `WorldLag`, `WorldWalks`, `WorldState`, `WorldOutcomes`, `WorldRoundTrip`). Tasks, projects and goals share one description: rows of typed columns, with a
  goal's success criteria among its columns. Undo is an inverse event on an append-only log.
- **Planning** (`PlanGraph`, `PlanNextAction`, `PlanningModel`, `PlanningLifecycle`,
  `PlanningSteps`, `PlanningRuns`, `PlanningOutcomes`, `PlanningOffers`, `PlanningService`,
  `PlanningGround`, `PlanningGrounded`, `PlanningFootings`, `PlanningGroundedService`). The
  version lifecycle, the acyclicity check, the choice of the next item, and what a candidate is
  based on: linked goals and the events of canonical entities.
- **Consistency** (`Consistency`, `WorldConsistency`, `PlanningConsistency`). The verifier's two
  cycle searches and its checks, exact against a declarative reading, and the proof that the write
  services only reach states that pass.
- **Text and observations** (`Telegram`, `Utf8`, `DeepMemory`, `Consolidation`,
  `ConsolidationOutcomes`).

`Basics` and `Graphs` hold what the others share: paths, cycles and reachability in finite graphs.

## What the proofs showed about the code

- Offset replay can overtake a message. `_query_message_batch` orders by `created_at, id` and pages
  by offset. A message with content that commits late, sorting before the offset of a rebuild that is
  still BUILDING and has not taken the registry lock, can end up with an INGESTED receipt outside the
  pointed bank; nothing else can be lost (`GenerationLoss.LostIffOvertaken`). Rows that are blank, rows
  that arrive during the switch, and rows behind a failed rebuild do no harm, and when archive order is
  arrival order no message is ever overtaken.
- The derived-refresh marker is safe for two workers and not for three
  (`DerivedRefresh.RefreshesAreSafeIff`): a worker stalled in an expired batch can set the marker back
  to the message another worker is about to clear, while a third ingests a newer one. The stored
  summary is safe for one worker only (`DerivedRefresh.SummaryIsSafeIff`), because a slower refresh
  overwrites a newer one and then leaves the empty marker alone. The application starts one worker.
- Undo finds its event by `created_at, id`, but each service instance starts without a last event time.
  It takes back the last change of an entity exactly while every undoable event is stamped after the
  live ones of its entity (`WorldServices.OrderKeptIff`, `WorldServices.OutOfOrderMisleadsUndo`). A
  second instance whose clock lags behind the first breaks this: in `WorldLag.LaggingClockMisleadsUndo`
  the undo takes back the update before the last one.
- `_assert_acyclic` is exact only because the payload is validated first: `indegree` counts every
  listed edge while `outgoing` is a set, so a repeated edge would be reported as a cycle.
- A SKIPPED prerequisite is not a DONE one, so `get_next_action` never offers its dependents
  (`PlanNextAction.NothingOfferedIff` says exactly when nothing is offered).
- `split_telegram_text` needs its minimum limit of two: at one, the step back before a CR LF pair
  would make no progress.

## Model

| member | source | states |
|---|---|---|
| GenerationDelivery.NoReceiptedMessageIsLost | src/elowyn/services/memory_rebuild.py:310-368 | After any run of workers, rebuilds, lease recovery, cleanup and crashes in which no arrival was overtaken, a message with an INGESTED receipt is an archive row and is in the bank the registry points to, even if its receipt commits after a switch; an arrival is overtaken when it has content and sorts before the offset of a rebuild that is still BUILDING and has not taken the registry lock |
| GenerationDelivery.AppendOnlyIsNotOvertaken | src/elowyn/services/memory_rebuild.py:376-392 | In a run in which new messages sort last no arrival is overtaken, whatever the rebuilds do |
| GenerationLoss.LostIffOvertaken | src/elowyn/services/memory_rebuild.py:321-392 | The condition is exact: as long as no arrival was overtaken before, the next one can end up INGESTED outside the pointed bank, by a continuation that overtakes none, if and only if it is overtaken itself |
| GenerationLoss.OvertakenArrivalCanBeLost | src/elowyn/services/memory_rebuild.py:310-392 | From every reachable state, for every batch size, an overtaken arrival has a continuation without arrivals that retains it into the old bank, receipts it, finishes the replay and switches to a bank without it; the index check of that switch is taken to pass, so the lost message is not one it samples |
| GenerationLoss.LateArrivalIsLost | src/elowyn/services/memory_rebuild.py:376-392 | It happens: a concrete run in which a message sorts before one that a rebuild has already read ends with its INGESTED receipt outside the pointed bank |
| GenerationLoss.RunIsFromArchive | src/elowyn/services/memory_rebuild.py:310-392 | In every run receipts, pages and the banks being filled hold archived messages only |
| GenerationDelivery.RegistryStaysConsistent | src/elowyn/services/memory_rebuild.py:97-164 | In every run exactly the pointed generation is ACTIVE, at most one is BUILDING, BUILDING means leased, and replayed never exceeds total |
| GenerationDelivery.CleanupDeletesOnlyDeadBanks | src/elowyn/services/memory_rebuild.py:198-238 | A bank about to be deleted is neither the pointed one, nor one of a BUILDING generation, nor one a switch is writing to |
| GenerationDelivery.ReceiptsAreFinal | src/elowyn/services/memory_ingestion.py:283-307 | Along every run of the generation protocol a recorded receipt stays, with the same outcome |
| GenerationDelivery.IngestedOnlyAfterRetain | src/elowyn/services/memory_pipeline.py:98-135 | Every INGESTED receipt of a run was preceded by a retain of that message that returned |
| GenerationSafety.StructureKept | src/elowyn/services/memory_rebuild.py:321-368 | Every protocol step keeps the registry, lock ownership, disjointness of rebuilds and what each process relies on while it waits |
| GenerationDelivery.ProgressKept | src/elowyn/services/memory_rebuild.py:310-368 | Every step that overtakes no arrival keeps the content each running rebuild has read, in its bank or in the rest of its page; that confirmed messages are in the pointed bank; and that a switch keeps what was confirmed before it took the lock |
| GenerationSafety.ArrivalShifts | src/elowyn/services/memory_rebuild.py:376-392 | An arrival only pushes rows back: what is among the first n visible rows afterwards was so before, unless it is the new message itself, sorting before row n |
| GenerationSafety.VisibleIsArchiveOrder | src/elowyn/services/memory_rebuild.py:376-392 | The replay query lists the rows that are not blank, each once, in archive order |
| GenerationDelivery.RecoveryIsExact | src/elowyn/services/memory_rebuild.py:140-164 | In every run, recovery at a time fails exactly the BUILDING rows whose lease has ended by then and leaves pointer, banks and every other row as they were |
| MemoryRebuild.EveryMessageCanBeReceipted | src/elowyn/services/memory_pipeline.py:92-135 | While a generation is pointed to and nobody holds the registry row, an idle worker can bring any archived message to its receipt: content into the pointed bank and INGESTED, any other IGNORED |
| MemoryRebuild.MemoryGenerationManager.BootstrapExisting | src/elowyn/services/memory_rebuild.py:97-138 | Registers and points at the configured bank once, reusing its row if there is one; later calls change nothing; a blank bank, and one of another backend when none is pointed, are refused and change nothing |
| MemoryRebuild.MemoryGenerationManager.RecoverInterrupted | src/elowyn/services/memory_rebuild.py:140-164 | Marks failed, without a lease, exactly the BUILDING rows whose lease ends at or before now; every other row is unchanged; returns how many there were |
| MemoryRebuild.MemoryGenerationManager.StartRebuild | src/elowyn/services/memory_rebuild.py:265-308 | Recovers stale rebuilds, then journals one BUILDING generation with a lease; refuses as already running exactly when bootstrapped and some BUILDING row has no lease or one that ends after now |
| MemoryRebuild.MemoryGenerationManager.RetainBatch | src/elowyn/services/memory_rebuild.py:310-319 | Stores the messages of a page in order into the bank under construction, up to the first one the backend refuses |
| MemoryRebuild.MemoryGenerationManager.RecordRebuildProgress | src/elowyn/services/memory_rebuild.py:417-425 | Commits the progress and extends the lease only while the generation is still BUILDING |
| MemoryRebuild.MemoryGenerationManager.ReplayArchive | src/elowyn/services/memory_rebuild.py:310-319 | Succeeds exactly when the backend takes every archive row, and then the bank holds all of them; touches only its own row |
| MemoryRebuild.MemoryGenerationManager.CatchUpArchive | src/elowyn/services/memory_rebuild.py:332-344 | Replays what was committed meanwhile under the registry lock until no row is left |
| MemoryRebuild.MemoryGenerationManager.VerifyDeriveAndSwitch | src/elowyn/services/memory_rebuild.py:321-368 | Succeeds exactly when the generation is still BUILDING, verified, and every archive row was taken; then it is live and only the previous pointer was superseded; otherwise rows and pointer are unchanged |
| MemoryRebuild.MemoryGenerationManager.MovePointer | src/elowyn/services/memory_rebuild.py:351-362 | Supersedes the previous generation, activates the new one and moves the pointer in one step |
| MemoryRebuild.MemoryGenerationManager.MarkGenerationFailed | src/elowyn/services/memory_rebuild.py:537-545 | Fails the generation if it is still BUILDING and ends the rebuild |
| MemoryRebuild.MemoryGenerationManager.Rebuild | src/elowyn/services/memory_rebuild.py:240-263 | Is a run of the protocol; succeeds exactly when explicit, bootstrapped, alone and accepted by the backend, and then the pointed bank holds every archive row; a failed rebuild leaves the pointer alone and its own generation not BUILDING |
| MemoryRebuild.MemoryGenerationManager.CleanupOrphans | src/elowyn/services/memory_rebuild.py:198-238 | Is a run of the protocol; deletes exactly the listed dead generations with their banks, stops at the first listed one that is pointed or not dead, changes no other row or bank |
| MemoryRebuild.ActiveGenerationMemoryService.Retain | src/elowyn/memory/generation.py:48-68 | Retains into the bank of the pointed ACTIVE generation while holding the registry row, or changes nothing |
| MemoryRebuild.CleanedRun | src/elowyn/services/memory_rebuild.py:206-237 | Deleting distinct dead generations one transaction at a time is a run of the protocol that removes exactly their rows and banks |
| MemoryRebuild.ReplaySteps | src/elowyn/services/memory_rebuild.py:310-319 | Retaining the first n messages of a page is a run of the protocol that stores exactly those |
| IngestionLedger.MemoryIngestionStateService.ClaimNextBatch | src/elowyn/services/memory_ingestion.py:50-148 | Walks the conversations in order and leases the first page of unreceipted messages of the first one that is neither waiting nor drained; never one that is PROCESSING with a lease after now or whose next attempt lies after now; comes back empty only if every conversation with pending messages has such a lease or retry time |
| IngestionLedger.ClaimLeavesOthers | src/elowyn/services/memory_ingestion.py:50-148 | Whatever a claim returns, a conversation it did not lease is untouched or merely released |
| IngestionLedger.ClaimRespectsLeases | src/elowyn/services/memory_ingestion.py:94-105 | A claim takes no conversation that is PROCESSING with a lease after now or waits for a retry after now, and passes over pending messages only where one of the two holds |
| IngestionLedger.ClaimWrites | src/elowyn/services/memory_ingestion.py:126-147 | The leased conversation gets the lease, one more attempt and no retry time; one passed over because it was drained becomes idle; cursor and marker stay |
| IngestionLedger.ClaimedPage | src/elowyn/services/memory_ingestion.py:107-125 | The page holds unreceipted messages of the leased conversation, the limit of them unless they are all |
| IngestionLedger.PendingIsArchiveOrder | src/elowyn/services/memory_ingestion.py:107-125 | Pending messages are exactly the unreceipted ones of the conversation, in archive order |
| IngestionLedger.PendingIsUnique | src/elowyn/services/memory_ingestion.py:92-112 | The unreceipted messages of a conversation, in archive order, are each listed once |
| IngestionLedger.MemoryIngestionStateService.RecordMessageSucceeded | src/elowyn/services/memory_ingestion.py:165-176 | Inserts the INGESTED receipt, moves the cursor and the dirty marker; a foreign message or a changed outcome is refused and changes nothing |
| IngestionLedger.MemoryIngestionStateService.RecordMessageIgnored | src/elowyn/services/memory_ingestion.py:178-187 | Inserts the IGNORED receipt and moves the cursor without touching the dirty marker; a foreign message or a changed outcome is refused and changes nothing |
| IngestionLedger.MemoryIngestionStateService.RecordReceipts | src/elowyn/services/memory_ingestion.py:283-307 | Inserts the missing receipts of a batch as INGESTED and never changes an existing one |
| IngestionLedger.MemoryIngestionStateService.MarkSucceeded | src/elowyn/services/memory_ingestion.py:150-163 | Finishes a batch: adds missing receipts, moves the cursor to its end, clears lease and failure; adds none when all are receipted; a foreign message is refused |
| IngestionLedger.MemoryIngestionStateService.MarkFailed | src/elowyn/services/memory_ingestion.py:254-266 | Records the failure and the retry time, and drops the lease |
| IngestionLedger.MemoryIngestionStateService.RenewLease | src/elowyn/services/memory_ingestion.py:239-252 | Extends the lease only of a PROCESSING conversation |
| IngestionLedger.MemoryIngestionStateService.ClaimDerivedRefresh | src/elowyn/services/memory_ingestion.py:189-218 | Returns a dirty conversation that is due with its marker, exactly when there is one |
| IngestionLedger.MemoryIngestionStateService.MarkDerivedSucceeded | src/elowyn/services/memory_ingestion.py:220-229 | Clears the marker only if it has not moved since the claim |
| LedgerRuns.LedgerStaysConsistent | src/elowyn/services/memory_ingestion.py:50-187 | For any number of workers, with crashes and expired leases: PROCESSING exactly while leased, cursor and dirty marker name receipted messages, and a receipt says INGESTED exactly for content |
| LedgerRuns.ReceiptsAreFinal | src/elowyn/services/memory_ingestion.py:283-307 | Along every interleaving a receipt stays, with the outcome it was given |
| LedgerRuns.IngestedOnlyAfterRetain | src/elowyn/services/memory_pipeline.py:98-135 | Along every interleaving an INGESTED receipt, or a worker about to write one, comes after a retain of that message that returned |
| LedgerRuns.FinishAddsNoReceipt | src/elowyn/services/memory_pipeline.py:177-184 | The finish transaction finds every message of its batch receipted already and adds no receipt |
| LedgerRuns.LeaseExcludesClaims | src/elowyn/services/memory_ingestion.py:94-98 | Over every interleaving a conversation held under a lease is claimed again only when the lease has ended, unless a worker of it finished, failed or renewed between |
| LedgerRuns.FailureDelaysClaims | src/elowyn/services/memory_ingestion.py:254-266 | Over every interleaving a conversation whose batch failed is claimed again only at its retry time, unless another worker of it finished or failed between |
| IngestionProcessor.MemoryIngestionProcessor.ProcessMessages | src/elowyn/services/memory_pipeline.py:98-135 | Handles a batch in order up to the first failure; exactly the handled messages gain receipts |
| IngestionProcessor.MemoryIngestionProcessor.ProcessBatch | src/elowyn/services/memory_pipeline.py:92-146 | A batch the backend takes ends IDLE and fully receipted; any other ends FAILED with the back-off of its attempt |
| IngestionProcessor.MemoryIngestionProcessor.ReconcileOne | src/elowyn/services/memory_pipeline.py:202-231 | Takes one dirty conversation that is due, exactly when there is one; a refresh that succeeds shrinks the dirty set, one that fails keeps it |
| IngestionProcessor.MemoryIngestionProcessor.HealthyTurn | src/elowyn/services/memory_pipeline.py:92-146 | With a backend that does not fail, a turn shrinks the backlog, or keeps it and shrinks the dirty set, or there is nothing left to do |
| IngestionProcessor.BatchShrinksBacklog | src/elowyn/services/memory_pipeline.py:92-146 | Receipting a claimed batch shrinks the unreceipted messages by min(limit, pending) |
| IngestionProcessor.MemoryIngestionProcessor.RunUntilIdle | src/elowyn/services/memory_pipeline.py:348-366 | Without failures the inner loop over a finite archive terminates with no refresh due, and with every message receipted when nobody was leased or waiting |
| IngestionProcessor.DrainedWhenIdle | src/elowyn/services/memory_pipeline.py:348-366 | A claim that finds nothing while nobody waits means every message of the archive is receipted |
| DerivedRefresh.RefreshesAreSafeIff | src/elowyn/services/memory_pipeline.py:92-231 | Whatever arrivals, crashes and expired leases: no reachable state of n workers, each with one batch or one refresh at a time, has an empty dirty marker and an ingested message that was in no snapshot, exactly when n is at most two |
| DerivedRefresh.SummaryIsSafeIff | src/elowyn/services/memory_pipeline.py:202-260 | The stored conversation summary has seen every ingested message whenever the marker is empty, in every reachable state, exactly with at most one worker |
| DerivedRefresh.NoRefreshIsLost | src/elowyn/services/memory_ingestion.py:165-229 | With at most two workers: whenever the dirty marker is empty, every ingested message was in the snapshot of a completed refresh |
| DerivedRefresh.SummaryIsCurrent | src/elowyn/services/memory_pipeline.py:202-260 | With one worker also the stored summary is that of a snapshot holding every ingested message |
| DerivedRefresh.ThreeWorkersLoseARefresh | src/elowyn/services/memory_ingestion.py:220-229 | With three a run clears the marker although an ingested message was in no snapshot: one worker, stalled in a batch until its lease ran out, sets the marker back to where another claimed its refresh |
| DerivedRefresh.TwoWorkersLeaveAStaleSummary | src/elowyn/services/memory_pipeline.py:233-260 | With two a run ends with an empty marker and a summary without an ingested message: the slower refresh overwrites the newer one |
| DerivedRefresh.SummaryStays | src/elowyn/services/memory_pipeline.py:233-338 | Along every run commits only add to what is covered, and a summary once written is never replaced by an empty one |
| DerivedRefreshLedger.BatchStepRefinesLedger | src/elowyn/services/memory_pipeline.py:92-200 | Every batch step of the refresh model is one or two transactions of the ledger: the two models agree on receipts, status and marker |
| DerivedRefreshLedger.RefreshStepMatches | src/elowyn/services/memory_ingestion.py:220-229 | A refresh changes nothing in the ledger but to clear the marker, and only if no later receipt moved it |
| RetryDelay.CapIsInvisible | src/elowyn/services/memory_pipeline.py:377-382 | Capping the exponent by the bit length of the quotient gives the uncapped delay for every attempt |
| RetryDelay.DelayIsMonotone | src/elowyn/services/memory_pipeline.py:377-382 | The delay never shrinks with the attempt, starts at the base and stays between base and maximum |
| RetryDelay.DelayDoubles | src/elowyn/services/memory_pipeline.py:377-382 | The first attempt waits the base delay, and each further one twice as long up to the maximum |
| RetryDelay.FloorIsAQuotient | src/elowyn/services/memory_pipeline.py:377-382 | The exact integer quotient is admissible, and the product before the final minimum is at most twice the maximum |
| WorldUndo.UndoRestoresRow | src/elowyn/services/world_state.py:1092-1260 | Over every history, an accepted undo gives the entity back the whole row it had just before the command that appended the reversed event, and records what it reversed |
| WorldUndo.BeforeIsARunState | src/elowyn/services/world_state.py:1092-1260 | The state recorded for an event is the state of the run that the command appending it found |
| WorldUndo.CompletionAndDeadlinesSurvive | src/elowyn/services/world_state.py:388-440 | In every reachable state, through any updates and undos: completed status exactly when the completion time is set, and a deadline type comes with a deadline |
| WorldUndo.ReachableStacksOk | src/elowyn/services/world_state.py:1098-1135 | In every run, rewinding the live events of an entity from the newest gives level by level the rows it had before each of them |
| WorldUndo.RewindAdvance | src/elowyn/services/world_state.py:1200-1250 | Taking back the changes of a well-recorded event undoes them exactly |
| WorldClock.EventTimesIncrease | src/elowyn/services/domain_mutation.py:108-134 | Whatever the clock reads, the events of a service are stamped in strictly increasing order, so the newest live event is the one with the latest time |
| WorldServices.SharedUndoRestoresRow | src/elowyn/services/world_state.py:1108-1142 | Over every history of any number of service instances whose undoable events are stamped after the live ones of their entity, an accepted undo, which finds its event by time and identifier, restores the row from just before that event |
| WorldServices.OrderKeptIff | src/elowyn/services/domain_mutation.py:118-121 | A call keeps the live events of every entity in stamped order exactly if the undoable event it appends is stamped after those of its entity |
| WorldServices.OutOfOrderMisleadsUndo | src/elowyn/services/world_state.py:1130-1142 | A call that breaks this leaves an entity whose newest event by time lies below its last one, so the next undo there would not take back the last change |
| WorldLag.LaggingClockMisleadsUndo | src/elowyn/services/world_state.py:1108-1142 | It happens: a history in order of two calls, then a description update by a fresh instance whose clock lags, is accepted but out of order, and the undo after it takes back the earlier title update and leaves the new description |
| WorldServices.SharedRowsStayValid | src/elowyn/services/world_state.py:388-440 | Over every history in order of any number of instances: completed status exactly when the completion time is set, and a deadline type comes with a deadline |
| WorldServices.SharedGraphsStayOk | src/elowyn/services/world_state.py:1217-1240 | Over every history of any number of instances, in order or not, parents stay forests, dependencies a DAG and supersession links mutually inverse |
| WorldServices.FreshInstanceInOrderIff | src/elowyn/services/domain_mutation.py:118-121 | An update by an instance that has not stamped an event yet meets the condition exactly if its clock is past every live event of the entity, or shows the same time and its identifier is greater |
| WorldServices.NewestIsTop | src/elowyn/services/world_state.py:1108-1142 | While the live events are in stamped order, the newest by time and identifier is the top of the stack of its entity |
| WorldServices.NewestExists | src/elowyn/services/world_state.py:1116-1142 | Whenever some event qualifies, one of them is the newest by time and identifier |
| WorldServices.InstanceStampsIncrease | src/elowyn/services/domain_mutation.py:108-134 | Whatever its clock reads, an instance stamps its events after its own last one and after each other, never before now, and knows nothing of the times of other instances |
| WorldGraphs.ReachableGraphsOk | src/elowyn/services/world_state.py:255-302 | Every reachable World State keeps the three parent relations as forests over active rows, the task dependencies as a DAG, and supersession links mutually inverse |
| WorldGraphs.ParentWriteKeepsForest | src/elowyn/services/world_state.py:255-281 | Writing a parent the validation allows keeps the forest |
| WorldGraphs.UndoKeepsGraphs | src/elowyn/services/world_state.py:1217-1240 | An undo that restores an old parent keeps every graph |
| WorldGraphs.UpdatedColumns | src/elowyn/services/world_state.py:388-440 | After an update every provided column holds its new value, every other its old one, and the completion time follows the status |
| Graphs.AddEdge | src/elowyn/services/world_state.py:283-302 | Adding an edge keeps a graph acyclic exactly when its target did not reach its source |
| WorldState.WorldStateService.ValidateParentChain | src/elowyn/services/world_state.py:255-281 | The upward walk accepts exactly the parents that are active and whose ancestors do not include the child, with the right error otherwise |
| WorldState.WorldStateService.DependencyWouldCycle | src/elowyn/services/world_state.py:283-302 | The frontier search answers true exactly when the prerequisite is reachable from the dependent task |
| WorldState.WorldStateService.AppendEvent | src/elowyn/services/domain_mutation.py:108-134 | Appends one event stamped after the last one |
| WorldState.WorldStateService.CreateRow | src/elowyn/services/world_state.py:304-368 | Creates a task, project or goal with its dependencies and event, or reports the first error and changes nothing; keeps every graph |
| WorldState.WorldStateService.WriteColumns | src/elowyn/services/world_state.py:393-426 | Comparing and writing columns one after the other records exactly the columns that differ |
| WorldState.WorldStateService.ApplyPatch | src/elowyn/services/world_state.py:393-438 | Writes the columns and then the completion time, recording every change |
| WorldState.WorldStateService.UpdateRow | src/elowyn/services/world_state.py:370-459 | Updates a row with its event, or reports the first error and changes nothing; keeps every graph |
| WorldState.WorldStateService.UpdateCriterion | src/elowyn/services/world_state.py:784-828 | Updates a success criterion and, when its evaluation changed, who evaluated; one event on the goal |
| WorldState.WorldStateService.CreateDecision | src/elowyn/services/world_state.py:857-917 | Creates a decision and retires the active one it replaces, linking both ways |
| WorldState.WorldStateService.RevokeDecision | src/elowyn/services/world_state.py:919-938 | Revokes only an active decision |
| WorldState.WorldStateService.AddTaskDependency | src/elowyn/services/world_state.py:996-1029 | Stores the edge from the prerequisite to the dependent task unless it exists; refuses equal or inactive tasks, and as a cycle exactly a new edge whose dependent task leads to the prerequisite already |
| WorldOutcomes.AddDependencyOutcome | src/elowyn/services/world_state.py:996-1029 | An accepted dependency adds exactly the edge from prerequisite to dependent and one event on the dependent; an existing one changes nothing |
| WorldOutcomes.AddDependencyRefused | src/elowyn/services/world_state.py:996-1029 | Which error is returned when: equal tasks, an inactive task, or a dependent task from which the prerequisite can be reached |
| WorldOutcomes.CreateRowOutcome | src/elowyn/services/world_state.py:304-368 | A created row holds the given columns, its criteria unknown, its completion time if it starts completed, an edge from each prerequisite to it, and one event |
| WorldOutcomes.CreateRowRefused | src/elowyn/services/world_state.py:304-368 | Which error a creation is refused with, and when |
| WorldOutcomes.UpdateRowOutcome | src/elowyn/services/world_state.py:370-459 | In every run an accepted update writes exactly the given columns, clears a date type with its date, sets or clears the completion time with the status, and logs one event named after the change that records exactly the differences |
| WorldOutcomes.UpdateRowRefused | src/elowyn/services/world_state.py:370-459 | Which error an update is refused with, and when; a parent is refused as a cycle exactly when the row is found among its ancestors |
| WorldOutcomes.NothingChangedIff | src/elowyn/services/world_state.py:370-459 | An update that passes every check is refused as changing nothing exactly when no given column differs |
| WorldOutcomes.UpdateCriterionOutcome | src/elowyn/services/world_state.py:784-828 | An accepted criterion update writes the given parts, and the evaluator exactly when status, confidence or summary changed |
| WorldOutcomes.SupersedingOutcome | src/elowyn/services/world_state.py:857-917 | Replacing an active decision links both ways, retires the old one and logs the retirement before the creation |
| WorldOutcomes.CreateDecisionRefused | src/elowyn/services/world_state.py:857-917 | Which error a decision is refused with, and when |
| WorldOutcomes.UndoOutcome | src/elowyn/services/world_state.py:1092-1260 | An accepted undo gives every column the newest live event recorded its old value, leaves the others, and logs the reverse of the changes as its reversal |
| WorldOutcomes.UndoRefused | src/elowyn/services/world_state.py:1092-1260 | When there is nothing to undo, and when the entity is unknown or superseded |
| WorldRoundTrip.UpdateThenUndo | src/elowyn/services/world_state.py:1092-1260 | In every run an accepted update can be undone at once: the undo is accepted and every row is as it was before the update |
| WorldState.WorldStateService.RewindChanges | src/elowyn/services/world_state.py:1200-1250 | Takes the recorded changes back in order, validating a restored parent against the present forest, and records the reverse |
| WorldState.WorldStateService.FindTarget | src/elowyn/services/world_state.py:1108-1142 | Finds the newest event not yet reversed, on the given entity or on any |
| WorldState.WorldStateService.UndoLastChange | src/elowyn/services/world_state.py:1092-1260 | Undoes that event or reports why not and changes nothing; keeps every graph |
| WorldState.NewestIsNewestOnItsEntity | src/elowyn/services/world_state.py:1116-1142 | The newest live event overall is the newest live one on its own entity, so the two queries agree |
| PlanGraph.AssertAcyclic | src/elowyn/services/planning.py:110-128 | Answers a lookup failure for an unknown item, and otherwise accepts exactly the acyclic graphs whose edges are listed once |
| PlanGraph.ValidateGraphReferences | src/elowyn/domain/planning_commands.py:107-129 | Accepts exactly the payloads that name items, ordinals and dependencies once, no unknown item and no self-dependency; otherwise it names a fault the payload has |
| PlanGraph.ExactOnValidatedPayloads | src/elowyn/services/planning.py:110-128 | On a validated payload the acyclicity check accepts exactly the acyclic graphs |
| PlanGraph.RepeatedEdgeIsReportedAsCycle | src/elowyn/services/planning.py:112-116 | Without edge uniqueness the check is not exact: an acyclic graph with a repeated edge is reported as a cycle |
| PlanGraph.StuckEarly | src/elowyn/services/planning.py:117-128 | Running out of frontier before every item is visited shows a cycle or a repeated edge |
| PlanGraph.AllVisited | src/elowyn/services/planning.py:117-128 | Visiting every item shows the graph acyclic and its edges unrepeated |
| PlanNextAction.GetNextAction | src/elowyn/services/planning_query.py:711-753 | Returns the first item in progress, else the first unstarted item whose prerequisites are all done, else none |
| PlanNextAction.NothingOfferedIff | src/elowyn/services/planning_query.py:735-753 | On an acyclic plan nothing is offered exactly when nothing is in progress and every unstarted item is held back by a chain of unstarted items from a waiting, blocked or skipped one |
| PlanNextAction.NoDeadlock | src/elowyn/services/planning_query.py:711-753 | While every item is unstarted, in progress or done, nothing is offered exactly when all are done |
| PlanNextAction.SkippedPrerequisiteStallsPlan | src/elowyn/services/planning_query.py:745-753 | A skipped prerequisite is not a done one: a concrete plan whose unstarted item is never offered |
| PlanningRuns.ApprovedPlanFinishes | src/elowyn/services/planning_query.py:711-753 | In every run, from a fresh approval on: marking done the item the query offers, again and again, never gets stuck and completes all n items of the version in exactly n progress updates; rows are listed by ordinal and identifier |
| PlanNextAction.DrivenOrderRespectsDependencies | src/elowyn/services/planning_query.py:745-753 | In that order every item comes after its prerequisites |
| PlanningRuns.ReachablePlanNeverDeadlocks | src/elowyn/services/planning_query.py:711-753 | In every reachable planning state the items of an approved version form an acyclic plan, so it never deadlocks while no item is stalled |
| PlanningSteps.ReachablePlanningOk | src/elowyn/services/planning.py:313-351 | Every reachable planning state keeps the lifecycle, numbering, lineage, strategy, item graph, progress, presentation and approval invariants |
| PlanningRuns.NumbersAreExactly | src/elowyn/services/planning.py:332-337 | The versions of a plan are numbered exactly 1..n |
| PlanningRuns.ApprovalIffEverApproved | src/elowyn/services/planning.py:578-585 | A version carries approval metadata exactly when it was the approved one at some point of the run |
| PlanningRuns.FirstApprovalNeedsPresentation | src/elowyn/services/planning.py:533-560 | A version never approved before becomes approved only from candidate, by a user message whose conversation had been shown it before |
| PlanningRuns.OneApprovedForever | src/elowyn/services/planning.py:476-531 | Once a version was approved its plan has exactly one approved version in every later state, and the strategy names it and carries its text |
| PlanningRuns.ProgressOfEverApproved | src/elowyn/services/planning.py:593-605 | Progress rows exist for exactly the items of versions that were ever approved |
| PlanningRuns.ProgressSurvives | src/elowyn/services/planning.py:671-731 | Candidates, approvals, rejections and reactivations preserve recorded progress; only an update of the item changes it |
| PlanningSteps.PersistedIsAcyclic | src/elowyn/services/planning.py:353-374 | Renaming the payload items to their stored identifiers keeps the dependency graph acyclic, so no stored candidate has a cycle |
| PlanningOutcomes.CandidateStored | src/elowyn/services/planning.py:353-374 | After acceptance the version has exactly the drafted items under their identifiers, and a dependency between two identifiers is stored if and only if the draft lists one between their handles; no other edge is stored |
| PlanningOutcomes.CandidateOutcome | src/elowyn/services/planning.py:313-351 | The new version takes the next number of its plan, the previous candidate is superseded, and no other version changes |
| PlanningOutcomes.CandidateRefused | src/elowyn/services/planning.py:224-311 | Which error a payload is refused with, and when |
| PlanningOffers.DraftStays | src/elowyn/services/planning.py:353-374 | In every run a version keeps exactly the items and dependencies of the draft that created it |
| PlanningOffers.EveryVersionWasDrafted | src/elowyn/services/planning.py:224-399 | Every version of a run was created by an accepted candidate |
| PlanningOffers.OffersByDraft | src/elowyn/services/planning_query.py:711-753 | In every run an item of an approved version is offered as unstarted only when every item its draft names as prerequisite is done; the offer is the first such item by ordinal, unless one is in progress |
| PlanningOutcomes.UserMessageIs | src/elowyn/services/planning.py:101-109 | What counts as the authorizing message: a user message behind a user-message source, shown the version before, in the same conversation, by an assistant message |
| PlanningOutcomes.RejectOutcome | src/elowyn/services/planning.py:441-474 | What a rejection writes, when it repeats, and which error it is refused with |
| PlanningOutcomes.ApproveOutcome | src/elowyn/services/planning.py:533-617 | An approval makes the version the only approved one, takes its text as strategy, starts the progress of its items and records source and time; repeating it changes nothing |
| PlanningOutcomes.ApproveRefused | src/elowyn/services/planning.py:533-617 | Which error an approval is refused with, and when |
| PlanningOutcomes.ReactivateOutcome | src/elowyn/services/planning.py:619-694 | A reactivation does the same but keeps the first approval and all progress |
| PlanningOutcomes.UpdateProgressOutcome | src/elowyn/services/planning.py:696-731 | An accepted update stores the given status, note and source for that item and nothing else; repeating a status from the same source changes nothing, and each refusal has its condition |
| PlanningService.Service.AcceptStrategy | src/elowyn/services/planning.py:476-531 | Creates the plan strategy on first acceptance and makes it the text of the accepted version |
| PlanningService.Service.ApprovePlanVersion | src/elowyn/services/planning.py:533-617 | Approves a presented candidate, supersedes the previous approved version, accepts its strategy and starts its progress, or reports the first error and changes nothing |
| PlanningService.Service.ReactivateHistoricalPlanVersion | src/elowyn/services/planning.py:619-694 | Makes a formerly approved, presented version the approved one again, keeping its first approval and all progress |
| PlanningGroundedService.GroundedPlanService.CreatePlan | src/elowyn/services/planning.py:131-172 | Creates a plan with its goals, which must be active, different and at most one of them primary, or reports the first error and changes nothing |
| PlanningGroundedService.GroundedPlanService.LinkGoal | src/elowyn/services/planning.py:174-222 | Links an active goal to a plan once; a second primary goal and a changed role are refused, the same link again changes nothing |
| PlanningGroundedService.GroundedPlanService.CreateCandidate | src/elowyn/services/planning.py:224-399 | Validates the payload, completes the basis with the latest event of every linked goal that is not stated, checks tasks, basis, acyclicity and evidence in that order, then supersedes the current candidate and stores the numbered version with exactly the items, dependencies and bases of the draft, or reports the first error and changes nothing |
| PlanningFootings.BasisOutcome | src/elowyn/services/planning.py:240-311 | An accepted candidate records exactly the bases it states and, for each linked goal it does not state, the one event that comes after all others of the goal |
| PlanningFootings.CandidateAcceptedIff | src/elowyn/services/planning.py:224-399 | Beyond its payload a candidate is accepted exactly if nothing is listed twice, its tasks are active, its bases hold, linked goals are active and have events, and its evidence is stored |
| PlanningFootings.CandidateErrors | src/elowyn/services/planning.py:240-311 | Which error comes first: an inactive task, a goal without events, the first stated basis that fails, a goal no longer active, a cycle, missing evidence |
| PlanningFootings.LinkGoalOutcome | src/elowyn/services/planning.py:174-222 | What linking a goal writes, and which error it is refused with when |
| PlanningFootings.CreatePlanOutcome | src/elowyn/services/planning.py:131-172 | When a plan is accepted, and that it is linked to the given goals in their roles and to no other |
| PlanningGrounded.CandidateCoversItsGoals | src/elowyn/services/planning.py:240-270 | In every run an accepted candidate rests on every goal its plan was linked to: on the event it states, or on the latest event of the goal |
| PlanningGrounded.ReachableGroundOk | src/elowyn/services/planning.py:272-285 | In every run links join plans to goals, a plan has at most one primary goal, and every recorded basis is an event of an entity of the kind its role says |
| PlanningGrounded.RunProjects | src/elowyn/services/planning.py:131-399 | Every run with goals, bases and events is, without them, a run of the planning commands, so the lifecycle theorems hold there too |
| PlanningService.Service.RetireCurrent | src/elowyn/services/planning.py:313-330 | Supersedes the one current version of the plan, if there is one |
| Consistency.ConsistencyVerifier.VerifyDirectedCycles | src/elowyn/support/consistency.py:577-593 | Terminates, reports something exactly when the links form a cycle, and everything reported lies on one |
| Consistency.ConsistencyVerifier.Visit | src/elowyn/support/consistency.py:581-590 | Visiting a node reports only nodes on cycles, and without a report leaves it finished after everything it leads to |
| Consistency.ConsistencyVerifier.VerifyItemCycle | src/elowyn/support/consistency.py:334-370 | Reports a version exactly when the dependencies among its own items contain a cycle |
| Consistency.ConsistencyVerifier.VisitItems | src/elowyn/support/consistency.py:349-364 | The stack-driven search visits every item exactly when the graph is acyclic |
| Consistency.SoundNames | src/elowyn/support/consistency.py:577-593 | A cycle search names only nodes on cycles, under its own code |
| Consistency.AllBlackIsAcyclic | src/elowyn/support/consistency.py:577-593 | A finishing order that covers the graph shows it acyclic |
| WorldConsistency.VerifyParentCycles | src/elowyn/support/consistency.py:569-575 | Reports a parent cycle of a kind exactly when there is one |
| WorldConsistency.VerifyDependencies | src/elowyn/support/consistency.py:497-515 | Names exactly the dependencies that do not join existing tasks; reports a cycle exactly when there is one, and only tasks on it |
| WorldConsistency.VerifySupersedeChains | src/elowyn/support/consistency.py:532-567 | Names exactly the decisions and entities whose predecessor or successor does not match, and a supersession cycle exactly when there is one |
| WorldConsistency.VerifyWorld | src/elowyn/support/consistency.py:139-144 | The report is empty exactly when the World State passes all of these |
| WorldConsistency.ReachableWorldPasses | src/elowyn/support/consistency.py:532-593 | Every state the World State service can reach passes the parent-cycle, dependency and supersession checks |
| WorldConsistency.SupersessionIsDisjointPaths | src/elowyn/services/world_state.py:857-917 | Decision links are mutually inverse, and no decision is superseded by two or supersedes two |
| PlanningConsistency.VerifyCardinality | src/elowyn/support/consistency.py:172-182 | Names exactly the plans with two versions of the status |
| PlanningConsistency.VerifyStrategies | src/elowyn/support/consistency.py:182-200 | Names under each code exactly the plans whose strategy is missing, the strategies whose version is missing, and those whose plan does not name them |
| PlanningConsistency.VerifyVersions | src/elowyn/support/consistency.py:172-211 | Names exactly the plans with two candidates or two approved versions, the versions without a plan, and those based on a version of another plan |
| PlanningConsistency.VerifyContent | src/elowyn/support/consistency.py:213-338 | Names exactly the items without a version and the progress of items whose version was never approved |
| PlanningConsistency.VerifyPresentations | src/elowyn/support/consistency.py:238-252 | Names exactly the presentations of unknown versions and those not made by an assistant message |
| PlanningConsistency.VerifyApprovals | src/elowyn/support/consistency.py:254-283 | Names exactly the approved versions without an authorizing user message, and those never presented |
| PlanningConsistency.VerifyItemGraphs | src/elowyn/support/consistency.py:334-370 | Names exactly the dependencies that leave their version, and the versions whose own items wait for each other in a cycle |
| PlanningConsistency.VerifyBasis | src/elowyn/support/consistency.py:285-309 | Names under each code exactly the events of bases without a version, not of the stated entity, or of the wrong kind |
| PlanningConsistency.VerifyLinks | src/elowyn/support/consistency.py:311-322 | Names exactly the goal links that do not join a plan to a goal |
| PlanningConsistency.VerifyPlanning | src/elowyn/support/consistency.py:147-370 | The report is empty exactly when plans, versions, strategies, items, bases, goal links, presentations and approvals pass their PLAN and STRATEGY checks |
| PlanningConsistency.ReachablePlanningPasses | src/elowyn/support/consistency.py:147-370 | Every state the planning services can reach passes all of them |
| Telegram.SplitTelegramText | src/elowyn/transport/telegram.py:57-83 | Refuses a limit below two; otherwise terminates with chunks that concatenate to the text, each within the limit, nonempty unless the text is empty, ending at the preferred boundary and never between CR and LF |
| Telegram.BoundedEnd | src/elowyn/transport/telegram.py:95-109 | Finds the longest run within the limit, one character shorter if it would separate CR from LF, and fails only when the first character does not fit |
| Telegram.BoundedEndAdvances | src/elowyn/transport/telegram.py:95-109 | From a limit of two on, the step back before a CR LF pair still makes progress |
| Telegram.LimitOneStalls | src/elowyn/transport/telegram.py:61-62 | At a limit of one it would not: before a CR LF pair the bounded end stays at the start |
| Telegram.Cut | src/elowyn/transport/telegram.py:69-82 | A chunk ends after the last blank line of its window, else after its last line, else at the bound, and keeps the guarantees of the bound |
| Telegram.UnitsAreUtf16 | src/elowyn/transport/telegram.py:112-113 | The counted units are the length of the UTF-16 encoding (section 2.1 of RFC 2781) |
| Telegram.SurrogatesOf | src/elowyn/transport/telegram.py:112-113 | A character above the basic plane is two units, a high and a low surrogate holding its bits (section 2.1 of RFC 2781), any other is itself |
| Telegram.CutMeans | src/elowyn/transport/telegram.py:69-82 | A chunk that is not the last ends at the last blank line that fits, or without one at the last line that fits, or without one as late as the limit and a CR LF pair allow |
| DeepMemory.ClipUtf8 | src/elowyn/services/deep_memory.py:368-380 | Keeps a text within budget; otherwise keeps exactly the longest code-point-aligned prefix that leaves room for the marker, plus the marker, or nothing when even the marker does not fit |
| DeepMemory.ClippedFits | src/elowyn/services/deep_memory.py:368-380 | A clip never exceeds its budget, and is flagged exactly when it differs from the text |
| DeepMemory.FittingIsLongest | src/elowyn/services/deep_memory.py:368-380 | The kept prefix fits and one more character would not |
| DeepMemory.ClippedIsLongest | src/elowyn/services/deep_memory.py:368-380 | A text over budget keeps the longest prefix that leaves three bytes for U+2026, and that character, or nothing below three bytes |
| Utf8.PrefixDecodesIffAligned | src/elowyn/services/deep_memory.py:374-379 | A prefix of an encoding decodes exactly when it ends between two characters, and then to the characters before that point |
| Utf8.EncodeDecode | src/elowyn/services/deep_memory.py:374-379 | The strict decoder accepts only encodings (section 3 of RFC 3629) |
| Utf8.DecodeEncode | src/elowyn/services/deep_memory.py:369-379 | Decoding an encoding gives the text back |
| Utf8.EncodedBits | src/elowyn/services/deep_memory.py:369-379 | The table of section 3 of RFC 3629: lengths by value, leading and continuation bytes, and the bits they hold |
| DeepMemory.Recall | src/elowyn/services/deep_memory.py:153-208 | Refuses an empty query or one over its budget, and reports an unavailable backend; otherwise the context is the greedy choice of lines, within byte budget and result limit, and the truncation flag is set exactly when a memory was left out or clipped |
| DeepMemory.LineHolds | src/elowyn/services/deep_memory.py:178-183 | A recalled line is its lead and then its text clipped to 320 bytes |
| DeepMemory.JoinedHolds | src/elowyn/services/deep_memory.py:178-208 | The context starts with the header and holds every chosen line after a line feed |
| DeepMemory.Reflect | src/elowyn/services/deep_memory.py:210-232 | Refuses an empty query or one over its budget, and reports an unavailable backend; otherwise the synthesis is clipped to what the header leaves, so the whole text is within budget |
| DeepMemory.ExactSource | src/elowyn/services/deep_memory.py:234-260 | The source text and its surrounding messages together never exceed the configured budget |
| DeepMemory.SurroundingContext | src/elowyn/services/deep_memory.py:262-318 | Neighbours are clipped in order to the snippet limit or what is left; complete exactly when all are shown unchanged |
| DeepMemory.SurroundingShows | src/elowyn/services/deep_memory.py:262-318 | The i-th surrounding message is the i-th neighbour clipped to 320 bytes or to what is left, and messages stop only when nothing is left |
| Consolidation.ReachableObservationsOk | src/elowyn/services/memory_consolidation.py:44-116 | Over any sequence of consolidations: supersession is acyclic and stays within a claim and scope, live statements of a topic differ, confidence is weighted support over weighted total, and a message counts once |
| Consolidation.ChainEndsLive | src/elowyn/services/memory_consolidation.py:104-113 | Every chain of successors ends in a live observation of the same claim and scope |
| Consolidation.ObservationConsolidationService.Consolidate | src/elowyn/services/memory_consolidation.py:44-116 | Refuses a candidate without evidence or with a correction that is not the user's; otherwise finds or creates the observation of the statement, adds one support per message to it and one contradiction to its competitors, refreshes all, and on an explicit correction supersedes the competitors |
| Consolidation.DistinctIsLast | src/elowyn/services/memory_consolidation.py:182-195 | Of several pieces of evidence from one message exactly the last counts, and no message is dropped |
| Consolidation.ObservationConsolidationService.AddTo | src/elowyn/services/memory_consolidation.py:198-223 | Adds evidence unless its message already counted for the observation |
| Consolidation.ObservationConsolidationService.Refresh | src/elowyn/services/memory_consolidation.py:225-257 | Sets confidence to weighted support over weighted total; the status is CANDIDATE before two entries support, then CONTESTED if some entry contradicts, else ACTIVE |
| ConsolidationOutcomes.EveryStatusIsRight | src/elowyn/services/memory_consolidation.py:225-257 | In every run each live observation is CANDIDATE before two of its entries support, CONTESTED if two support and one contradicts, ACTIVE if two support and none contradicts, except that one an explicit correction has just settled is ACTIVE |
| ConsolidationOutcomes.EveryConfidenceIsTheShare | src/elowyn/services/memory_consolidation.py:225-250 | In every run the confidence is the weight of supporting entries over that of all, a correction weighing two |
| ConsolidationOutcomes.CorrectionMeans | src/elowyn/services/memory_consolidation.py:80-116 | A request is a correction exactly when the last evidence of some message is marked so and another live observation of the topic exists |
| ConsolidationOutcomes.ConsolidateOutcome | src/elowyn/services/memory_consolidation.py:44-116 | What one consolidation writes: which entries the supported observation and its rivals gain, and what becomes of the rivals |
| Consolidation.ConsolidationKeepsOk | src/elowyn/services/memory_consolidation.py:44-116 | One consolidation keeps all of these |
| Consolidation.AddAllKeepsEntries | src/elowyn/services/memory_consolidation.py:198-223 | Adding evidence keeps every entry there was and one entry per message |

## Left out

- IngestionLedger.MemoryIngestionStateService.MarkFailed: does not say that only the lease holder can call it, because the code does not check; a worker whose lease expired can fail a conversation another worker has leased since. The receipt theorems hold regardless.
- PlanningGroundedService.GroundedPlanService.CreateCandidate: does not store the inference source with its confidence and evidence, the link from an item to its task, and the texts of a version.
- Entities and events of the planning ground: new entities, removals and events, also those the planning services write for their own plans and strategies, arrive as facts at any time; that an active entity has its typed row is taken for granted.
- Column constraints over histories out of order: an undo can ask for a row the check constraints of its table refuse (`src/elowyn/db/models.py:524-529`); the database then rejects the transaction, while `UndoEvent` accepts it. This is why `SharedRowsStayValid` is about histories in order.
- PlanNextAction.GetNextAction: takes the ordered rows of the approved version as the query returns them; `PlanningRuns.Lists` says which rows those are in a planning state.
- MemoryRebuild.MemoryGenerationManager.VerifyDeriveAndSwitch: takes one flag for whether the index check and the rebuilding of derived observations succeed; the sampled recalls and retries behind it are not modelled.
- IngestionLedger.MemoryIngestionStateService.ClaimDerivedRefresh: may take any conversation that is due, where the code takes the least recently updated one; row update times are not modelled.
- WorldState.WorldStateService.UpdateRow: does not attribute importance and estimate to the source of the update.
- WorldState.WorldStateService.CreateDecision: does not store texts and alternatives, nor the change lists of decision events.
- WorldUndo.UndoRestoresRow: does not cover `importance_source_id` and `estimate_source_id`, which the code attributes to the undo itself instead of restoring.
- Consolidation.ObservationConsolidationService.Consolidate: compares statements, claims and scopes as already normalized values; trimming, case folding and the length limits of the candidate are not modelled.
- RetryDelay.CapIsInvisible: takes the quotient of the two durations as any value that is not below a power of two the exact quotient reaches, rather than modelling floating-point division.
- Telegram.SplitTelegramText: splits the text it is given; removing markdown and tables before (`clean_telegram_text`) is not modelled.
- DeepMemory.Recall: takes the relevant memories and the fixed part of each line as given; collapsing the whitespace of the query, relevance ranking and the backend call are not modelled.
- DeepMemory.Reflect: takes the synthesis as the backend returns it, or none; the backend call and its time-out are not modelled.
- WorldState.WorldStateService.CreateRow: takes the identity as an argument that must be unused, and does not store goal links, sources, confidences or alternatives.
- Memory banks are sets of message identifiers with an idempotent retain per operation identifier; the network client, time-outs and the semantics stored with a message are not modelled, and deriving an operation identifier from a message is taken to be injective.
- PostgreSQL locking below the registry row lock (`skip_locked`, advisory locks, read-committed anomalies): each transaction is one step.
- Recall and reflect read the registry and the generation without a lock; nothing is claimed about them racing a switch.
- The archive of the ingestion processor class is fixed during a catch-up; arrivals between its transactions are in the multi-worker state machine.
- Rebuilding derived observations during a switch, and diagnostics.
- Goal and entity links, entity relations, project summaries, plan staleness, version comparison and history queries: they would only add easy members.
- Identity and provenance checks of the verifier outside graphs, decisions and planning (missing rows, events, sources, relation types).
- The assistant, its prompts and tool routing, message semantics, database migrations, deployment and audit scripts.
