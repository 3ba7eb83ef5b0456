# Verified model of the DKG node's core services

This project models five parts of the node under `ot-node-docker/src` in Dafny and proves what they are for:

* **Replication quorum** of publish, update and get (`QuorumProtocol`, `QuorumTermination`, `QuorumMessages`,
  `OperationService`): nodes are contacted batch by batch, every answer is counted under a mutex, and the snapshot of
  the counts is acted on later, in any interleaving.
* **Command executor** (`CommandScheduler`, `TokenConservation`, `CommandLifetime`, `CommandHistory`, `CommandQueue`,
  `CommandExecutor`): database rows, waiting queue, timers and workers; delays, deadlines, repetition, retries, error
  recovery, child commands and replay after a restart.
* **State finalization** over reference-counted triple stores (`TripleStore`, `StateFinalization`, `TripleStoreService`,
  `PendingStorageService`).
* **Hash ring, score and bids** (`HashRing`, `LinearSum`, `BidArithmetic`).
* **Event batching and paged table pull** (`EventBatching`, `EventCalls`, `BlockchainEventListener`,
  `ShardingTablePull`).

Each part has a specification on values, whose main results are about every input, every run or every interleaving. The
classes follow the source method by method, and each of their methods is proved to have exactly the effect of the
specification. `Arithmetic` and `Common` hold shared facts. `dafny verify dfyconfig.toml` checks everything.

## Where the code differs from what one would expect

The model does what the code does. These are the places where a natural property fails, with the condition under which
it holds:

* `get-service.js` tests the number of failures for the end of a batch. With a quorum above one, batches above one and
  more than one node, a first success (zero failures) already looks like the end of a batch. `RuleIsSoundIff` gives the
  exact condition; the node itself always uses a quorum of one for get, for which the rule is right.
* An operation over no nodes is never marked (`SettledOutcome`); `find-nodes-command.js` keeps such operations out.
* A pass of `_execute` loses track of a row in exactly two cases (`ExecuteConservesIff`): packing throws while a failed
  command is being repeated (`RepeatIsLost` is such a run), or only some children of a non-transactional command can be
  inserted (`ChildIsLost`). The handlers of the repository reach neither: none overrides `pack`, which returns its
  argument (`command.js:44`), and each continues with at most one command (`command.js:62-83`), so that all their runs
  keep every row (`PlainHandlersKeepTrack`). Other commands are not affected by a loss (`TokensAreConserved`).
* A command that is added with its own delay, and whose delay exceeds the longest timer, waits twice as long
  (`LongDelayCountsTwice`).
* A restart brings back only children whose parent completed or is gone; unfinished root commands stay in the table
  (`ReplayRestoresIff`).
* `countAssetsWithAssertionId` is documented to count assets. It compares a list with a number, which is never true, so
  that it returns the number of links. Both readings are modelled and lead to the same finalized state
  (`StepsRefineFinalized`).
* A second delivery of a finalization event changes the store exactly if the cached entry had a private assertion of
  another id and no public assertion (`RedeliveryIsIdempotentIff`; `RedeliveryCanSpoil` is such a store). Both writers
  of the pending storage always cache a public assertion (`local-store-command.js:79`,
  `v1-0-0-handle-update-request-command.js:52`), so that the node does not reach this case (`PublicFilesAreRepeatable`).
* A farther peer can score higher for two reasons. The reduction of a normalized distance to 64 bits does it in
  neighbourhoods that are much wider than the divisor (`ReductionBreaksOrder`); it never happens up to nine times the
  divisor (`NeighboursFit64`), and without compensation exactly if the largest distance does not fit in 64 bits
  (`ScoreOrderIff`). Compensation does it at the border between two multipliers (`CompensationBreaksOrder`), but not for
  two distances with one multiplier, nor for two that are farther apart than what compensation loses
  (`NearerNeighbourScoresAtLeast`), which is less than a millionth for distances of the order of the ring
  (`MillionthApartIsSeparated`).
* After its end an agreement can still bid 0 or 1 wei; `BidCoversAskIff` says when that is enough for the ask.

## Model

| member | source | states |
|---|---|---|
| QuorumProtocol.AtMostOneMark | ot-node-docker/src/service/publish-service.js:63-103 | in every interleaving of recording, acting and sending there is at most one terminal marking; completed only with a quorum of COMPLETED answers, failed only after every found node answered without one |
| QuorumProtocol.SettledOutcome | ot-node-docker/src/service/operation-service.js:30-60 | once everything contacted has answered and every snapshot was acted on, the operation is marked completed iff the quorum was reached, failed iff all found nodes answered with fewer, and unmarked iff no node was found |
| QuorumMessages.MessagesArePrefix | ot-node-docker/src/commands/protocols/common/protocol-schedule-messages-command.js:25-66 | in every run the messages went to the first found nodes, one to each, in order: read off what each scheduling step adds to the contacts |
| QuorumMessages.SentAreAnsweredOrOutstanding | ot-node-docker/src/service/publish-service.js:30-46 | whoever was sent a message has answered or still has to, each message once |
| QuorumMessages.EveryContactAnswersOnce | ot-node-docker/src/service/publish-service.js:63-103 | in a settled run exactly the contacted nodes answered, each once, and all found ones if the quorum was missed |
| QuorumProtocol.BatchesAreSlices | ot-node-docker/src/commands/protocols/common/protocol-schedule-messages-command.js:25-66 | the batches are consecutive, disjoint slices of the found nodes and form a prefix of them |
| QuorumProtocol.BatchesWaitForAnswers | ot-node-docker/src/service/publish-service.js:88-102 | a later batch is sent once, when exactly all earlier nodes have answered and the quorum is missing; none waits after the quorum |
| QuorumProtocol.RunIsBounded | ot-node-docker/src/service/publish-service.js:63-103 | where the batch test is sound, every run has at most three steps per found node plus one |
| QuorumTermination.EveryRunEnds | ot-node-docker/src/service/get-service.js:143-169 | every run of every configuration ends within a bound that depends on nodes and batch size, also where get acts too early |
| QuorumProtocol.RuleIsSoundIff | ot-node-docker/src/service/get-service.js:143-169 | the failure test of get never gives up or sends a batch early iff the quorum is one, batches hold one node, or at most one node was found |
| QuorumProtocol.UnsoundGetRun | ot-node-docker/src/service/get-service.js:75-85 | for every other configuration, a run in which one success makes get act as if a batch had failed |
| QuorumProtocol.StepKeepsInv | ot-node-docker/src/service/publish-service.js:30-103 | every step keeps the invariant on batches, pending snapshots, waiting batches and markings |
| QuorumProtocol.QuorumAnswerAt | ot-node-docker/src/service/publish-service.js:63-66 | the answer of a marking is that of the response whose count is the quorum |
| OperationServices.OperationService.GetResponsesStatuses | ot-node-docker/src/service/operation-service.js:30-60 | records the response and returns per keyword the completed and failed counts of all rows |
| OperationServices.OperationService.RecordResponse | ot-node-docker/src/service/publish-service.js:38-46 | takes the answer of one contacted node and its snapshot, as the record step of the protocol |
| OperationServices.OperationService.AllCompleted | ot-node-docker/src/service/publish-service.js:67-73 | true iff every keyword with an answer has the quorum |
| OperationServices.OperationService.ActForReplication | ot-node-docker/src/service/update-service.js:63-103 | acts on a snapshot for publish and update, as the act step of the protocol |
| OperationServices.OperationService.ActForGet | ot-node-docker/src/service/get-service.js:75-169 | acts on a snapshot for get, whose two tests are independent, as the act step of the protocol |
| OperationServices.OperationService.MarkOperationAsCompleted | ot-node-docker/src/service/operation-service.js:62-79 | writes the completed status, caches the data of the marking and tells the client every end status in order |
| OperationServices.OperationService.MarkOperationAsFailed | ot-node-docker/src/service/operation-service.js:81-97 | writes the failed status and tells the client message and error type |
| OperationServices.OperationService.ScheduleOperationForLeftoverNodes | ot-node-docker/src/service/operation-service.js:99-106 | queues one scheduling command with the leftover nodes |
| OperationServices.OperationService.ExecuteScheduleMessages | ot-node-docker/src/commands/protocols/common/protocol-schedule-messages-command.js:14-69 | tells the client that a batch starts, contacts it and gives each node's command what is left after it |
| OperationServices.ReplicationOutcome | ot-node-docker/src/service/publish-service.js:63-103 | a settled publish or update wrote exactly one status, completed iff the quorum was reached and failed otherwise |
| OperationServices.GetOutcome | ot-node-docker/src/service/get-service.js:75-169 | a settled get cached exactly one outcome: the assertion of the first success if there was one, "unable to find" iff all found nodes failed |
| OperationServices.ClientSeesStartsThenEnd | ot-node-docker/src/service/operation-service.js:62-97 | in every interleaving the updates of the operation id are one start status per batch, then at most one end, and nothing after it |
| OperationServices.ClientIsToldOnce | ot-node-docker/src/service/operation-service.js:62-97 | in a settled run over some node the client gets the start status once per batch and then each end status in order, or for publish and update without a quorum the failure with its message |
| TokenConservation.TokensAreConserved | ot-node-docker/src/commands/command-executor.js:73-280 | in every reachable state, whatever passes lost, a row is held exactly once over queue, timers and workers iff it is unfinished and not lost, and no other id is held; nothing is lost iff no pass of the run is a losing one |
| TokenConservation.AlwaysConservedIff | ot-node-docker/src/commands/command-executor.js:73-280 | tokens and rows are in step throughout a run iff none of its passes is a losing one |
| TokenConservation.EndedRowsAreFinal | ot-node-docker/src/commands/command-executor.js:73-213 | finished and lost rows are never written or held again, over any run |
| TokenConservation.ExecuteConservesIff | ot-node-docker/src/commands/command-executor.js:73-213 | one pass keeps rows and tokens in step iff it is not one of the two losing cases |
| TokenConservation.ExecuteTracks | ot-node-docker/src/commands/command-executor.js:73-213 | one pass loses exactly its own row, if left unfinished without a re-add, and the children it inserted without adding them |
| TokenConservation.RepeatIsLost | ot-node-docker/src/commands/command-executor.js:189-206 | a run from the empty state in which packing a failed command that repeats throws: the row stays REPEATING and nobody holds it |
| TokenConservation.ChildIsLost | ot-node-docker/src/commands/command-executor.js:156-172 | a run from the empty state in which the second of two children cannot be inserted: the first one stays PENDING and nobody holds it |
| TokenConservation.OnlyChildrenAreLost | ot-node-docker/src/commands/command-executor.js:156-206 | unless packing for a repetition throws, a pass loses rows iff it inserts some but not all children outside a transaction |
| TokenConservation.PlainHandlersKeepTrack | ot-node-docker/src/commands/command.js:44-83 | handlers whose packing does not throw and which continue with at most one command never lose a row, over any run |
| TokenConservation.OtherStepsTrack | ot-node-docker/src/commands/command-executor.js:254-280 | adding commands, firing timers and starting workers keep tokens and rows in step |
| TokenConservation.PassSettlesIff | ot-node-docker/src/commands/command-executor.js:121-335 | every path re-adds its command iff it leaves the row unfinished, and leaves no child without a token, except in the losing cases |
| CommandScheduler.AddChildrenGrows | ot-node-docker/src/commands/command-executor.js:156-184 | each child gets its own new pending row and exactly one token, and nothing older changes |
| CommandLifetime.CallsAreOnTime | ot-node-docker/src/commands/command-executor.js:92-119 | over any sequence of passes no handler call is before the command was first due or after its deadline |
| CommandLifetime.CalledIffDue | ot-node-docker/src/commands/command-executor.js:84-119 | a pass calls the handler iff there is one, ready time and delay are over and the deadline is not |
| CommandLifetime.EveryEndHasItsReason | ot-node-docker/src/commands/command-executor.js:84-213 | after any retries, repetitions and deferrals a command ends UNKNOWN iff its handler is gone, EXPIRED iff its first deadline is over, and otherwise with an on-time call that is its last: COMPLETED iff that call succeeded, FAILED iff not and nothing repeats it |
| CommandLifetime.RepetitionsArePeriodic | ot-node-docker/src/commands/command-executor.js:133-147 | the calls of a repeating command are at least its period apart, or five seconds if it has none, up to the longest timer |
| CommandLifetime.RetriesAreSpaced | ot-node-docker/src/commands/command-executor.js:288-323 | under any mix of retries and errors the calls are at least period and delay apart, up to the longest timer |
| CommandLifetime.RecoveriesArePeriodic | ot-node-docker/src/commands/command-executor.js:189-206 | the calls of a command that recovery repeats are at least its period apart, or five seconds if it has none or zero |
| CommandLifetime.HowLongToWait | ot-node-docker/src/commands/command-executor.js:133-335 | the exact delay with which a command comes back: period and delay after a retry or an error, the period after a repetition |
| CommandLifetime.CommandsComeBack | ot-node-docker/src/commands/command-executor.js:254-335 | a command that comes back is put into the queue or on a timer of exactly that delay, with one retry less in memory and in its row if it was a retry |
| CommandLifetime.WaitingRowsTellWhy | ot-node-docker/src/commands/command-executor.js:121-206 | the status of a waiting row for each reason |
| CommandLifetime.CallsAreBounded | ot-node-docker/src/commands/command-executor.js:288-335 | without repetition the handler is called at most retries + 1 times under any mix of retries, errors and deferrals |
| CommandLifetime.RetryingCalls | ot-node-docker/src/commands/command-executor.js:288-305 | a handler that always asks for a retry is called exactly max(1, retries) times |
| CommandLifetime.ThrowingCalls | ot-node-docker/src/commands/command-executor.js:315-335 | a handler that always throws is called exactly retries + 1 times |
| CommandHistory.CommandsHaveHistories | ot-node-docker/src/commands/command-executor.js:73-373 | in any run of the whole executor a command has what its template says, and its calls are those of one such history, or none; so they are after the delay and before the deadline of the template, and at most retries + 1 if its passes never repeat |
| CommandHistory.PassMakes | ot-node-docker/src/commands/command-executor.js:95-184 | each new row of a pass is pending and made from its template, in order, children with the passing command as parent |
| CommandHistory.ExpiredCommandsAreAdded | ot-node-docker/src/commands/command-executor.js:92-109 | a late command expires and the commands its handler returns are added on their own, in order; none if it throws |
| CommandQueue.FirstInFirstOut | ot-node-docker/src/commands/command-executor.js:23-34 | over any run, commands are started in the order in which they entered the queue |
| CommandQueue.WorkersAreBounded | ot-node-docker/src/commands/command-executor.js:23-34 | over any run, no more than 150 commands are executed at the same time |
| CommandQueue.MemoryMatchesDatabase | ot-node-docker/src/commands/command-executor.js:344-404 | in every reachable state, what queue, timers and workers hold equals the row of its id, up to a later ready time |
| CommandHistory.HistoryFrom | ot-node-docker/src/commands/command-executor.js:73-335 | from any reachable state on, the calls of a held command are exactly those of its passes taken as one history |
| CommandLifetime.DeferralParks | ot-node-docker/src/commands/command-executor.js:110-119 | an early pass leaves row and command as they are and parks the command for the wait, up to the longest timer |
| CommandLifetime.DeferralsAreBounded | ot-node-docker/src/commands/command-executor.js:110-119 | consecutive early passes number at most the wait divided by the longest timer, rounded up |
| CommandLifetime.LongDelayCountsTwice | ot-node-docker/src/commands/command-executor.js:254-280 | a new command or child is put on a timer of its delay, and falls due after its own delay iff that is within the longest timer, else after twice the delay |
| CommandLifetime.ReplayRestoresIff | ot-node-docker/src/commands/command-executor.js:410-456 | after a restart and replay nothing is there twice, and an unfinished row runs again iff it has a parent that is completed or gone and no permanent name |
| CommandLifetime.ReplayQueues | ot-node-docker/src/commands/command-executor.js:410-456 | a replay puts exactly the commands of the rows it picks up into the queue at once, as the rows have them |
| CommandLifetime.ChildrenSurviveCrash | ot-node-docker/src/commands/command-executor.js:156-172 | once a command is completed, each of its children is replayable unless its name is permanent |
| CommandLifetime.OrphansWaitForParent | ot-node-docker/src/commands/command-executor.js:162-172 | children that a failed pass inserted are replayable iff their parent completed and their name is not permanent |
| CommandExecutors.CommandExecutor.Execute | ot-node-docker/src/commands/command-executor.js:73-213 | one pass over a running command has exactly the specified effect on rows, queue and timers |
| CommandExecutors.CommandExecutor.Process | ot-node-docker/src/commands/command-executor.js:121-173 | the body of the try statement, with rollback of a transaction that throws |
| CommandExecutors.CommandExecutor.HandleRetry | ot-node-docker/src/commands/command-executor.js:288-305 | re-adds with one retry less while more than one is left, otherwise finishes |
| CommandExecutors.CommandExecutor.HandleError | ot-node-docker/src/commands/command-executor.js:185-335 | re-adds with one retry less while any is left, otherwise fails and recovers, and may repeat |
| CommandExecutors.CommandExecutor.Add | ot-node-docker/src/commands/command-executor.js:254-280 | parks a known command, moving its ready time when the delay exceeds the longest timer |
| CommandExecutors.CommandExecutor.AddAndInsert | ot-node-docker/src/commands/command-executor.js:254-280 | inserts a new command and parks it |
| CommandExecutors.CommandExecutor.Insert | ot-node-docker/src/commands/command-executor.js:344-373 | creates a pending row with the defaults of the command |
| CommandExecutors.CommandExecutor.Update | ot-node-docker/src/commands/command-executor.js:392-404 | writes status and retries of one row |
| CommandExecutors.CommandExecutor.InsertChildren | ot-node-docker/src/commands/command-executor.js:156-162 | inserts all children that can be inserted and throws iff one cannot |
| CommandExecutors.CommandExecutor.AddExpiredCommands | ot-node-docker/src/commands/command-executor.js:97-106 | adds the commands of an expired callback one by one, whatever happens to the others |
| CommandExecutors.CommandExecutor.ReplayOldCommands | ot-node-docker/src/commands/command-executor.js:410-456 | queues exactly the replayable rows of the query that no worker holds, in order |
| TripleStore.StoreKeepsTidyIff | ot-node-docker/src/service/triple-store-service.js:27-82 | storing keeps "a graph is there iff some asset links it" iff there is something to store or it is there already |
| TripleStore.MoveAloneKeepsTidyIff | ot-node-docker/src/service/triple-store-service.js:84-122 | a move on its own leaves no dangling link iff the count is above one |
| TripleStore.StoreNeverOverwrites | ot-node-docker/src/service/triple-store-service.js:27-82 | storing adds exactly the two links and keeps the content of stored graphs |
| TripleStore.CountsAssets | ot-node-docker/src/service/triple-store-service.js:265-278 | for assets with two names the halved count is the number of assets that link the assertion, and the raw count twice that |
| TripleStore.CountOne | ot-node-docker/src/service/triple-store-service.js:265-278 | a count of at most one means that no other asset links the assertion, for both readings of the count |
| TripleStore.MoveAllIsOrderFree | ot-node-docker/src/service/pending-storage-service.js:202-215 | the concurrent moves of one asset have the same joint effect in every order |
| TripleStore.InterleavedMoves | ot-node-docker/src/service/pending-storage-service.js:202-215 | however the reads, link and graph insertions, counts and deletions of the moves interleave, their joint effect is that of moving one after the other |
| TripleStore.MoveThenDeleteIsPurge | ot-node-docker/src/service/triple-store-service.js:211-252 | after the moves, deleting the metadata leaves exactly the repository without the asset: no shared graph is lost, no unshared one stays |
| TripleStore.PurgeKeepsConsistent | ot-node-docker/src/service/triple-store-service.js:211-252 | the repository without the asset is tidy, its links still come in pairs and contents match their ids |
| TripleStore.CarryKeepsConsistent | ot-node-docker/src/service/triple-store-service.js:102-111 | the history with the moved assertions is tidy, paired and faithful |
| StateFinalization.StepsRefineFinalized | ot-node-docker/src/service/pending-storage-service.js:187-274 | the sequence of moves, counts, deletions and insertions of the code equals the one-expression finalization, for any order and either count |
| StateFinalization.FinalizeKeepsConsistent | ot-node-docker/src/service/pending-storage-service.js:187-274 | finalization keeps both repositories and the pending storage consistent |
| StateFinalization.FinalizedLinks | ot-node-docker/src/service/pending-storage-service.js:224-263 | afterwards the asset links exactly the cached public state and the cached private assertion |
| StateFinalization.OthersUnchanged | ot-node-docker/src/service/pending-storage-service.js:187-274 | other assets keep their links in both repositories and the content of every graph they link |
| StateFinalization.NothingIsForgotten | ot-node-docker/src/service/triple-store-service.js:102-111 | what an asset links in current or history it still links in one of them, and history only grows |
| StateFinalization.RunsAreSafe | ot-node-docker/src/service/blockchain-event-listener-service.js:537-579 | over any run of cached events the asset's current links are exactly those of its last state (public id and the private id cached with it), every assertion that was ever current is still linked with its content, and both repositories are tidy |
| StateFinalization.HistoryAfter | ot-node-docker/src/service/pending-storage-service.js:202-246 | an event adds to the history of its asset exactly the assertions that were current, with their graphs, and nothing if it was handled |
| StateFinalization.HistoryIsExact | ot-node-docker/src/service/pending-storage-service.js:187-274 | over any run the history of an asset is what it was and what the run displaced, and history and current together are what ever was current |
| StateFinalization.CurrentLinkIsLastState | ot-node-docker/src/service/pending-storage-service.js:187-274 | without private assertions, an asset with at most one current link ends with exactly the state of its last event |
| StateFinalization.UntouchedByRun | ot-node-docker/src/service/pending-storage-service.js:187-274 | an asset without an event in the run keeps exactly its current links, its history links and the content behind them |
| StateFinalization.RedeliveryIsIdempotentIff | ot-node-docker/src/service/pending-storage-service.js:197-274 | delivering an event again changes nothing iff it was handled already or its cached entry is missing, has a public assertion, or has no private assertion of another id |
| StateFinalization.RedeliveryCanSpoil | ot-node-docker/src/service/pending-storage-service.js:197-274 | a consistent store with a private but no public cached assertion, where the second delivery leaves the asset without a current link |
| StateFinalization.PublicFilesAreRepeatable | ot-node-docker/src/service/pending-storage-service.js:224-274 | redelivery never changes stores whose cached files all hold a public assertion, and finalization keeps them so |
| StateFinalization.RemoveCachedRemovesOne | ot-node-docker/src/service/pending-storage-service.js:71-109 | removing a cached assertion removes that file only and leaves no empty folder |
| TripleStoreServices.TripleStoreService.LocalStoreAsset | ot-node-docker/src/service/triple-store-service.js:27-82 | links the assertion under both names of the asset and stores a graph that is not there yet |
| TripleStoreServices.TripleStoreService.MoveAsset | ot-node-docker/src/service/triple-store-service.js:84-122 | copies links and graph to the other repository and deletes the graph here if the count is at most one |
| TripleStoreServices.TripleStoreService.DeleteAssetMetadata | ot-node-docker/src/service/triple-store-service.js:211-252 | drops the links under both names and deletes the graphs that nobody links any more |
| TripleStoreServices.TripleStoreService.CountAssetsWithAssertionId | ot-node-docker/src/service/triple-store-service.js:265-278 | the number of links, or its half rounded up, according to the reading |
| TripleStoreServices.TripleStoreService.GetAssetAssertionLinks | ot-node-docker/src/service/triple-store-service.js:393-400 | exactly the assertions linked under the asset's name, each once |
| PendingStorageServices.PendingStorageService.MoveAndDeletePendingState | ot-node-docker/src/service/pending-storage-service.js:138-275 | has exactly the effect of the one-expression finalization on current, history and pending storage |
| PendingStorageServices.PendingStorageService.GetCachedAssertion | ot-node-docker/src/service/pending-storage-service.js:46-69 | the cached entry, or nothing if there is no file |
| PendingStorageServices.PendingStorageService.RemoveCachedAssertion | ot-node-docker/src/service/pending-storage-service.js:71-109 | removes the file and then an empty folder |
| PendingStorageServices.FinalizationHandler.HandleStateFinalizedEvents | ot-node-docker/src/service/blockchain-event-listener-service.js:537-579 | the events of a block run over the public and the private side as a run over each alone, and keep both consistent |
| HashRing.RingDistance | ot-node-docker/src/service/proximity-scoring-service.js:63-79 | the distance is at most half the ring |
| HashRing.DistanceIsPseudometric | ot-node-docker/src/service/proximity-scoring-service.js:63-79 | symmetric, triangle inequality, and zero iff the positions are the same place of the ring |
| HashRing.DistanceIsFewestSteps | ot-node-docker/src/service/proximity-scoring-service.js:63-79 | the distance is the fewest steps that lead from one position to the other, either way round the ring |
| HashRing.SortIsStable | ot-node-docker/src/service/sharding-table-service.js:162-170 | the sort orders by distance, keeps all elements and the order of equally distant ones |
| HashRing.SortPeersChoosesNearest | ot-node-docker/src/service/sharding-table-service.js:142-172 | the neighbourhood holds the nearest peers in order: nobody left out is nearer than anybody chosen |
| HashRing.TestPicksShorterArc | ot-node-docker/src/service/sharding-table-service.js:392-404 | the comparison with the largest distance picks the shorter arc for every neighbour |
| HashRing.BuildHashRing | ot-node-docker/src/service/sharding-table-service.js:377-405 | the deque holds every neighbour once, in order of signed ring offset from the asset |
| HashRing.GetNeighbourhoodEdgeNodes | ot-node-docker/src/service/sharding-table-service.js:363-411 | the two edges are the extreme neighbours by signed offset |
| HashRing.LargerEdgeIsMaximum | ot-node-docker/src/service/service-agreement-service.js:113-120 | the larger edge distance is the largest distance of the whole neighbourhood |
| LinearSum.ScaledDistanceFits | ot-node-docker/src/service/proximity-scoring-service.js:135-145 | the scaled distance never exceeds 256 bits |
| LinearSum.NormalizedDistanceAccuracy | ot-node-docker/src/service/proximity-scoring-service.js:131-148 | defined iff the distance is positive and the divisor reaches the compensation; then within a factor of two, and exact without compensation |
| LinearSum.NormalizedDistanceBounds | ot-node-docker/src/service/proximity-scoring-service.js:135-148 | the normalized distance lies between the quotients with the scale factor less the multiplier and with the divisor less the compensation factor |
| LinearSum.ThreeBranchesAreClampIff | ot-node-docker/src/service/proximity-scoring-service.js:171-185 | the three branches equal the weighted sum cut off at zero iff the proximity part is negative or the sum is not |
| LinearSum.Uint40IsFloor | ot-node-docker/src/service/proximity-scoring-service.js:192-195 | the conversion scales the full range to 40 bits and rounds down |
| LinearSum.ScoreIsWeightedSum | ot-node-docker/src/service/proximity-scoring-service.js:135-189 | the score is the weighted sum of the distance from one ether, modulo 64 bits, and the place of the stake, cut off at zero, scaled to 40 bits and rounded down |
| LinearSum.StakeIsItsPlace | ot-node-docker/src/service/proximity-scoring-service.js:156-164 | the normalized stake is the stake's place between the lowest and the highest, rounded down: zero at the lowest, the scale factor at the highest |
| LinearSum.DivisorIs | ot-node-docker/src/service/proximity-scoring-service.js:127-132 | the divisor is the largest distance or the ideal one, with half the replication factor rounded up |
| LinearSum.OverflowIff | ot-node-docker/src/service/proximity-scoring-service.js:156-189 | for any stake the score is the converted sum, or throws iff that is no safe integer |
| LinearSum.DivTowardsZero | ot-node-docker/src/service/proximity-scoring-service.js:156-158 | division rounds towards zero |
| LinearSum.ScoreIs40Bits | ot-node-docker/src/service/proximity-scoring-service.js:112-190 | for stakes in range the score is defined iff no division by zero throws, and is then a 40-bit number |
| LinearSum.ScoreIsMonotoneInStake | ot-node-docker/src/service/proximity-scoring-service.js:156-189 | more stake never lowers the score |
| LinearSum.ScoreIsAntitoneInDistance | ot-node-docker/src/service/proximity-scoring-service.js:135-189 | without compensation and reduction a nearer peer never scores less |
| LinearSum.NearerNeighbourScoresAtLeast | ot-node-docker/src/service/proximity-scoring-service.js:135-189 | compensated or not: in a neighbourhood at most nine times as wide as the divisor, the nearer of two neighbours never scores less if they share a multiplier, are farther apart than the losses of compensation, or one is four times as far |
| LinearSum.MillionthApartIsSeparated | ot-node-docker/src/service/proximity-scoring-service.js:135-148 | at a scale factor of one ether, distances of more than 10^-11 of the ring are farther apart than the losses if they differ by a millionth and the divisor is at least 10^7 ether |
| LinearSum.NeighboursFit64 | ot-node-docker/src/service/proximity-scoring-service.js:148-154 | in such a neighbourhood no distance is reduced; if the divisor is the largest distance, none is normalized above two ether |
| LinearSum.ScoreOrderIff | ot-node-docker/src/service/proximity-scoring-service.js:148-189 | up to a distance that needs no compensation, nearer peers never score less, for all stakes, iff the largest normalized distance fits in 64 bits |
| LinearSum.ReductionKeepsOrderIff | ot-node-docker/src/service/proximity-scoring-service.js:148-154 | up to a distance that needs no compensation, reduced normalized distances are in order iff the largest one fits in 64 bits |
| LinearSum.ReductionBreaksOrder | ot-node-docker/src/service/proximity-scoring-service.js:149-154 | two neighbours inside a wide neighbourhood of which the reduction gives the nearer one nothing and the farther one almost a quarter of the highest score |
| LinearSum.CompensationBreaksOrder | ot-node-docker/src/service/proximity-scoring-service.js:135-148 | two neighbours at successive distances, not reduced, of which compensation scores the farther one higher |
| BidArithmetic.SuggestionsAreOrdered | ot-node-docker/src/service/sharding-table-service.js:202-230 | low <= medium <= high suggestion; all three fail without peers |
| BidArithmetic.SuggestionsAreRankedAsks | ot-node-docker/src/service/sharding-table-service.js:202-230 | the suggestions are the prices for the asks of the 10th, 12th and 15th cheapest peer, or of the dearest if there are fewer, rounded down |
| BidArithmetic.SuggestionIsNoHigher | ot-node-docker/src/service/sharding-table-service.js:259-270 | a suggestion does not exceed the tokens for the ask of any peer from its rank on |
| BidArithmetic.SuggestionCoversPeers | ot-node-docker/src/service/sharding-table-service.js:259-270 | an unexpired agreement that pays a suggestion bids at least the ask of every peer up to its rank |
| BidArithmetic.BidCoversAskIff | ot-node-docker/src/service/service-agreement-service.js:28-48 | the bid computed back from suggested tokens reaches the ask iff the agreement has not expired, or the ask is at most one wei and the tokens are few enough; it fails iff no epoch is left |
| BidArithmetic.BidIsFloorPlusOne | ot-node-docker/src/service/service-agreement-service.js:28-48 | the bid is what the tokens amount to per kilobyte, replica and epoch left, rounded down, plus one; it throws iff no epoch is left |
| BidArithmetic.FirstEpochBid | ot-node-docker/src/service/service-agreement-service.js:43-47 | in the first epoch, from a kilobyte on, the bid is the ask, or one wei more iff no token was lost to rounding |
| EventBatching.ConservedOverCalls | ot-node-docker/src/service/blockchain-event-listener-service.js:216-302 | conservation of events over two successive stretches of calls gives conservation over both |
| EventBatching.EveryEventIsAccountedFor | ot-node-docker/src/service/blockchain-event-listener-service.js:235-301 | an event outside groups is handed out exactly as often as it arrived; a grouped one is buffered or in a handed-out group, exactly as often as it arrived |
| EventCalls.RepeatedUntilSuccess | ot-node-docker/src/service/blockchain-event-listener-service.js:216-325 | over any sequence of calls that read the unprocessed rows, the handler calls get an event outside groups exactly once per call that finds it until a handler succeeded with it, and never after |
| EventCalls.GroupedOnce | ot-node-docker/src/service/blockchain-event-listener-service.js:252-292 | at any time of such a sequence, a grouped event that was found is in one place, once: buffered or in a group that a handler was called with |
| EventBatching.HandedIsCalled | ot-node-docker/src/service/blockchain-event-listener-service.js:304-325 | with one handler call per name and batch, each handler gets exactly what was handed out for it, in order |
| EventBatching.BufferedKeepsInv | ot-node-docker/src/service/blockchain-event-listener-service.js:262-292 | one more event leaves the buffer short of a full group, or completes a group of full size and equal key that leaves the buffer |
| BlockchainEventListeners.BlockchainEventListener.HandleBlockchainEvents | ot-node-docker/src/service/blockchain-event-listener-service.js:216-302 | events are conserved in order per name and per group key, each batch is of one block, batches follow block order for sorted input, and exactly grouped events and those of successful handlers are marked |
| BlockchainEventListeners.BlockchainEventListener.HandleEvent | ot-node-docker/src/service/blockchain-event-listener-service.js:245-297 | one event goes to the batch of its block, to the buffer, or completes a group |
| BlockchainEventListeners.BlockchainEventListener.HandleBlockBatchedEvents | ot-node-docker/src/service/blockchain-event-listener-service.js:304-311 | calls the handler of every name of the batch once, with all its items, and marks the single events of successful ones |
| BlockchainEventListeners.BlockchainEventListener.HandleBlockEvents | ot-node-docker/src/service/blockchain-event-listener-service.js:313-325 | calls the handler once, and marks the single events of the entry iff it succeeds |
| ShardingTablePull.PageAfter | ot-node-docker/src/service/sharding-table-service.js:82-90 | one round reads the next nodes of the list and ends on the node the next round starts from |
| ShardingTablePull.PullBlockchainShardingTable | ot-node-docker/src/service/sharding-table-service.js:67-91 | the loop ends and yields the linked list of the contract once, in order, for every length |

## Left out

- Operations over several keywords: the model has one keyword per operation, as the services only see keywords that have
  an answer.
- Bid validation before the first publish batch, and get requests that are skipped because the operation has ended: each
  contacted node is taken to answer at most once, and to have answered in settled runs.
- OperationServices.OperationService.MarkOperationAsFailed: does not remove the file that is cached for the operation
  id.
- OperationServices.OperationService.ActForGet: does not store what get found for asset and paranet sync.
- CommandExecutors.CommandExecutor.Execute: the whole pass is one step, whose effects happen at its end. Commands are
  values, so that sharing one command object between the queue and a handler is not captured, nor are the data and
  sequence of commands.
- `addDefaultCommands`, pausing the queue, the deletion of permanent commands at start, and `commandsCleanerCommand`, which deletes
  finished rows while the node runs; database failures and the shutdown on an error of the queue worker.
- UALs, assertion ids and event names are opaque; hashing, SPARQL and JSON-LD are not modelled. Assets carry two names,
  and no name belongs to two assets of a repository.
- The read error that `moveAsset` swallows, the service agreement record, and paranet bookkeeping after finalization.
- The other functions of the triple store service that change links under one name only.
- `log2PLDSF` and the XOR distance, which need floating-point numbers or are not used with the ring.
- `calculateRank` and `findEligibleNodes`, which only sort and filter.
- The start condition of `pullBlockchainShardingTable`, changes of the contract's table during the pull, and the rows
  written afterwards.
- What the single event handlers do, except for finalization; their success is a parameter.
- Logging, telemetry, networking, configuration, the SDK, the UI and the contracts.
