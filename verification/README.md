# Lithosphere: a verified model of the bridge indexer

Lithosphere follows an Ethereum L1 and its L2, stores block headers and contract events, scans them for
bridge messages, moves withdrawals through their statuses and reconciles bridge balances. This project
models the parts of it whose guarantees are about whole runs, and proves those guarantees.

* **Ingestion** (`Chain`, `EthClient`, `BigInt`, `HeaderTraversal`, `Synchronizer`, `Database`, `BatchHandler`,
  `Ingestion`, `IngestionRuns`). Classes with fields for the cursor, the pending headers and the tables; their
  methods are proved against functions (`Next`, `TickResult`, `RunAttempts`), and the transition system
  `Ingestion.Step` is built from the same functions. RPC answers, transaction fates, crashes and restarts are
  inputs chosen freely at each step. A transaction, of a batch or of a scan pass, may also commit while its caller sees
  an error.
* **Scanning** (`EventProcessor`, `Pipeline`, `PipelineRuns`). Window selection, the bedrock split and the cursor
  move, composed with ingestion. The handlers stand behind a choice of success or failure and insert one row per
  relevant event. Database transactions are atomic steps.
* **Withdrawals** (`Withdrawals`, `WithdrawalRuns`, `BusinessProcessor`). One SQL statement is one step; the read and
  the save of a row by the marking loops are separate steps, because the loops use the outer database handle and
  not the transaction. The class `WithdrawalDB` holds the loops themselves, and `LoopsAreARun` connects the two.
* **Reconciliation** (`Reconciliation`, `ReconciliationLedger`). The in-place accumulation, checked against a ledger of
  the two chains.
* **Sweeps, aggregates and retry** (`StateRoots`, `DepositTotals`, `Transfers`, `Retry`).

Numbers are unbounded; `uint64` and `int64` conversions are written out wherever they occur (`BigInt`). The
confirmed chain is fixed. A block hash is a free constructor: equal hashes mean equal headers.

Where the code does not do what its text or the surrounding code suggests, the code is modelled and the exact
condition is proved:

* `Clamp` keeps its bound exactly when neither of its conversions wraps (`ClampIsWindowEndIff`, `ClampWraps`), and
  `NextHeaders` keeps its limit exactly when the limit is positive (`BoundedIffPositive`).
* A batch whose acknowledgement is lost is never stored twice, because block numbers are unique. A scan pass is not
  protected in this way: the table it fills has no unique column but a fresh identifier. Each relevant log is stored
  once exactly when no pass commits over rows that an unacknowledged commit of the same life has left in its window
  (`ScannedExactlyOnce`); a crash in between recovers (`LostAcknowledgementThenCrash`), and a run from the empty tables
  stores a log twice (`LostAcknowledgementReachable`).
* With no configured start height, block 0 is stored but never scanned (`CaughtUpIff`).
* A withdrawal's status goes backwards exactly when the save of a proven mark overwrites a claimed row, or a row whose
  challenge period ended after it was read (`StepLowersIff`, `RunMonotoneIff`). Both happen in reachable runs
  (`RaceReachable`, `ClaimedThenProven`). `StatusNeverDecreases` gives circumstances that rule them out.
* The countdown of an unclaimed withdrawal is exact at every moment of a run exactly when no proven mark is saved to it
  from a copy read before a countdown (`CountdownIff`); a mark after a crash is harmless otherwise.
* A related finalized event has its withdrawal claimed throughout a run exactly when no proven mark is saved over it
  later (`ClaimsStandIff`); a reachable run in which that happens is `RelatedButNotClaimed`.
* An event whose block number is a multiple of 2^64 is related without its row being marked (`ReachableOk`).
* The reconciliation moves deposits in the direction in which the deposits themselves moved the difference: a deposit
  under way is counted twice (`Residue`, `PendingDepositNotAligned`). A token missing from a non-empty checkpoint
  table never gets a first checkpoint (`AddedExactly`, `NoNewTokens`).
* A failed read of the latest deposit timestamp raises no error and moves the window back to zero. Totals stay exact
  exactly when no query does so over a row of value (`TotalExactIff`, `FailedReadCountsAgain`).
* The base of a batch's block sizes is any older state root, not the newest: the stored sizes add up to the last number
  exactly when every lookup happens to find the newest (`FirstSizeIff`, `StoredSizesExactIff`).
* The transfer amounts leave out the first two data bytes (`AmountIsValueIff`).
* The persisting loops give their delays in nanoseconds: every delay is twenty microseconds (`PersistSleeps`).

## Model

| member | source | states |
|---|---|---|
| BigInt.Clamp | common/bigint/bigint.go:12-22 | The in-place computation is `Clamped`, with the uint64 count and the int64 offset |
| BigInt.ClampIsWindowEndIff | common/bigint/bigint.go:9-22 | On every ordered range the result is the end of a window of `size` heights iff neither conversion wraps |
| BigInt.ClampWraps | common/bigint/bigint.go:14-20 | The smallest ranges on which each conversion defeats the bound |
| EthClient.BlockHeadersByRange | synchronizer/node/client.go:177-219 | For an arbitrary provider: success with `hs` iff the call succeeds and `hs` is the parent-linked run of the requested heights, cut at the first element that is no header |
| EthClient.AnswerIsCutPrefix | synchronizer/node/client.go:189-219 | The answer function and the declarative header fetch contract coincide, both directions |
| EthClient.HonestRange | synchronizer/node/client.go:177-219 | From a provider that reports one chain, an answer is a run of that chain's consecutive headers |
| HeaderTraversal.HeaderTraversal.NextHeaders | synchronizer/node/header_traversal.go:52-96 | The new cursor and result are `Next` of the old cursor and the provider's answers |
| HeaderTraversal.NextAnswers | synchronizer/node/header_traversal.go:52-96 | For every cursor and provider: no head, too few confirmed blocks, caught up, ahead of the provider, a single height, and a range, whose answer is `hs` iff the batch call succeeds with `hs` as the linked run of its first answered headers; the cursor moves to the last of them or stays |
| HeaderTraversal.NextHeadersBounded | synchronizer/node/header_traversal.go:62-95 | For every cursor and numbering provider: at most maxSize headers, consecutive from the cursor, none above latest - depth, and the cursor moves to the last of them or stays |
| HeaderTraversal.BoundedIffPositive | synchronizer/node/header_traversal.go:74-85 | That bound holds for all cursors, depths and providers iff maxSize is positive |
| Synchronizer.Synchronizer.Tick | synchronizer/synchronizer.go:68-92 | Pending headers are retried before new ones are fetched; nothing is dropped on an error |
| Synchronizer.Synchronizer.Deliver | synchronizer/synchronizer.go:86-91 | The hand-over clears the pending headers and gives out exactly the batch that was sent |
| Synchronizer.ProcessBatch | synchronizer/synchronizer.go:94-146 | For an arbitrary provider: a closed batch of exactly these headers and logs iff the query succeeds, its end header is the last header and every log's block is among the headers |
| IngestionRuns.PendingProgress | synchronizer/synchronizer.go:68-92 | From every reachable idle state with pending headers, one tick on a complete provider sends exactly them without moving the cursor, and after a commit the tables hold everything up to it |
| Database.Database.StoreBatch | synchronizer/l1_sync.go:148-156 | Header and event rows commit together or not at all; a row that clashes in number, parent hash or (on L1) timestamp, an event without its header, or a missing timestamp rejects them all |
| Database.LatestHeader | database/common/blocks.go:107-119 | A stored header of the highest number, none iff the table is empty |
| BatchHandler.Persist | synchronizer/l1_sync.go:146-166 | The retry loop leaves the tables and result of its attempts up to the first acknowledged one, or up to the end of the context |
| BatchHandler.AttemptsAreRetries | synchronizer/retry/operation.go:48-64 | Persisting is the general retry loop on the transaction: it stops after the first success or after all attempts |
| BatchHandler.HandleL1Batch | synchronizer/l1_sync.go:126-169 | Only headers with logs are stored; a batch without logs writes nothing and succeeds |
| BatchHandler.HandleL2Batch | synchronizer/l2_sync.go:128-189 | Every header is stored; a failed transaction query gives up before any write |
| BatchHandler.ClosedBatchRows | synchronizer/l1_sync.go:127-144 | For every closed batch the rows are exactly the headers some log names, and each event's block is one of them with that block's timestamp |
| BatchHandler.ClosedBatchAdmissible | migrations/00001_create_schema.sql:14-62 | A closed batch of new ascending headers that clash with nothing violates no unique, reference or timestamp constraint |
| Ingestion.NewSync | synchronizer/l1_sync.go:55-89 | With a readable non-empty table the process starts and resumes at a stored header of the highest number; with an empty one at the configured start header, iff it can be fetched, or at genesis |
| IngestionRuns.RestartResumes | synchronizer/l1_sync.go:55-89 | From every reachable stopped state a restart yields an idle process whose next height is right above the last stored one, or above the configured start, or genesis |
| Ingestion.StepKeeps | synchronizer/l1_sync.go:110-169 | Every action of producer, consumer, crash and restart keeps the ingestion invariant |
| Ingestion.RetryRejected | synchronizer/l1_sync.go:147-156 | After a commit whose acknowledgement was lost every retry is rejected, so nothing is stored twice |
| IngestionRuns.ExactlyOnce | synchronizer/l1_sync.go:55-169 | Over every run the tables hold exactly the rows and logs of every height from the start to the last stored header, each once; between batches, of everything emitted |
| IngestionRuns.TraversalRun | synchronizer/synchronizer.go:68-92 | Over every run, against any providers that answer height h with number h, emitted followed by pending headers are the consecutive heights from the life's start to its cursor |
| IngestionRuns.TraversalOfChain | synchronizer/synchronizer.go:68-92 | On one fixed chain they are the chain's headers of these heights |
| IngestionRuns.IntegrityRun | synchronizer/synchronizer.go:103-144 | Over every run with arbitrary providers, every sent batch is closed and every stored event has its header stored and its timestamp |
| IngestionRuns.AttemptsRun | synchronizer/l1_sync.go:115-121 | Handling a batch is the run of its attempts, cut short if the context ends, and it stops the consumer iff none succeeds |
| IngestionRuns.TenAttempts | synchronizer/l1_sync.go:147-147 | After fewer than ten failed attempts the consumer still has the batch, and at the tenth it stops |
| IngestionRuns.RoundProgress | synchronizer/l1_sync.go:110-169 | From every reachable idle state on a linked chain, one tick on a complete provider, the hand-over and a commit bring the tables exactly to the end of the window |
| EventProcessor.KthSmallestRank | event/processors/event.go:186-189 | The maximum of the k lowest numbers has exactly k numbers at or below it |
| EventProcessor.PassProgress | event/processors/event.go:185-197 | A pass over k stored headers leaves exactly max(0, k - 10000), covers at most 10000 and always advances |
| EventProcessor.PassesDrain | event/processors/event.go:185-222 | n passes leave max(0, k - 10000 n), so ceil(k / 10000) passes drain the table |
| EventProcessor.CallsTile | event/processors/event.go:197-221 | The handler calls of a pass cover its window once, in order; every range is ordered, legacy ranges end below the bedrock height and new ones begin at or above it |
| EventProcessor.ScanCursor.Pass | event/processors/event.go:178-225 | From the last scanned header, or else the starting height, the cursor moves to the window's top, and the calls count, iff the query, every handler call and the commit succeed |
| Pipeline.PassSteps | event/processors/event.go:178-225 | Starting and finishing a pass: a reported commit moves the position to the window's top and adds its calls, anything else leaves both |
| Pipeline.PassIsTwoSteps | event/processors/event.go:178-225 | A pass of the cursor object is such a start and finish of the transition system |
| Pipeline.QueryExact | database/event/contract_events.go:144-171 | An event query on a stored range returns exactly the chain's logs of that range |
| Pipeline.PassRows | event/processors/event.go:299-307 | One pass inserts exactly the relevant logs of its window, each once, and no query fails |
| Pipeline.ReloadExact | database/event/withdraw_proven.go:53-64 | Resuming at the highest stored row loses and repeats nothing, although it may be below the last position |
| Pipeline.PipeStepKeeps | event/processors/event.go:274-311 | Every interleaved step of ingestion, passes of every fate, crashes and restarts keeps the pipeline invariant |
| Pipeline.CleanStep | event/processors/event.go:297-308 | A step keeps each relevant log stored once unless it commits a pass over rows of its own window |
| Pipeline.RepeatsOverfills | event/processors/event.go:297-308 | A step that does stores some log more often than it stands in its block |
| PipelineRuns.ScannedExactlyOnce | event/processors/event.go:274-311 | Over every run, lost acknowledgements included: acknowledged calls cover each height once, split at bedrock; each relevant log is stored once iff no pass commits over rows already in its window, and then the rows up to the cursor are exactly the relevant logs up to it |
| PipelineRuns.AcknowledgedExactlyOnce | event/processors/event.go:274-311 | If no pass commits without reporting it, the scanned table is exactly the relevant logs up to the cursor, each once |
| PipelineRuns.LostAcknowledgementRepeats | migrations/00001_create_schema.sql:97-109 | From every reachable state, a lost acknowledgement and the next committed pass store every relevant log of the window twice |
| PipelineRuns.LostAcknowledgementReachable | event/processors/event.go:297-308 | A run from the empty tables in which this happens |
| PipelineRuns.LostAcknowledgementThenCrash | event/processors/event.go:71-74 | A crash right after a lost acknowledgement leaves the table exact up to the resume point |
| PipelineRuns.StoppedExactly | event/processors/event.go:71-74 | Between crashes the table holds exactly the relevant logs up to the resume point iff no pass has repeated rows |
| PipelineRuns.GuardNeverFires | database/event/contract_events.go:150-153 | In every reachable state the range guard fails no pass under way |
| PipelineRuns.CaughtUpIff | event/processors/event.go:178-188 | A cursor at the last stored header has scanned everything iff a start height is configured or block 0 has no relevant log |
| Withdrawals.StepKeeps | database/business/l2_to_l1.go:166-307 | Every statement of every writer keeps the link between status and time left and the order of marking and relating |
| Withdrawals.ProvenTodoOk | business/run.go:293-349 | The work lists of a proven half mark every found event before relating it, and nothing else |
| Withdrawals.FinalTodoOk | business/run.go:351-396 | The same for the version-1 lists of a finalized half |
| WithdrawalRuns.ReachableOk | database/event/withdraw_proven.go:71-88 | In every reachable state, crashes included: a related proven or finalized event has its transaction recorded at status 2 or more; in-challenge rows have time left, claimable rows none |
| WithdrawalRuns.NotFoundUnreachable | database/business/l2_to_l1.go:172-178 | The silent returns for a missing row cannot be reached |
| WithdrawalRuns.StepLowersIff | database/business/l2_to_l1.go:180-188 | A step lowers a status iff it saves a proven mark over a claimed row or over a row whose period ended after the read |
| WithdrawalRuns.RunMonotoneIff | database/business/l2_to_l1.go:166-307 | A run is monotone in every status iff it contains no such save |
| WithdrawalRuns.StatusNeverDecreases | business/run.go:146-160 | Over every allowed run statuses never decrease, claimed is absorbing, and a related finalized event has its withdrawal claimed |
| WithdrawalRuns.CountdownIff | database/business/l2_to_l1.go:166-307 | From W seconds left and until claimed, max(W - n, 0) are left after n countdowns at every moment of a run, re-marks after a crash included, iff no mark is saved from a stale copy |
| WithdrawalRuns.CountdownExact | database/business/l2_to_l1.go:291-307 | Then the row is ready for claim exactly when n has reached W, once the sweep is not overdue |
| WithdrawalRuns.ClaimsStandStepIff | database/business/l2_to_l1.go:180-190 | A step keeps all related finalized events claimed iff it saves no proven mark over a withdrawal whose finalized event is related |
| WithdrawalRuns.ClaimsStandIff | database/event/withdraw_finalized.go:72-89 | Over every run: related finalized events have their withdrawals claimed at every moment iff no such save occurs |
| WithdrawalRuns.RelatedButNotClaimed | business/run.go:150-157 | A run from the empty tables to a related finalized event whose withdrawal is ready for claim again |
| WithdrawalRuns.TickBetweenReadAndSave | database/business/l2_to_l1.go:172-190 | A tick between read and save makes the copy stale, and its save takes a finished challenge period back |
| WithdrawalRuns.RaceReachable | business/run.go:321-345 | A run from the empty tables that reaches the state before such a tick |
| WithdrawalRuns.ClaimedThenProven | business/run.go:150-157 | A run from the empty tables in which a claimed withdrawal becomes ready for claim again |
| BusinessProcessor.Partition | business/run.go:303-320 | The work lists hold exactly the listed events whose row exists and whose lookup succeeds, by version, in order, with their blocks and transactions |
| BusinessProcessor.WithdrawalDB.UpdateReadyForProvedStatus | database/business/l2_to_l1.go:282-289 | Row by row: exactly the pending rows at or below the block become ready with the whole window, every other row stays as it was, and none appears or vanishes |
| BusinessProcessor.WithdrawalDB.UpdateTimeLeft | database/business/l2_to_l1.go:291-307 | Row by row: one second less in the challenge period, ready for claim exactly when none is left |
| BusinessProcessor.WithdrawalDB.Mark | database/business/l2_to_l1.go:166-195 | The marking loop, with its skipped records and its early return, is the list of its iterations |
| BusinessProcessor.LoopStopsAtMissing | database/business/l2_to_l1.go:172-178 | A loop that misses a row has the effect of the iterations before it only |
| BusinessProcessor.WithdrawalDB.MarkedWithdrawProvenRelated | database/event/withdraw_proven.go:71-88 | The relating loop is the list of its iterations |
| BusinessProcessor.WithdrawalDB.MarkedWithdrawFinalizedRelated | database/event/withdraw_finalized.go:72-89 | The relating loop is the list of its iterations |
| BusinessProcessor.WithdrawalDB.MarkedL2ToL1Proven | business/run.go:293-349 | From the list, the lookups and the old tables: a listed event becomes related iff its row exists and its lookup succeeds; its row then gets block, transaction and the status its time left calls for unless the block word is zero; nothing else changes |
| BusinessProcessor.ProvenOutcome | business/run.go:293-349 | The same of the half's iterations |
| BusinessProcessor.WithdrawalDB.MarkedL2ToL1Finalized | business/run.go:351-394 | The same for the version-1 events of the finalized half, whose rows become claimed with block and transaction |
| BusinessProcessor.FinalOutcome | business/run.go:351-394 | The same of the half's iterations |
| BusinessProcessor.LoopsAreARun | business/run.go:321-345 | Undisturbed, the loops compute exactly what the statement-by-statement run leaves |
| BusinessProcessor.ProvenHalfMarks | business/run.go:293-349 | An undisturbed proven half relates every found event, marks exactly the found rows with a non-zero block word and leaves every other row |
| Reconciliation.Accumulate | business/run.go:526-577 | The four in-place loops add and subtract the sums of their lists, taking the ETH or the ERC-20 column by token |
| Reconciliation.AlignedInAnyOrder | database/exporter/checkpoint.go:66-109 | The verdict does not depend on the order of the rows |
| Reconciliation.LatestIsLast | database/exporter/checkpoint.go:52-58 | The latest checkpoints are one per token, each the newest of its token |
| Reconciliation.BridgeCheckpointDB.Compare | business/run.go:495-581 | Checked iff the differences agree at once or after the four corrections |
| Reconciliation.BridgeCheckpointDB.CheckToken | business/run.go:457-613 | The rows one token adds, over the loop that carries the difference through |
| Reconciliation.BridgeCheckpointDB.SyncTokenBalance | business/run.go:413-625 | A round adds its tokens' checkpoints in order; a failed reading ends it with an error and an undecodable row without one, both keeping what was stored before |
| Reconciliation.RowsDecodable | business/run.go:463-473 | The rows a round adds are always decodable |
| Reconciliation.DecodableNeverEnds | business/run.go:497-508 | On decodable rows no round ends silently |
| Reconciliation.AddedExactly | business/run.go:457-510 | A reading adds at most one row, with its own heights, tokens, balance and supply; the first checkpoint is trusted, a token is compared with its newest one unless that is undecodable, a token absent from a non-empty table adds none |
| Reconciliation.RoundStopsAt | business/run.go:436-460 | A round that fails at a token adds exactly what the tokens before it add |
| Reconciliation.NoNewTokens | business/run.go:476-497 | Rounds on a non-empty table never add a new token |
| ReconciliationLedger.Residue | business/run.go:491-579 | On any two-chain ledger: what the corrected difference is off by, exactly, and when the verdict is Checked |
| ReconciliationLedger.CheckedIff | business/run.go:497-581 | Without deposit activity the residue is exactly the withdrawals initiated and claimed since; Checked iff as much was claimed as initiated or nothing initiated since is claimed |
| ReconciliationLedger.ConsecutiveRounds | business/run.go:457-581 | A row added from a reading that states the ledger is a checkpoint that states it, so the next reading is recorded with its own figures and judged as `CheckedIff` says |
| ReconciliationLedger.PendingDepositNotAligned | business/run.go:555-565 | One honest pending deposit of value v leaves a residue of 2v and is not accepted |
| StateRoots.StatusNeverDecreases | database/business/stateroot.go:111-127 | For any heads and failures a root keeps its row and its status never goes down |
| StateRoots.StatusIsHighWaterMark | business/run.go:229-252 | At every moment a root is classified by the highest heads swept since it arrived |
| StateRoots.CompletedRoundClassifies | business/run.go:229-252 | With non-decreasing heads a completed round leaves status 2 iff below finalized, 1 iff below safe only, else 0 |
| StateRoots.CompletedRoundClassifiesIff | business/run.go:229-252 | For arbitrary heads, the exact condition on the heights seen before |
| StateRoots.StateRootDB.SyncStateRootStatus | business/run.go:229-252 | The statements a round reaches for each failure, and their effect |
| StateRoots.SizeIsGapIff | database/business/stateroot.go:73-76 | On uint64 numbers a size is the gap to its predecessor iff the number did not go back |
| StateRoots.SizesTelescopeIff | database/business/stateroot.go:73-76 | The sizes of a batch sum to last - base iff no number goes back, and never to less |
| StateRoots.StoredSizes | database/business/stateroot.go:62-79 | Over any batches the stored sizes sum to the last number plus the drift of the looked-up bases |
| StateRoots.StoredSizesExactIff | database/business/stateroot.go:62-79 | Over every run of lookups in the stored table and inserts with ascending numbers, the sizes sum to at least the last number, and to exactly it iff every lookup took a root with the newest number |
| StateRoots.FirstSizeIff | database/business/stateroot.go:62-73 | With the base taken from any older root, the first size is at least the gap to the newest one, and that gap iff it was taken |
| StateRoots.StateRootDB.TakeOlder | database/business/stateroot.go:64-64 | Some stored root with a smaller timestamp, none iff there is none |
| StateRoots.StateRootDB.StoreBatchStateRoots | database/business/stateroot.go:62-79 | The batch gets its sizes in place from a base among the older stored roots and is inserted whole, or a failed lookup changes nothing |
| DepositTotals.DepositsMetric.Tick | exporter/exporter.go:314-338 | One pass of the endless loop, with rows arriving between its two queries: counters and window bounds, in whatever order the groups are listed |
| DepositTotals.AddedInAnyOrder | exporter/exporter.go:327-335 | Groups listed in another order leave the same counters |
| DepositTotals.GroupedSum | database/business/l1_to_l2.go:321-331 | Grouping by token pair keeps every token's sum |
| DepositTotals.TruncationIff | exporter/exporter.go:330-334 | The uint64 conversion of the sums loses nothing iff every group's sum is below 2^64 |
| DepositTotals.CutOffIsWrap | exporter/exporter.go:330-334 | What the conversion loses is a multiple of 2^64 |
| DepositTotals.TotalAccount | exporter/exporter.go:314-338 | Over every run a total is the full recomputation plus what was recounted, less what was missed and cut off |
| DepositTotals.NothingRecountedIff | exporter/exporter.go:320-337 | Nothing is counted again iff no query, after a failed timestamp read, moves the bound back over a row of value |
| DepositTotals.InOrderIsAboveBound | exporter/exporter.go:320-337 | Batches stored above the timestamps already present, repeated timestamps within a batch included, are stored above the bound |
| DepositTotals.TotalExactIff | exporter/exporter.go:314-338 | With rows arriving above the bound and fitting sums, a total is never below the recomputation and equals it iff every query moves the bound harmlessly |
| DepositTotals.TotalsAreRecomputed | exporter/exporter.go:314-338 | If the timestamp reads succeed, a total is at every moment the sum of the rows up to the bound, and right after a read and a successful query the sum over the whole table, whatever failed before |
| DepositTotals.TotalsAreColumnSums | exporter/exporter.go:327-335 | In terms of the columns: the total of BVM_ETH is the sum of its ETH column, of every other token of its ERC-20 column, over the rows up to the bound |
| DepositTotals.LatestBounds | database/business/l1_to_l2.go:311-319 | The latest timestamp is the highest one present, 0 for an empty table |
| DepositTotals.FailedReadCountsAgain | database/business/l1_to_l2.go:311-319 | One failed timestamp read makes the next round count the whole table again |
| Transfers.SumBySender | exporter/exporter.go:427-443 | The map holds exactly the non-zero senders of transfers to a non-zero receiver, each with the sum of those amounts |
| Transfers.EntriesSumToTotal | exporter/exporter.go:427-444 | In any iteration order the entries add up to the total of the counted transfers |
| Transfers.AmountIsValueIff | exporter/exporter.go:436-437 | The amount is the value of the Events section of EIP-20 modulo 2^240, equal to it iff below |
| Transfers.BytesAreDigits | exporter/exporter.go:436-437 | The number read from data has the bytes as its base-256 digits, most significant first |
| Transfers.CountAlerts | exporter/exporter.go:448-460 | In any iteration order the count is the number of senders at or above the threshold |
| Transfers.AlertsAreSenders | exporter/exporter.go:452-458 | Those senders are the ones whose counted amounts reach the threshold |
| Retry.Do | synchronizer/retry/operation.go:41-65 | Runs up to the first success or ended context, at most maxAttempts times, and sleeps only between attempts |
| Retry.FirstStopDecides | synchronizer/retry/operation.go:48-55 | The stopping run is unique |
| Retry.Duration | synchronizer/retry/strategies.go:30-47 | min(min + 2^attempt s, max) plus the jitter; min plus the jitter for a negative attempt |
| Retry.BackoffGrows | synchronizer/retry/strategies.go:38-43 | Delays strictly grow until they reach the maximum and stay there |
| Retry.BackoffDoubles | synchronizer/retry/strategies.go:38-43 | What is added to the minimum starts at one second and doubles with every attempt, up to the maximum |
| Retry.TotalSleepBound | synchronizer/retry/operation.go:57-59 | The total sleep is at most (maxAttempts - 1)(max + maxJitter) |
| Retry.PersistSleeps | synchronizer/l1_sync.go:146-147 | With the persisting loops' constants every delay is 20000 ns plus jitter |

## Left out

- WithdrawalRuns.StatusNeverDecreases: assumes the circumstances of `Allowed` (finalized only after proven, every unrelated event with a row found, no pair completed between the halves, no sweep between a proven mark's read and save), because statuses do go backwards without them.
- WithdrawalRuns.ReachableOk: a related finalized event is shown recorded at status 2 or more, not claimed, because that fails in reachable runs; `ClaimsStandIff` says exactly when it holds.
- WithdrawalRuns.CountdownExact: does not cover a row that is claimed, whose seconds no longer matter.
- Withdrawals.StepKeeps: does not model the version-0 finalization statements, for the reason given for `MarkedL2ToL1Finalized`.
- Withdrawals.FinalTodoOk: covers the version-1 list only, for the same reason.
- BatchHandler.HandleL2Batch: the rows of the transactions table, stored in the same transaction, are not modelled.
- BusinessProcessor.WithdrawalDB.MarkedL2ToL1Finalized: does not model the version-0 half, whose update looks rows up by a message hash its records do not carry, so its outcome depends on the object-relational mapper.
- Retry.Duration: computes on integers; the rounding of float64 above 2^53 is not modelled, nor is the distribution of the jitter.
- DepositTotals.TotalExactIff: makes no claim for rows that arrive at or below the bound; `TotalAccount` says what they cost.
- DepositTotals.DepositsMetric.Tick: adds integers where the metric adds floats.
- ReconciliationLedger.CheckedIff: makes no claim with deposit activity, where `Residue` shows what the coded signs leave over.
- Transfers.SumBySender: takes events with three topics and at least two bytes of data; the program panics on others.
- Event handlers (`bridge`, state root and DA): the scanned table gets one row per relevant event of the window; what else handlers store is not modelled.
- The cursors other than that of withdraw_proven reload from other tables; their passes share window, split and cursor move, but the end-to-end theorem is stated for withdraw_proven.
- The finalized L2 pass: it resets its cursor when it finds nothing new and then scans from the start again.
- Deposit finalization marks: their lookups use message hashes the records do not carry.
- Several proven or finalized events of one withdrawal hash: the schema allows them, the model keeps the first. A second one would stay unrelated or be related in its place, and its withdrawal would be marked again in every round, over a claimed one too.
- The setting of an event's related flag is one step; its read and save are not separated.
- `UpdateWithdrawProvenInfo` and the other writers of row details are not interleaved with the marking loops.
- Zero hashes as lookup keys, and query errors the program treats as empty results, other than those named above.
- Decodable decimal strings of checkpoints are the integers they denote; addresses and hashes are numbers.
- L2 transactions and receipts beyond the failure to fetch them.
- Reorganisations below the confirmation depth: the program has no recovery.
- HTTP API, caches, command line, configuration, logging, metrics registration, token list download, DA retrieval and contract bindings.
