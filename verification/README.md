# Verified model of sei-chain's block execution, log queries and RPC guards

This Dafny project models the stateful core of sei-chain's `app` and `evmrpc` packages and proves
what that code is for, over every input, every run and every interleaving.

- **Optimistic block processing** (`Optimistic.dfy`): ProcessProposal, the background worker and
  FinalizeBlock as a state machine whose steps are the lock acquisitions and channel operations of
  the code. The node refines plain sequential execution of the finalized blocks.
- **Executor dispatch** (`Dispatch.dfy`): V2 and giga, synchronous and optimistic-concurrent, with
  the two sibling caches of a branched multistore. All four give the results and the store of
  in-order V2 execution.
- **Block gas admission, fee pre-charge, fee-history percentiles** (`BlockGas.dfy`,
  `FeePrecharge.dfy`, `Percentiles.dfy`) with 64-bit and 256-bit arithmetic written out.
- **Log queries** (`LogMerge.dfy`, `TxIndexing.dfy`, `LogFilter.dfy`, `LogPaths.dfy`,
  `LogWorkers.dfy`, `LogPolling.dfy`): the k-way heap merge, log numbering, bloom skips and the log
  budget, the range path against the block-by-block path with its workers in any interleaving, the
  halving back-off, and the logs subscription.
- **Supply check** (`Supply.dfy`): a test over changed keys against conservation over the whole store.
- **Trace baker progress** (`TraceBaker.dfy`), **new-heads notifier** (`HeadNotifier.dfy`),
  **JSON-RPC batch gate** (`BatchGate.dfy`), **request byte budget** (`ByteBudget.dfy`).
- `Wrappers.dfy`, `Integers.dfy` and `Permutations.dfy` hold shared definitions.

Collaborators outside the model are contracts: ProcessBlock is deterministic and a hash identifies
its block (`World`); a successful scheduler run equals in-order execution and a giga transaction
aborts without writing or matches V2 (`SchedulesInOrder`, `GigaMatchesV2`); the receipt store returns
at least the blocks that match (`NoFalseNegativeStore`); stored blooms cover their logs
(`BloomsCover`, `WellFormed`). Scheduling choices, clocks, the network, keccak and the chain itself
are parameters.

Where the code does less than its comments or neighbours suggest, the model follows the code and
proves the exact condition:

- The state committed by the fast path carries the header of the last proposal *seen*. From the
  proposals of the height alone: it differs from the finalized one exactly when the fast path is taken
  and that proposal was another block that decoding or the gas check turned away (`CommittedHeader`,
  `RejectedProposalLeavesHeader`).
- A proposal handler that panics between its claim and the launch of the worker is recovered, and the
  claim never gets its token: a waiting FinalizeBlock continues exactly when no handler did so
  (`NoDeadlock`, `StuckAfterPanic`).
- The block-by-block log path passes over a cached block whose availability check fails, without an
  error. It returns all matching logs exactly when no such block has one (`PathsAgree`,
  `CachedBlockDropped`), and so do a query and a subscription (`ServedExactly`, `RunSubscription`). It
  also never reads block 0, which the range path does; no chain reaches that case, since the first
  block of a chain has height 1 or more.
- The receipt endpoint agrees with the log endpoints exactly for the first listed message of a
  transaction (`ReceiptAgreesWithLogs`, `SecondMessageMisplaced`).
- The supply check ignores a change whose new value does not decode. A passing block conserves the
  whole store exactly when what such changes overwrote nets to zero (`PassingConservesExactly`,
  `DriftFromGenesis`, `UnreadableChangePasses`). Once the supply itself is unreadable, the check passes
  exactly when no changed balance is negative (`CheckDisabled`, `MintAfterUnreadableSupply`).
- A logs subscription ends with an error at any poll at which the safe latest height has not moved
  past the cursor (`Poll`, `PollNeedsNewBlock`).
- The comments of the request limiter say that its status always wins and that trailing bytes cannot
  go unrejected. The client is told the recorded outcome exactly when the inner handler returns after it
  was recorded, had not written before it was recorded, and has not flushed at all: a flush is not
  suppressed and sends its own status (`AnsweredExactly`; each way to fail is a run:
  `RefusedAfterReturn`, `RefusedAfterWrite`, `RefusedThenFlush`, `RefusedThenPanic`).
- The batch gate means to answer every element that is no object or has an invalid id, but a `null`
  element unmarshals without an error, is forwarded as a notification and gets no answer. Every such
  element is answered exactly when none is `null` (`AnsweredUnlessNull`, `HandleBatch`,
  `NullUnanswered`).
- The back-off takes an overflow of a single block for too many matching logs of that block. It may also
  come from the store's own byte budget, which counts candidates that are never visible
  (`TryFilterLogsRange`, `HiddenCandidatesOverflow`).
- The fee conversion wraps a negative fee around instead of refusing it: without the stateless check on
  the tip the charge is the fee exactly when the price is not negative (`NegativePriceMischarged`).
- The running gas sum of the fee-history percentiles is a uint64. All queries get percentiles exactly
  when the sweep behind a jump of that sum over every uint64 value stops at no higher reward than at
  the jump (`SweepRightExactly`, `JumpMisleads`).

## Model

| member | source | states |
|---|---|---|
| `Optimistic.Reachable` | app/app.go:1302-1450 | every reachable state keeps the protocol invariant: at most one live worker, it belongs to the current claim, exactly one party owes the token, and an unaborted finished claim holds what ProcessBlock gives on the committed store |
| `Optimistic.FinalizeEqualsFresh` | app/app.go:1367-1451 | over every run each FinalizeBlock answers, and hands to Commit, what processing its block afresh on the last committed store gives; committed stores are those of sequential execution |
| `Optimistic.FinalizesFresh` | app/app.go:1391-1450 | both the fast path and the re-run give ProcessBlock's outcome on the committed store |
| `Optimistic.NoWorkerOutlivesClaim` | app/app.go:1302-1350 | at most one token per claim ever; between claims no worker is live and every claim's token was sent and received exactly once |
| `Optimistic.NoDeadlock` | app/app.go:1323-1348 | every pending send finds its channel empty; a waiting FinalizeBlock finds its token, or gets it after at most two steps of the live worker, iff no handler panicked between its claim and the launch, and after such a panic no step is possible |
| `Optimistic.OrphanedByPanic` | sei-cosmos/baseapp/abci.go:1036-1048 | over every run, a claim has lost its worker iff its handler panicked between the claim and the launch |
| `Optimistic.StuckAfterPanic` | sei-cosmos/baseapp/abci.go:1036-1048 | a run in which such a recovered panic leaves FinalizeBlock waiting with no step possible |
| `Optimistic.AbortedSticks` | app/app.go:1316-1358 | an aborted claim stays aborted for as long as it lasts |
| `Optimistic.CommittedHeader` | sei-cosmos/baseapp/abci.go:1010-1022 | over every run, from the proposals since the last Commit alone: FinalizeBlock takes the fast path iff some were admitted, all admitted ones are the finalized block, no upgrade is planned and the block processes; the header handed to Commit is wrong iff moreover the last proposal was another block that was turned away |
| `Optimistic.RejectedProposalLeavesHeader` | app/app.go:1277-1300 | a run in which a turned-away proposal leaves its header on the committed state |
| `Dispatch.ExecuteTxsConcurrently` | app/app.go:1686-1700 | whatever the mode, non-nil results are index-aligned and equal, with the final store, to in-order V2 execution; nil only when a scheduler run or the block cache fails |
| `Dispatch.ProcessTxsSynchronousV2` | app/app.go:1503-1521 | results and store of in-order execution |
| `Dispatch.ProcessTxsSynchronousGiga` | app/app.go:1523-1646 | with per-transaction fallback and the two flush rules, results and store of in-order V2 execution |
| `Dispatch.ProcessTXsWithOCCV2` | app/app.go:1713-1780 | results and store of in-order execution when the scheduler keeps its contract |
| `Dispatch.Partition` | app/app.go:1793-1814 | reports a mixed order iff an EVM transaction follows another kind; otherwise the two lists in sequence are the block under its own indices |
| `Dispatch.ProcessEvmBatch` | app/app.go:1819-1872 | a batch with any sentinel leaves the store untouched; one without equals in-order V2 execution |
| `Dispatch.ProcessTXsWithOCCGiga` | app/app.go:1783-1918 | partition, batch fallback and remainder together give in-order V2 execution |
| `Dispatch.GigaRunMatches` | app/app.go:2254-2337 | a run of giga deliveries without a sentinel has V2's results and its view of the two caches is V2's store |
| `Dispatch.SameView` | sei-cosmos/store/cachemulti/store.go:60-80 | with separate caches and an empty giga cache both executors read the same store |
| `Dispatch.FlushGigaView` | sei-cosmos/store/cachemulti/store.go:277-289 | flushing turns what the giga executor saw into what V2 reads, in either flush order used by the executors |
| `Dispatch.InOrderSplit` | app/app.go:1873-1916 | executing a concatenation is executing the parts in sequence |
| `Dispatch.SingleRecipientTransfers` | app/app.go:1648-1675 | true iff there are at least 64 transactions and all are plain positive transfers to one recipient |
| `BlockGas.CheckTotalBlockGas` | app/app.go:2787-2870 | accepts iff no transaction is undecodable or panics, each counted one fits int64, and the exact sums of wanted and charged gas are within the limits; the wrapping counters equal the exact sums throughout |
| `BlockGas.GasOf` | app/app.go:2796-2844 | rejects, skips or counts a transaction exactly by its kind |
| `BlockGas.ChargedGuardImplied` | app/app.go:2846-2852 | the overflow guard on the charged total never fires alone |
| `BlockGas.VerdictIgnoresOrder` | app/app.go:2795-2870 | admission is invariant under reordering |
| `FeePrecharge.FeeIsCovered` | app/app.go:2059-2093 | every associated transaction that passes is charged a fee between gas times base fee and gas times fee cap that fits 256 bits, leaving at least the value; neither conversion nor subtraction fails |
| `FeePrecharge.ValidExactly` | app/app.go:3012-3193 | validation passes iff the fee, nonce, sender, set-code and balance conditions all hold |
| `FeePrecharge.NegativePriceMischarged` | app/app.go:2088-2093 | for every valid associated transaction the charge is the fee iff the gas is zero or tip plus base fee is not negative; a negative fee wraps around, fails on any balance below the wrapped amount, and panics iff it has more than 256 bits |
| `Percentiles.CalculatePercentiles` | evmrpc/info.go:477-500 | for every block, each answer is the reward at which the sweep of the sorted transactions stands; unless a jump of the uint64 sum does harm, it is the lowest reward at which the gas of all transactions rewarded that or less reaches the highest threshold so far, else the highest reward; gas below 2^64 in all does no harm; zeros without transactions |
| `Percentiles.Sweep` | evmrpc/info.go:489-498 | the one pass with a wrapping sum answers each threshold where a fresh search from the previous stop would |
| `Percentiles.SweepSettles` | evmrpc/info.go:489-498 | for every block the sweep stands where the exact sum reaches the highest threshold so far, or, if the sum jumps there, between there and where the largest threshold would take it |
| `Percentiles.SweepRight` | evmrpc/info.go:489-498 | if no jump does harm, every stop is the percentile of the highest threshold so far |
| `Percentiles.SweepRightExactly` | evmrpc/info.go:489-498 | every threshold of every query gets its percentile iff the sweep behind a jump stops at no higher reward than at the jump |
| `Percentiles.JumpMisleads` | evmrpc/info.go:490-496 | a jump behind which the sweep stops at a higher reward makes the largest threshold get a reward that is not its percentile |
| `Percentiles.SweepFindsPercentile` | evmrpc/info.go:490-498 | the least index whose cumulative gas reaches the threshold, or the last, holds the percentile |
| `Percentiles.AscendingThresholds` | evmrpc/info.go:473-476 | for ascending thresholds each answer is its own threshold's percentile and the answers ascend |
| `Percentiles.PercentilePermuted` | evmrpc/info.go:478-480 | a percentile does not depend on the order of the transactions |
| `LogMerge.LogMergeHeap.Push` | evmrpc/filter.go:245-262 | keeps heap order and adds exactly the item |
| `LogMerge.LogMergeHeap.Pop` | evmrpc/filter.go:245-262 | keeps heap order and removes exactly a least item |
| `LogMerge.FirstLogs` | evmrpc/filter.go:1037-1048 | the initial heap holds the first log of each non-empty batch |
| `LogMerge.TakeLeast` | evmrpc/filter.go:1050-1067 | one turn moves a least unmerged log to the result and replaces it by its successor, so the heap holds the front of each non-exhausted batch |
| `LogMerge.MergeSortedLogs` | evmrpc/filter.go:1022-1070 | the result is sorted, its logs are the least ones of the batches, and it has all of them or exactly `limit` |
| `LogMerge.MergeIsSortedPrefix` | evmrpc/filter.go:1022-1070 | when no two logs share a key, the merge is the one sorted arrangement of all logs, and a capped merge its prefix |
| `TxIndexing.FilterMessage` | evmrpc/utils.go:225-269 | one message updates the tallies and is listed exactly when the specification lists it |
| `TxIndexing.FilterTransactions` | evmrpc/utils.go:203-272 | lists exactly the visible messages in order, with nonces counted per sender over earlier listed ones |
| `TxIndexing.LogIndicesCount` | evmrpc/filter.go:1280-1319 | log number i of a block carries index i, so indices strictly increase without gaps |
| `TxIndexing.LogsOfMessage` | evmrpc/filter.go:1280-1319 | a listed message's logs are the stretch of the block's logs that starts at its offset |
| `TxIndexing.GetEvmTxIndex` | evmrpc/tx.go:477-501 | finds the position and log offset of the first listed message of a transaction |
| `TxIndexing.EncodeReceipt` | evmrpc/tx.go:503-527 | the receipt carries that position and its logs that offset, or the call fails because no listed message comes from the transaction |
| `TxIndexing.ReceiptAgreesWithLogs` | evmrpc/tx.go:477-527 | the receipt endpoint gives a listed message the log endpoints' transaction index and log indices iff no earlier listed message comes from the same transaction |
| `TxIndexing.SecondMessageMisplaced` | evmrpc/tx.go:477-501 | a transaction with two contract executions is listed twice and the receipt endpoint places the second at the first |
| `TxIndexing.SameConversion` | x/evm/keeper/log.go:85-98 | the receipt endpoint's log conversion is the log endpoints' one |
| `Blooms.NoFalseNegatives` | evmrpc/ethbloom/bloom.go:28-125 | a bloom that covers a log matching the criteria passes the encoded filter |
| `LogFilter.LogBudget.Reserve` | sei-db/ledger_db/receipt/log_budget.go:73-103 | charges one log iff it fits both caps and the budget has not tripped; otherwise it trips and charges nothing |
| `LogFilter.SkippedHasNoMatch` | evmrpc/filter.go:1288-1292 | a receipt skipped by its bloom has no matching log |
| `LogFilter.CollectReceipt` | evmrpc/filter.go:1294-1319 | appends and charges exactly the matching logs of one receipt, or trips when they do not fit |
| `LogFilter.CollectLogs` | evmrpc/filter.go:1261-1322 | a block yields exactly its matching logs, numbered among all visible logs, or the budget cannot hold them |
| `LogPaths.NormalizeRangeQueryLogs` | evmrpc/filter.go:1149-1252 | candidate blocks without false negatives are rebuilt into exactly the window's matching logs |
| `LogPaths.FilterLogs` | sei-db/ledger_db/receipt/litt_tag_index.go:340-390 | the store returns its candidates iff their bytes fit its budget, in whatever order they are charged |
| `LogPaths.TryFilterLogsRange` | evmrpc/filter.go:1087-1130 | the range path returns exactly the matching logs of the range in order, only if they and the candidates of each window fit; reports an overflow only if one of those does not fit; fails only when a block is missing or unavailable |
| `LogPaths.HiddenCandidatesOverflow` | evmrpc/filter.go:813-823 | a store with one candidate that no visible log comes from overflows although the matching logs fit |
| `LogPaths.AscendingCover` | evmrpc/filter.go:1150-1162 | ascending heights that include every matching height of a window give its logs |
| `LogPaths.SubchainExactly` | evmrpc/filter.go:1428-1456 | part of the chain gives all logs of a range iff no block of the range that it lacks has a match |
| `LogPaths.BloomSkipLosesNothing` | evmrpc/filter.go:1457-1475 | a block skipped by its bloom has no match |
| `LogPaths.ProcessBatch` | evmrpc/filter.go:1419-1499 | fails iff a height that is not cached and not skipped by its bloom is missing or outside the watermarks; otherwise the blocks sent on give exactly the logs of the visible blocks of the stretch, which lack height 0 and the cached blocks whose availability check fails |
| `LogPaths.FetchBlocksByCrit` | evmrpc/filter.go:1330-1416 | gives up iff the pool has no room for one of its stretches; otherwise as ProcessBatch over all stretches of the range |
| `LogWorkers.StepWorker` | evmrpc/filter.go:885-911 | one step of a worker charges at most one log of its batch, loses none, and stops only on a tripped budget |
| `LogWorkers.RunWorkers` | evmrpc/filter.go:885-945 | for every interleaving of the submitting loop and the workers, the shared budget trips only if all logs together do not fit; without a trip and without a refused submission they fit, each worker keeps exactly the logs of its batch, and the pool had room for every batch |
| `LogWorkers.CutBatches` | evmrpc/filter.go:913-945 | the worker batches in sequence are the blocks in arrival order, one batch per full or last stretch |
| `LogWorkers.SortBatches` | evmrpc/filter.go:899-910 | each batch handed over is sorted, and together they hold the logs of the blocks |
| `LogWorkers.GetLogsBlockByBlock` | evmrpc/filter.go:870-967 | for every scheduling the path is overloaded only if the pool has no room for one of its submissions; otherwise it fails iff a fetch fails, and else returns, in block order, exactly the matching logs of the visible blocks, or an overflow because they do not fit |
| `LogWorkers.MergedIsRange` | evmrpc/filter.go:947-967 | merging the worker batches restores the order of the range |
| `LogWorkers.PathsAgree` | evmrpc/filter.go:858-967 | the two paths return the same logs iff no block that the block-by-block path passes over has a match |
| `LogWorkers.CachedBlockDropped` | evmrpc/filter.go:1428-1436 | a cached block with a match that is outside the watermarks is dropped and the query still succeeds |
| `LogPaths.BudgetIgnoresOrder` | sei-db/ledger_db/receipt/log_budget.go:73-103 | the budget's verdict does not depend on the order of charges |
| `LogPaths.RangeOrdered` | evmrpc/filter.go:1280-1319 | the logs of a range strictly ascend in (block, log index) |
| `LogPolling.ComputeBlockBounds` | evmrpc/filter.go:768-803 | a window exactly when the requested range is within earliest and latest, starting no earlier than the cursor |
| `LogPolling.ReadWindow` | evmrpc/filter.go:854-880 | either path reads exactly the window's logs that the query can see, overflows only when they or the store's candidates do not fit, and fails only for a missing or unavailable block, a full pool or a failing node |
| `LogPolling.ServedExactly` | evmrpc/filter.go:854-880 | a query serves all matching logs of its window iff it passes over no block that has one |
| `LogPolling.GetLogsByFilters` | evmrpc/filter.go:825-975 | a success serves exactly the bounds seen at one read; every error has its cause at a read, and a request out of bounds at the first read fails |
| `LogPolling.GetLogsWithBackoff` | evmrpc/filter.go:980-1016 | terminates by halving; a success covers a prefix of the request from the same first block; an overflow behind the cursor is that of a single block of the request, by its visible logs or its store candidates; any other error has a cause inside the request; a request out of bounds fails |
| `LogPolling.LogSubscription.Poll` | evmrpc/subscribe.go:282-312 | a successful poll serves the window right behind the cursor and delivers what its query saw there; an error changes nothing and comes from a fault or an overflow inside the request; a poll at which the latest height has not moved past the cursor ends the loop |
| `LogPolling.NextWindow` | evmrpc/subscribe.go:282-312 | a served window is non-empty and starts at the previous end plus one |
| `LogPolling.RunSubscription` | evmrpc/subscribe.go:282-312 | over any polls the windows tile the range, the delivered logs strictly ascend, and they are all matching logs of that range iff no poll passed over a block that has one |
| `LogPolling.CompleteExactly` | evmrpc/subscribe.go:282-312 | over a tiled range, what the queries saw gives all matching logs iff each query was complete in its window |
| `LogPolling.PollNeedsNewBlock` | evmrpc/filter.go:776-796 | behind the cursor there is a window only if the latest height moved past it, and without an upper bound iff it did |
| `Supply.LightInvarianceTotalSupply` | app/invariance.go:57-207 | with one change per key, passes iff the readable changed balances are non-negative and (sum usei - supply) * 10^12 + sum wei over the whole store is unchanged |
| `Supply.ChangedTotals` | app/invariance.go:68-163 | the two loops over one kind of balance give the sums before and after over the changed keys, or report a negative balance |
| `Supply.TotalAfterChanges` | app/invariance.go:123-163 | the whole-store total moves by exactly what the changed keys gain and lose |
| `Supply.SupplyChanged` | app/invariance.go:164-193 | the change of the stored supply of the base denomination |
| `Supply.QuantityAfter` | app/invariance.go:92-99 | the whole-store quantity after a block is what the check believes less what the unreadable changes overwrote |
| `Supply.PassingConservesExactly` | app/invariance.go:57-207 | a passing block conserves the whole-store quantity iff what its unreadable changes overwrote nets to zero |
| `Supply.KeyRoundTrip` | app/invariance.go:79-110 | the key the check rebuilds from a changed address is the changed key |
| `Supply.ConservedFromGenesis` | app/invariance.go:57-207 | if every block passes, the whole-store quantity is that of genesis |
| `Supply.DriftFromGenesis` | app/invariance.go:57-207 | while the supply is readable and every block passes, the quantity drifts from genesis by exactly what was lost |
| `Supply.CheckDisabled` | app/invariance.go:167-174 | from a store whose supply is unreadable until a block rewrites it, each block passes iff no changed balance is negative |
| `Supply.NonNegativeFromGenesis` | app/invariance.go:57-207 | if every block passes, no balance ever becomes negative |
| `Supply.UnreadableChangePasses` | app/invariance.go:92-99 | on any store with a readable supply, a block that overwrites a positive balance with an unreadable value passes although the whole-store quantity falls |
| `Supply.MintAfterUnreadableSupply` | app/invariance.go:167-174 | an unreadable write to the supply passes, and the next block passes although it mints |
| `TraceBaker.AdvanceContiguous` | evmrpc/trace_baker.go:266-276 | moves the watermark to the end of the unbroken run and deletes exactly what it passed |
| `TraceBaker.ProgressGapSkipTo` | evmrpc/trace_baker.go:278-296 | the window floor, or the least buffered height minus one for every iteration order, or no skip |
| `TraceBaker.ProgressLoop.Report` | evmrpc/trace_baker.go:233-264 | one completion takes the progress state to the specified one and the buffer never holds a height at or below the watermark plus one |
| `TraceBaker.BakeBlock` | evmrpc/trace_baker.go:169-186 | a height is reported iff every tracer succeeded |
| `TraceBaker.RunAccounted` | evmrpc/trace_baker.go:233-264 | over every run: no reported height is lost, only reported heights are buffered, written watermarks strictly increase and the last one is current |
| `TraceBaker.WindowCovered` | evmrpc/trace_baker.go:233-296 | in window mode every height above the start and the window floor, up to the watermark, was baked for all tracers |
| `TraceBaker.NothingSkippedAtStart` | evmrpc/trace_baker.go:333-346 | starting at the window floor keeps that coverage from the stored watermark on |
| `TraceBaker.BufferBounded` | evmrpc/trace_baker.go:278-296 | without a window the buffer stays within twice the queue size after every step |
| `TraceBaker.OrderIrrelevant` | evmrpc/trace_baker.go:233-276 | when no gap is skipped, watermark and buffer depend only on the set of baked heights |
| `TraceBaker.CatchUp` | evmrpc/trace_baker.go:300-322 | the heights from the watermark or the window floor up to the tip, in order |
| `TraceBaker.CatchUpReachesTip` | evmrpc/trace_baker.go:300-322 | once every height catch-up asks for is baked, in any order and between any other bakes, the watermark has reached the tip |
| `HeadNotifier.BlockHeaderNotifier.Publish` | evmrpc/notifier.go:121-141 | the new head is last in the channel and only a full channel loses its oldest |
| `HeadNotifier.BlockHeaderNotifier.PublishStashed` | evmrpc/notifier.go:91-104 | publishes the pending head, if any, and clears it |
| `HeadNotifier.UndisturbedPublish` | evmrpc/notifier.go:121-141 | the three selects of a run, taken without a consumer step between them, are the publish of the class and change nothing else but what they drain |
| `HeadNotifier.Drive` | app/abci.go:300-320 | an object driven by any FinalizeBlock and Commit calls with nobody receiving holds what the run of those calls holds, and its channel is a subsequence of the committed blocks |
| `HeadNotifier.DrivenRuns` | app/abci.go:300-320 | those calls with their selects are a run |
| `HeadNotifier.HeadsFollowCommits` | app/abci.go:300-320 | received heads are a subsequence of the committed blocks, each at most once and in order, whatever commits fail and whichever FinalizeBlock does not stash |
| `HeadNotifier.NewestHeadKept` | evmrpc/notifier.go:121-141 | for every consumer interleaving publish never drops the head it was given |
| `HeadNotifier.PublishedIsCommitted` | app/app.go:1371-1374 | what a Commit publishes is that Commit's block |
| `BatchGate.SyntheticIdsDiffer` | evmrpc/sei_legacy_http.go:170-186 | forwarded requests get distinct synthetic ids whatever the client sent |
| `BatchGate.DecimalRoundTrip` | evmrpc/sei_legacy_http.go:177 | reading a synthetic id back gives its counter |
| `BatchGate.Classify` | evmrpc/sei_legacy_http.go:147-165 | marks each slot invalid, blocked or forwarded and records its id; a null slot is not invalid and has no id |
| `BatchGate.Rename` | evmrpc/sei_legacy_http.go:167-186 | builds the forwarded batch with synthetic ids and notes whether a legacy method is among it |
| `BatchGate.AnswerWithoutForward` | evmrpc/sei_legacy_http.go:233-251 | the specified answers when nothing is forwarded |
| `BatchGate.AnswerMergeFailure` | evmrpc/sei_legacy_http.go:267-282 | the specified answers when the inner reply is not an array |
| `BatchGate.IndexReplies` | evmrpc/sei_legacy_http.go:289-306 | maps each id to the first reply that carries it |
| `BatchGate.NeverUsed` | evmrpc/sei_legacy_http.go:322-329 | the reply of a slot was not taken by an earlier one, so the guard on `used` never fires |
| `BatchGate.PatchId` | evmrpc/sei_legacy_http.go:367-389 | the reply carries the client's id and is otherwise unchanged |
| `BatchGate.Merge` | evmrpc/sei_legacy_http.go:258-333 | for every inner body the output is the specified answers, slot by slot |
| `BatchGate.AnswersKeepSlots` | evmrpc/sei_legacy_http.go:258-333 | one answer per slot marked invalid and per id-carrying slot, in order, under the original id, for every inner body |
| `BatchGate.AnsweredUnlessNull` | evmrpc/sei_legacy_http.go:152-160 | as many required answers are missing as there are null slots, so every slot that is no request is answered iff none is null |
| `BatchGate.NullUnanswered` | evmrpc/sei_legacy_http.go:152-160 | a null beside a forwarded legacy request: only the request is answered |
| `BatchGate.AnswersAreOwn` | evmrpc/sei_legacy_http.go:258-333 | if the inner server echoes each synthetic id once in any order, each forwarded slot gets its own reply |
| `BatchGate.HandleBatch` | evmrpc/sei_legacy_http.go:137-224 | passes the body through iff all slots are forwarded and none is legacy; otherwise answers every slot as specified, and every slot that is no request iff none is null |
| `ByteBudget.NewLimits` | evmrpc/request_limiter.go:48-62 | a budget exists iff configured and always admits one request of maximal size |
| `ByteBudget.BudgetBody.Charge` | evmrpc/request_limiter.go:253-263 | succeeds iff the whole batches fit; bytes are conserved and less than a batch stays unbilled |
| `ByteBudget.BudgetBody.Flush` | evmrpc/request_limiter.go:265-275 | bills the rest iff it fits |
| `ByteBudget.BudgetBody.ReleaseAll` | evmrpc/request_limiter.go:277-283 | gives back exactly what is reserved |
| `ByteBudget.BudgetBody.Fail` | evmrpc/request_limiter.go:290-300 | releases everything, closes the body and records the outcome |
| `ByteBudget.BudgetBody.Read` | evmrpc/request_limiter.go:137-170 | succeeds iff the bytes fit and the read did not stall; otherwise everything is released and the outcome recorded |
| `ByteBudget.BudgetBody.Close` | evmrpc/request_limiter.go:232-251 | bills the trailing bytes or records the refusal; a closed body stays as it is |
| `ByteBudget.ServeHTTP` | evmrpc/request_limiter.go:64-110 | for every inner handler the semaphore ends where it began; the status the client sees from it is the size refusal iff the declared length exceeds the cap, else the recorded outcome unless the handler panicked, had written before the outcome, or flushed |
| `ByteBudget.OutcomeHasReason` | evmrpc/request_limiter.go:137-251 | an outcome is a refusal only if the bytes read do not fit beside the others, and a timeout only if a read stalled |
| `ByteBudget.Conservation` | evmrpc/request_limiter.go:137-300 | over every interleaving usage is the sum of the reservations and within capacity; reserved plus unbilled is what was read since the last release, and less than a batch is unbilled between reads |
| `ByteBudget.NothingLeaks` | evmrpc/request_limiter.go:84-92 | no release exceeds what is held, and once all requests are over nothing is held |
| `ByteBudget.LoneRequestAdmitted` | evmrpc/request_limiter.go:43-62 | the only request that holds bytes is never turned away by the budget |
| `ByteBudget.AnsweredExactly` | evmrpc/request_limiter.go:94-110 | over every run the client is told the outcome of a request iff the handler returned after it was recorded, had not written before it was recorded, and had not flushed |
| `ByteBudget.FirstOutcomeStands` | evmrpc/request_limiter.go:305-311 | over every run the first outcome recorded for a request stands to the end |
| `ByteBudget.RefusedAfterReturn` | evmrpc/request_limiter.go:88-110 | a run in which the deferred close refuses the trailing bytes after the outcome was read |
| `ByteBudget.RefusedAfterWrite` | evmrpc/request_limiter.go:332-350 | a run in which a response begun before the refusal hides it |
| `ByteBudget.RefusedThenFlush` | evmrpc/request_limiter.go:352-356 | a run in which a handler that wrote nothing flushes after the refusal and returns, and the refusal is not told |
| `ByteBudget.RefusedThenPanic` | evmrpc/request_limiter.go:94-110 | a run in which a panic keeps a refusal from being answered |
| `ByteBudget.UndisturbedRead` | evmrpc/request_limiter.go:137-170 | the steps of a read, taken without another request between them, are the read of the class |
| `ByteBudget.UndisturbedClose` | evmrpc/request_limiter.go:232-251 | the steps of a close, taken without another request between them, are the close of the class |

## Left out

- The HTTP filter polling cursor (evmrpc/filter.go:482-550) is not modelled; the claims about gaps are
  about the subscription loop.
- OCC scheduler, giga and regular cache internals, keepers, EVM execution, keccak, signature recovery
  and ABI packing are contracts or parameters.
- Store errors of the range path other than its byte budget, context cancellation, and block-hash
  queries are not part of the log model.
- Optimistic.Reachable: the worker's writes to the proposal store are one step at its end, and
  FinalizeBlock is followed by Commit before the next proposal.
- Dispatch.ProcessTxsSynchronousGiga: stores are values; sharing of store objects between contexts is
  not modelled.
- EthReplay and EthBlockTest modes, light invariance panics inside FinalizeBlock, and the chain-id
  check ahead of ProcessProposal.
- Percentiles.CalculatePercentiles: thresholds are arbitrary uint64 values instead of floating-point
  products, and the sort works on a value instead of in place.
- LogWorkers.SortBatches: a batch is sorted as a value, by any arrangement sort.Slice may give.
- The idle-watch timers of the limiter, log subscription slots (evmrpc/subscribe.go:332-352), and the
  caches' eviction and pruning: what they decide is a parameter here (a stalled read, a cached set).
- JSON text syntax: messages are records with an id, a method and the rest; ids carry no surrounding
  white space.
- Metrics, logging, tracing, configuration, HTTP and WebSocket plumbing.
