# Verified models of the native training and planning layer

This project models, in Dafny, the mutable-state algorithms behind the native layer of the
repository and proves what they promise. The closed game engine appears only as a record of
deterministic functions (`TransitionModel.Engine`, `ArenaCalls.ArenaEngine`), so every theorem
holds for every engine that meets the few assumptions named in the contracts. Check it with
`dafny verify dfyconfig.toml`.

Seven parts, each a specification on values, the source's loops proved against it, and theorems
about it:

1. **Work-sharing thread pool** (`PoolMachine`, `PoolSafety`, `PoolTheorems`, `PoolLaws`,
   `ParallelExecutor`). Every interleaving of submit, claim, row check, row finish, retire, sleep,
   wake (also spurious), return, stop and exit steps is a run of a labelled machine. One inductive
   invariant gives exactly-once rows, the concurrency each caller asked for, no reference to a
   departed client's job, a worker on its way to every entry of the deque while any worker sleeps,
   bounded total work and first-in-first-out service.
2. **Quota scheduler** (`QuotaModel`, `QuotaLaws`, `QuotaFairness`, `QuotaSelection`,
   `QuotaScheduler`). Cohort search, cross-multiplied comparisons with their 128-bit wrap-around,
   deficit picks, exact accounting, a two-sided fairness bound over every history, uniqueness of the
   outcome, and which cohort and which rows are served, in sets and sums alone.
3. **Transactional arena output** (`PublicLogs`, `LogSecrecy`, `PublicState`, `PublicCompleteness`,
   `PublicStateSink`, `PublicTraversal`, `ArenaPlan`, `ArenaOutput`, `ArenaWrite`, `ArenaCommit`,
   `RowInterleaving`, `RowEntry`, `ArenaStep`, `ArenaCalls`, `ArenaEntry`, `ArenaHistory`,
   `ArenaOutcomes`). Counting pass, prefix-sum plan, commit after validation, parallel writing under
   every interleaving of single writes, exceptions in the middle of it, and the compacting public
   log with one cursor a seat, followed through whole histories of calls. A seat gets every card it
   may see and none that it may not.
4. **Planner grid and planning sessions** (`TransitionModel`, `ForcedPaths`, `PlannerGame`,
   `PlannerInput`, `GridOrder`, `Wire`, `PlannerGridModel`, `PlannerGrid`, `PlannerAnswers`,
   `SessionModel`, `SessionTransition`, `SessionBatch`, `SessionFold`, `SessionPayload`,
   `SessionRows`, `PlannerSession`, `SessionCalls`, `SessionContinue`). A random-stream-restoring
   loop refines a pure per-cell map; every row of a session call is decided by where it starts; a
   generational arena never aliases; payloads decode to what was put in, under the fingerprint of
   the request they answer.
5. **Incremental SHA-256 and request pre-images** (`Sha256Spec`, `Sha256Example`, `Sha256`, `Bytes`,
   `RequestFingerprint`), following FIPS 180-4 sections 4.1.2, 4.2.2, 5.1.1, 5.3.3 and 6.2.2.
6. **The Python client** (`ClientCheck`, `ClientSession`, `ClientPlanner`, `ClientCalls`,
   `ClientFingerprint`). It validates every native answer and computes every fingerprint on its own;
   both sides agree on all inputs.
7. **Codecs** (`TokenModel`, `TokenVectors`, `StateToken`, `StateLayout`, `CpuListModel`,
   `CpuListExamples`, `CpuList`): the run-compressed base64 token of section 4 of RFC 4648 and the
   CPU-list notation.

`Common` holds integer ranges and small facts about sequences and sets.

Where the source changes fields or arrays, the model is a class or an array method whose contract
ties the new state to a specification function of the old one. Exceptions are result values.

Results that differ from a first reading of the source:

- Base64 decoding is not injective: unused bits before padding are ignored, so `QR==` decodes like
  `QQ==` (`TokenModel.DecoderAcceptsNonCanonicalText`). Re-encoding returns the text exactly when
  those bits are zero (`TokenModel.ReencodeExactly`).
- Printing and parsing a CPU list round-trips exactly for valid lists (`CpuListModel.FormatParses`);
  any other non-empty tuple prints to text that does not parse back to it.
- Exceptions apart, the planner grid fails as a whole exactly when the summed cost of its cells
  exceeds a budget, so success does not depend on the execution order
  (`PlannerGrid.DecisionBatch`).
- An exception in the middle of a continuation leaves the states retained so far in the arena,
  although the caller never learns their handles. It leaves the arena untouched exactly when no row
  up to it took a slot (a row whose observation does not fit takes one and empties it again), and
  one more state is live for every row that kept its own
  (`SessionContinue.ContinueLeaves`); `SessionContinue.ExceptionLeaks` is a request that leaks.
- A step or reset that reports an engine exception may have happened: if the exception strikes while
  the output is written, every game is committed, and cursors have moved for exactly the rows written
  to the end (`ArenaEntry.CgTrainStep`, `ArenaEntry.ExceptionCommits`). The log histories stay
  faithful, counting what those rows put into the buffers as delivered
  (`ArenaHistory.HistoriesAreFaithful`).
- After a session row has run out of engine steps, later rows that need a step do too: a row is
  stopped by the budget exactly when it needs a step and the rows up to it need more than the cap
  (`SessionFold.StoppedExactly`).

## Model

| member | source | states |
|---|---|---|
| `ParallelExecutor.Impl.Enqueue` | src/native/cg_train/parallel_executor.cpp:114-122 | the whole new pool is the machine's enqueue: nothing for a queued, exhausted or saturated job, otherwise appended with one waiting worker signalled |
| `ParallelExecutor.Impl.Submit` | src/native/cg_train/parallel_executor.cpp:195-217 | submitting performs exactly the Submit step: the concurrency is the least of what the caller allows, the rows and the workers, and the grain is rounded |
| `ParallelExecutor.Impl.Claim` | src/native/cg_train/parallel_executor.cpp:129-143 | popping performs exactly the Claim step: the front job, the next chunk, re-enqueued at the back when allowed |
| `ParallelExecutor.Impl.CheckRow` | src/native/cg_train/parallel_executor.cpp:145-148 | a row is skipped when the job is cancelled and entered otherwise |
| `ParallelExecutor.Impl.FinishRow` | src/native/cg_train/parallel_executor.cpp:149-157 | a throwing row records the first exception only and cancels the job |
| `ParallelExecutor.Impl.Retire` | src/native/cg_train/parallel_executor.cpp:160-169 | retiring performs exactly the Retire step: counters fall by the chunk, then either the client is signalled or the job is re-enqueued |
| `ParallelExecutor.Impl.Return` | src/native/cg_train/parallel_executor.cpp:217-222 | the client leaves only when nothing remains, and gets the recorded exception |
| `ParallelExecutor.RunInline` | src/native/cg_train/parallel_executor.cpp:205-210 | rows run in order on the caller, each once, up to and including the first that throws |
| `PoolSafety.EnqueueKeeps` | src/native/cg_train/parallel_executor.cpp:114-122 | enqueueing preserves the whole invariant wherever it is called, with a worker woken for the new entry |
| `PoolSafety.StepWatches` | src/native/cg_train/parallel_executor.cpp:114-171 | every step keeps as many workers on their way to the deque as it has entries, while any worker sleeps |
| `PoolSafety.StepKeeps` | src/native/cg_train/parallel_executor.cpp:114-171 | every enabled step of every thread preserves the invariant that ties deque, counters, chunks and history together |
| `PoolSafety.RunKeeps` | src/native/cg_train/parallel_executor.cpp:114-171 | the invariant holds after every run from every initial pool |
| `PoolTheorems.ReachableInv` | src/native/cg_train/parallel_executor.cpp:82-93 | in every reachable pool `remaining` is unclaimed plus in-flight rows, `active` counts held chunks and stays within its cap, and the deque holds exactly the queued jobs |
| `PoolTheorems.CompletedJobIsUnreferenced` | src/native/cg_train/parallel_executor.cpp:160-169 | once nothing remains, no deque entry and no worker refers to the job and its client is not left waiting |
| `PoolTheorems.CompletedJobIsFrozen` | src/native/cg_train/parallel_executor.cpp:212-219 | no later step of any thread changes a completed job |
| `PoolTheorems.NoDanglingJob` | src/native/cg_train/parallel_executor.cpp:212-223 | a job whose client has left the stack frame is never reachable from the pool |
| `PoolTheorems.AtMostOnce` | src/native/cg_train/parallel_executor.cpp:138-158 | no row is ever entered twice, and only claimed rows are entered |
| `PoolTheorems.ExactlyOnceOrFirstThrow` | src/native/cg_train/parallel_executor.cpp:145-158 | when the wait ends, every row was entered exactly once, or the exception handed over is the first one thrown |
| `PoolTheorems.ConcurrencyCap` | src/native/cg_train/parallel_executor.cpp:114-118 | the number of workers holding chunks of a job is `active` and never exceeds the job's cap (`PoolLaws.CallerCap` ties it to the call) |
| `PoolTheorems.AtMostFourChunksPerWorker` | src/native/cg_train/parallel_executor.cpp:76-80 | grain rounding yields at most four chunks for every allowed worker |
| `PoolTheorems.ClaimedRowsPartition` | src/native/cg_train/parallel_executor.cpp:138-141 | rows held in chunks lie below `next`, and the rest of `[0, next)` is exactly as large as the retired count |
| `PoolTheorems.NoDeadlock` | src/native/cg_train/parallel_executor.cpp:114-143 | while any job is unfinished some worker can claim, run or retire |
| `PoolTheorems.NoLostWakeUp` | src/native/cg_train/parallel_executor.cpp:114-135 | in every reachable pool with a sleeping worker, each entry of the deque has a worker of its own about to look at it, and a claim is possible at once: no wake-up is lost |
| `PoolTheorems.ExitDrains` | src/native/cg_train/parallel_executor.cpp:103-112 | when every worker has left its loop, every job is finished and the deque is empty |
| `PoolTheorems.StepCost` | src/native/cg_train/parallel_executor.cpp:124-171 | each claim, row and retire step lowers a measure that only submissions raise, by four a row |
| `PoolTheorems.WorkIsBounded` | src/native/cg_train/parallel_executor.cpp:124-171 | every run takes at most four working steps a submitted row |
| `PoolTheorems.EveryJobCanFinish` | src/native/cg_train/parallel_executor.cpp:124-171 | from every reachable pool the workers alone can finish every job |
| `PoolTheorems.FifoService` | src/native/cg_train/parallel_executor.cpp:114-142 | a job at position p of the deque is popped within p + 1 pops |
| `PoolLaws.SubmitsExactly` | src/native/cg_train/parallel_executor.cpp:198-210 | a batch goes to the pool exactly if it has 16 rows or more, the caller allows a second thread and the pool has one |
| `PoolLaws.CallerCap` | src/native/cg_train/parallel_executor.cpp:198-215 | at every later moment of every run, at most as many workers are on the rows of a call as its caller allowed, as it has rows, and as there are |
| `PoolLaws.NoIdleAllowance` | src/native/cg_train/parallel_executor.cpp:114-122 | no allowed thread is wasted: while rows are unclaimed and fewer workers are on them than allowed, the job waits in the deque |
| `PoolLaws.ChunksAreSmall` | src/native/cg_train/parallel_executor.cpp:76-80 | a chunk of more than one row would, one row shorter, need more than four chunks an allowed thread |
| `PoolLaws.ThrowStopsEntries` | src/native/cg_train/parallel_executor.cpp:145-157 | once a row has thrown, no step of any thread enters another row of that call |
| `PoolLaws.NothingSkipped` | src/native/cg_train/parallel_executor.cpp:145-150 | before a row has thrown, a row is entered as soon as its turn comes |
| `QuotaScheduler.CgTrainQuotaScheduler.Create` | src/native/cg_train/quota_scheduler.cpp:110-152 | a scheduler is created exactly for non-empty positive quotas with existing slots and a 64-bit total, each row starting with its whole quota |
| `QuotaScheduler.CgTrainQuotaScheduler.CanTake` | src/native/cg_train/quota_scheduler.cpp:163-197 | the answer is yes exactly when the arguments are valid and some cohort within the limit can serve the request |
| `QuotaScheduler.CgTrainQuotaScheduler.CohortProgress` | src/native/cg_train/quota_scheduler.cpp:45-57 | the totals are the initial and issued games of the cohort's rows |
| `QuotaScheduler.CgTrainQuotaScheduler.Probe` | src/native/cg_train/quota_scheduler.cpp:223-236 | the games a mask can still serve, and whether it can serve the required artifact |
| `QuotaScheduler.CgTrainQuotaScheduler.BestMask` | src/native/cg_train/quota_scheduler.cpp:215-248 | the subset scan finds the feasible cohort that precedes all other feasible ones, which is the one furthest behind in issued share, or shows there is none |
| `QuotaScheduler.CgTrainQuotaScheduler.EligibleTotals` | src/native/cg_train/quota_scheduler.cpp:250-259 | initial and issued totals of the rows a mask can serve, without 64-bit overflow |
| `QuotaScheduler.CgTrainQuotaScheduler.SelectRow` | src/native/cg_train/quota_scheduler.cpp:262-280 | the scan selects the preferred candidate by signed deficit, and reports none exactly when there is none |
| `QuotaScheduler.CgTrainQuotaScheduler.EmitShard` | src/native/cg_train/quota_scheduler.cpp:260-310 | the picks are the shard of the mask; neither the "disappeared" nor the "exhausted" exception can occur |
| `QuotaScheduler.CgTrainQuotaScheduler.Take` | src/native/cg_train/quota_scheduler.cpp:199-321 | success exactly when the arguments are valid, the output is large enough and the request is servable; then the shard of the cohort furthest behind is emitted and charged; otherwise scheduler and rows stay, and the count is zero, or the caller's own value after invalid arguments |
| `QuotaLaws.EarlierProgressIsExact` | src/native/cg_train/quota_scheduler.cpp:59-75 | the 128-bit products never wrap, and a cohort comes earlier exactly if its issued share, multiplied out, is smaller, ties going to the smaller mask and cohorts without games last |
| `QuotaLaws.RowDeficitIsExact` | src/native/cg_train/quota_scheduler.cpp:78-94 | both scores of two distinct eligible rows are at most the square of the eligible total, and the unsigned comparison decides the signed deficit order |
| `QuotaLaws.SumsFit` | src/native/cg_train/quota_scheduler.cpp:132-141 | every partial sum the scheduler forms fits in 64 bits |
| `QuotaLaws.EarlierIsStrictTotalOrder` | src/native/cg_train/quota_scheduler.cpp:59-76 | the progress order is irreflexive, total on distinct masks and transitive |
| `QuotaLaws.BestMaskIsUnique` | src/native/cg_train/quota_scheduler.cpp:218-243 | the subset scan has one possible answer |
| `QuotaLaws.FeasibleIsMonotone` | src/native/cg_train/quota_scheduler.cpp:218-236 | admitting more artifacts never makes a request infeasible |
| `QuotaLaws.UnrestrictedRequest` | src/native/cg_train/quota_scheduler.cpp:163-197 | with every artifact admitted and none required, feasibility is `game_count <= remaining` |
| `QuotaSelection.ServableExactly` | src/native/cg_train/quota_scheduler.cpp:215-241 | a request can be served exactly if some set of at most `limit` artifacts, with the required one in it and a game left for it, leaves enough games in the rows of those artifacts and of none |
| `QuotaSelection.FeasibleServes` | src/native/cg_train/quota_scheduler.cpp:217-241 | a mask is feasible exactly if the artifacts of its binary digits serve the request |
| `QuotaSelection.BestIsFurthestBehind` | src/native/cg_train/quota_scheduler.cpp:242-248 | of all masks whose artifacts serve the request the one taken has the smallest issued share of its cohort's games, multiplied out; equal shares go to the smaller mask, and a cohort without games is taken only if all are |
| `QuotaSelection.PopcountIsSize` | src/native/cg_train/quota_scheduler.cpp:37-39 | the population count of a mask is the number of its artifacts |
| `QuotaSelection.PicksAreOwedMost` | src/native/cg_train/quota_scheduler.cpp:260-310 | every pick of a shard, the earlier ones counted, serves a waiting row that is owed most, ties going to the lower row; the first looks at the rows of the required artifact alone |
| `QuotaFairness.PickLaws` | src/native/cg_train/quota_scheduler.cpp:306-309 | one pick keeps the scheduler valid and moves exactly one game from remaining to issued |
| `QuotaFairness.ShardIsCoherent` | src/native/cg_train/quota_scheduler.cpp:260-310 | every pick is a row the mask may serve, and the first serves the required artifact |
| `QuotaFairness.TakeIsCoherent` | src/native/cg_train/quota_scheduler.cpp:218-310 | the picks of one request touch the cohorts of at most `limit` artifacts |
| `QuotaFairness.ShardAccounts` | src/native/cg_train/quota_scheduler.cpp:281-284 | a shard changes only remaining counts, each by how often its row was picked |
| `QuotaFairness.TakeHasOneOutcome` | src/native/cg_train/quota_scheduler.cpp:199-313 | mask and picks of a request are determined by the scheduler state |
| `QuotaFairness.PickedRowIsBehind` | src/native/cg_train/quota_scheduler.cpp:287-310 | every unrestricted pick serves a row with strictly positive deficit |
| `QuotaFairness.EmissionsMatchCounters` | src/native/cg_train/quota_scheduler.cpp:287-310 | over any history, a row was emitted exactly `initial - remaining` times |
| `QuotaFairness.HistoriesAreFair` | src/native/cg_train/quota_scheduler.cpp:250-310 | over any history on one eligible set, no row is a whole game ahead of its share and none is n - 1 games behind |
| `QuotaFairness.UncohortedHistoriesAreFair` | src/native/cg_train/quota_scheduler.cpp:250-310 | without cohort slots the bound covers every history of requests that name no artifact |
| `PublicLogs.ProjectionHides` | src/native/cg_train/public_log.h:47-74 | the projection of an entry a seat may not identify depends on nothing but the mover and the areas |
| `PublicLogs.DeltaHides` | src/native/cg_train/cg_train.cpp:831-840 | logs alike entry by entry to a seat give equal deltas (`LogSecrecy.HiddenCardsStayHidden` says which entries those are) |
| `LogSecrecy.HiddenCardsStayHidden` | src/native/cg_train/public_log.h:47-73 | whatever cards the opponent drew, and whatever cards were moved neither openly nor for this seat's eyes, the seat is sent the same |
| `LogSecrecy.EveryEntryArrives` | src/native/cg_train/public_log.h:29-97 | every public entry arrives once and in its place: an opponent's draw without its card, a move out of sight as a move between two areas, everything else with all the parameters of its kind |
| `PublicLogs.PublicLogStart` | src/native/cg_train/cg_train.cpp:541-552 | the start is the seat's cursor; it throws exactly for an unknown seat or a cursor outside the log |
| `PublicLogs.DeliveryStep` | src/native/cg_train/cg_train.cpp:826-849 | a delivery keeps the history faithful, brings its seat up to date, never moves a seat back, and leaves nothing that both seats have read |
| `PublicLogs.CompactionStep` | src/native/cg_train/cg_train.cpp:842-849 | erasing the commonly consumed prefix and shifting both cursors loses nothing either seat has not read |
| `PublicLogs.EveryRunIsFaithful` | src/native/cg_train/cg_train.cpp:541-567 | over any run of appends, outputs and failures, what a seat was sent is the projection of a prefix of the whole uncompacted history: no gap, no duplicate, no reordering |
| `PublicLogs.OutputCatchesUp` | src/native/cg_train/cg_train.h:220-222 | right after its own output a seat has been sent everything logged so far |
| `PublicState.HiddenZonesStayHidden` | src/native/cg_train/cg_train.cpp:411-523 | games that look alike once everything hidden from a seat is erased are shown alike to it |
| `PublicState.SeenIsEnough` | src/native/cg_train/cg_train.cpp:411-523 | what a seat is shown can be drawn from the erased view alone: face-down cards as places, open cards with what travels with them |
| `PublicState.HiddenCardsMayDiffer` | src/native/cg_train/cg_train.cpp:411-523 | replacing face-down active, bench and prize cards, the other hand, the decks and unseen looked-at cards by any others, and rewriting their table entries, changes nothing a seat is shown |
| `PublicCompleteness.VisibleShowsEverything` | src/native/cg_train/cg_train.cpp:411-524 | for every area the rows are exactly the cards of the zones the seat may see, in order, with their numbers and what is under them, blank exactly where face down or redacted, and no row is of any other area |
| `PublicCompleteness.OwnHandIsShown` | src/native/cg_train/cg_train.cpp:446-451 | every card of the acting seat's hand has exactly one row, with its index, number and table entry, and the hand rows are as many as the hand |
| `PublicCompleteness.AreasInOrder` | src/native/cg_train/cg_train.cpp:417-519 | the areas follow each other in one order, and the looking mode is 0, 1 or 2 exactly as nothing, open cards or blanks are shown |
| `PublicState.ParentsAreOwn` | src/native/cg_train/cg_train.cpp:358-374 | every attachment names a card in its own row's range, and that card really carries it |
| `PublicStateSink.Sink.AppendCard` | src/native/cg_train/cg_train.cpp:317-334 | one card and all its attachments are appended at the running offsets, whether counted or written, and nothing else changes |
| `PublicStateSink.Sink.AppendHiddenCard` | src/native/cg_train/cg_train.cpp:307-315 | a face-down card appends one blank row |
| `PublicStateSink.Sink.AppendZone` | src/native/cg_train/cg_train.cpp:376-403 | an attachment zone contributes exactly the cards that moved with the Pokemon, in order |
| `PublicTraversal.TraversePublicState` | src/native/cg_train/cg_train.cpp:411-524 | the traversal emits exactly the visible cards in order and reports the absolute rows of the two virtual ones; area by area these are all the cards the seat may see |
| `PublicTraversal.VirtualRowsPoint` | src/native/cg_train/cg_train.cpp:506-522 | those two rows hold the context card and the effect card |
| `PublicTraversal.CountPublicState` | src/native/cg_train/cg_train.cpp:525-532 | counting without an output yields the sizes the writing traversal will fill |
| `ArenaOutput.CountRow` | src/native/cg_train/cg_train.cpp:649-661 | the four counts of a row, or the exception its counting raises |
| `ArenaOutput.CountPublicLogs` | src/native/cg_train/cg_train.cpp:554-567 | the count is the length of the delta that will be written; it throws exactly where the start does |
| `ArenaOutput.ValidateOutput` | src/native/cg_train/cg_train.cpp:633-717 | the plan is accepted exactly when no row throws and every column fits its capacity and 32 bits; its offsets are the prefix sums of the row sizes |
| `ArenaPlan.PlaceOne` | src/native/cg_train/cg_train.cpp:736-851 | writing one row's part into its planned stretch leaves every other stretch alone |
| `ArenaPlan.PlacedAll` | src/native/cg_train/cg_train.cpp:736-851 | once all parts are placed the column is the parts joined, then what was there before |
| `ArenaPlan.PlacedOnce` | src/native/cg_train/cg_train.cpp:736-851 | which parts are placed determines a column completely, also when only some are |
| `ArenaWrite.WriteOptions` | src/native/cg_train/cg_train.cpp:806-816 | the options fill their stretch and nothing else |
| `ArenaWrite.WriteLogs` | src/native/cg_train/cg_train.cpp:831-840 | the public, projected unread entries fill their stretch and nothing else, every public entry in its place and as its kind and the seat require |
| `ArenaWrite.MoveCursor` | src/native/cg_train/cg_train.cpp:841-849 | the cursor assignment and the erasure are the delivery of the log model |
| `ArenaWrite.WriteRow` | src/native/cg_train/cg_train.cpp:736-850 | one row changes only its scalar row, its planned stretches and its own slot, and moves a cursor only if it succeeded; if its observation cannot be rendered it throws, with scalars, options and cards written and nothing else |
| `RowEntry.ExecutorEnters` | src/native/cg_train/parallel_executor.cpp:145-223 | the rows a completed job entered are all rows, or, once one has thrown, those of an order of rows up to the throw and the ones other workers were in |
| `RowEntry.EnteredIsEntry` | src/native/cg_train/parallel_executor.cpp:145-158 | whatever the order and the late rows, all rows are entered or one of those entered throws, and all are when nothing in the batch throws |
| `RowEntry.EntryArises` | src/native/cg_train/parallel_executor.cpp:145-158 | every set of rows the executor may enter arises from some order, so the writing pass covers them all |
| `ArenaStep.WriteOutput` | src/native/cg_train/cg_train.cpp:719-851 | for every order of the rows entered, and for every interleaving of their single writes, exactly those rows are written, up to where they throw, and the pass throws exactly when a row of the batch does |
| `ArenaCommit.ResultIsUnique` | src/native/cg_train/cg_train.cpp:719-851 | two results for the same rows entered are equal in every column, slot and observation, so the schedule leaves no trace |
| `RowInterleaving.OwnersAreUnique` | src/native/cg_train/cg_train.cpp:876-901 | with unique slots no location is owned by two rows |
| `RowInterleaving.InterleavingsAgree` | src/native/cg_train/cg_train.cpp:736-851 | two executions in which every row makes the same writes end in the same contents, however the rows interleave |
| `RowInterleaving.RowOwned` | src/native/cg_train/cg_train.cpp:736-850 | every single write of a row is made in a location that row owns |
| `RowInterleaving.RowApplied` | src/native/cg_train/cg_train.cpp:736-850 | a row's single writes, made in their order, are what the writing pass does for the row |
| `RowInterleaving.InterleavingWrites` | src/native/cg_train/cg_train.cpp:736-851 | every interleaving of the writes of the rows entered leaves those rows written, up to where they throw, and nothing else |
| `ArenaCalls.HasUniqueValidSlots` | src/native/cg_train/cg_train.cpp:876-901 | slots are accepted exactly when there are some, within capacity and pairwise different |
| `ArenaCalls.CommitPending` | src/native/cg_train/cg_train.cpp:903-916 | committed games land in their slots and every other slot keeps its game |
| `ArenaCalls.AdvanceForcedChain` | src/native/cg_train/cg_train.cpp:136-147 | the loop is the chain of choiceless callbacks, failing on an exception or a 32-bit count |
| `ArenaCalls.ChainExtends` | src/native/cg_train/cg_train.cpp:136-147 | a finished chain stands at a real choice or the end of the game, and only appended to the log |
| `ArenaCalls.Publish` | src/native/cg_train/cg_train.cpp:1187-1210 | a refused batch leaves lane and output unchanged; an accepted one commits every game and writes the rows entered, and reports an exception exactly when a row throws after the commit |
| `ArenaCalls.StepFollowsLog` | src/native/cg_train/cg_train.cpp:1130-1184 | a successful row appends to its log and outputs to its seat; a failed row outputs nothing and keeps its game |
| `ArenaCalls.ResetFollowsLog` | src/native/cg_train/cg_train.cpp:1030-1061 | a successful reset starts a fresh log; a failed one keeps the old game |
| `ArenaCalls.StepKeepsFaithful` | src/native/cg_train/cg_train.cpp:823-849 | across a step, the rows written for a seat are appended to what it was sent and its history stays faithful |
| `ArenaCalls.ResetKeepsFaithful` | src/native/cg_train/cg_train.cpp:1030-1061 | a reset that succeeds starts a faithful history with its own first delivery; one that fails leaves game and history alone |
| `ArenaCalls.StepUnsent` | src/native/cg_train/cg_train.cpp:821-849 | a committed step row that was not written to the end keeps its history faithful with nothing sent and no cursor moved |
| `ArenaCalls.ResetUnsent` | src/native/cg_train/cg_train.cpp:821-849 | a committed reset row that was not written to the end starts a faithful history with nothing sent |
| `ArenaEntry.StepGame` | src/native/cg_train/cg_train.cpp:1126-1185 | the pending row of one game: terminal, rejected, failed or advanced |
| `ArenaEntry.CgTrainStep` | src/native/cg_train/cg_train.cpp:1090-1211 | refused arguments and a refused plan change nothing and have their own codes; otherwise every game is committed and the rows entered are written, with the exception code exactly when a row throws after the commit |
| `ArenaEntry.ResetGame` | src/native/cg_train/cg_train.cpp:1028-1062 | the pending row of one reset: bad deck, failed or ready |
| `ArenaOutcomes.StepRowMeans` | src/native/cg_train/cg_train.cpp:1130-1184 | status, error, game and callback count of a step's row, in numbers, for a finished game, a rejected action, a game that cannot be played on, and one that moves along a chain of choiceless callbacks to its end |
| `ArenaOutcomes.ResetRowMeans` | src/native/cg_train/cg_train.cpp:1030-1061 | the same of a reset's row |
| `ArenaOutcomes.PlanIsAddressable` | src/native/cg_train/cg_train.cpp:662-716 | every offset of an accepted plan is a 32-bit number inside the caller's buffer |
| `ArenaOutcomes.ActionsJoin` | src/native/cg_train/cg_train.cpp:1101-1108 | the actions of the rows joined are the whole action buffer |
| `ArenaEntry.CgTrainReset` | src/native/cg_train/cg_train.cpp:1009-1088 | refused slots and a refused plan change nothing and have their own codes; otherwise every game is committed and the rows entered are written, with the exception code exactly when a row throws after the commit |
| `ArenaEntry.CgTrainClearSlots` | src/native/cg_train/cg_train.cpp:985-1007 | exactly the named slots are emptied, or nothing |
| `ArenaEntry.PublishedIsUnique` | src/native/cg_train/cg_train.cpp:1187-1203 | a published batch has one outcome for the rows entered, whatever the schedules were |
| `ArenaEntry.SlotsAfterPublish` | src/native/cg_train/cg_train.cpp:1195-1210 | a committed slot holds its game with the delta delivered, or with nothing delivered if its row was not written to the end; a failed row's slot holds its old game, every other slot what it held |
| `ArenaOutcomes.ObservationsAfterPublish` | src/native/cg_train/cg_train.cpp:821-827 | a row written to the end leaves the observation of its committed game in its slot, before any delivery; all other observations stay |
| `ArenaOutcomes.ScalarsPoint` | src/native/cg_train/cg_train.cpp:738-803 | the two virtual rows a scalar row names are the rows of the context card and the effect card, and there are none exactly without such cards |
| `ArenaEntry.ExceptionCommits` | src/native/cg_train/cg_train.cpp:1195-1210 | the exception code is no sign that nothing happened: a one-game step whose observation cannot be rendered leaves the advanced game in the slot |
| `ArenaHistory.StretchIsDelta` | src/native/cg_train/cg_train.cpp:823-849 | what a call leaves in the log column's stretch of a row written to the end is that row's delta |
| `ArenaHistory.StepHappened` | src/native/cg_train/cg_train.cpp:1195-1210 | what the contract of a step says, exception or not, is a step of such a history |
| `ArenaHistory.ResetHappened` | src/native/cg_train/cg_train.cpp:1070-1087 | and so is what the contract of a reset says |
| `ArenaHistory.HistoriesAreFaithful` | src/native/cg_train/cg_train.cpp:985-1211 | over any history of reset, step and clear calls, refused, failing on single rows or stopped by an exception after the commit, the rows delivered to each seat of a slot agree with the game the slot holds |
| `ArenaHistory.SeatsAreSentPrefixes` | src/native/cg_train/cg_train.cpp:823-849 | what the log column delivered to a seat is the projection of a first part of everything its game logged |
| `TransitionModel.ForcedIsTheOnlyChoice` | src/native/cg_probe/planner_session_internal.cpp:101-116 | an action is forced exactly when it is the only selection the prompt's bounds admit |
| `TransitionModel.DriveReaches` | src/native/cg_probe/planner_session_internal.cpp:439-469 | the forced-prompt loop succeeds exactly when a settled state is reached within both caps, and the state does not depend on the caps |
| `TransitionModel.TransitionSucceeds` | src/native/cg_probe/planner_session_internal.cpp:413-473 | a transition succeeds exactly when the uncapped consequence of its action fits both caps |
| `TransitionModel.TransitionShape` | src/native/cg_probe/planner_session_internal.cpp:427-474 | success means error code zero, `1 + forced` steps and as many engine steps; a spent budget is spent completely |
| `ForcedPaths.PassesExactly` | src/native/cg_probe/planner_export.cpp:236-270 | a prompt is passed without asking exactly if the game goes on, the root player is asked, it is neither a coin nor the main prompt, and only one selection is within its bounds |
| `ForcedPaths.ConsequencePlaysOut` | src/native/cg_probe/planner_export.cpp:550-640 | a consequence is a walk from prompt to prompt, each passed with its only selection, to a place that asks for a choice or may not be passed |
| `ForcedPaths.PlaysOutIsConsequence` | src/native/cg_probe/planner_export.cpp:550-640 | and every such walk is a consequence |
| `ForcedPaths.EndpointStands` | src/native/cg_probe/planner_export.cpp:254-270 | the endpoint number is 1, 5, 3, 2 or 4 exactly for a finished game, a coin, the other seat, a main prompt and any other prompt of the root player |
| `ForcedPaths.FirstErrors` | src/native/cg_probe/planner_export.cpp:556-588 | before the walk the error is the root's own, 6 for a repeated option, the engine's verdict, or the first step's |
| `ForcedPaths.WalkErrors` | src/native/cg_probe/planner_export.cpp:589-631 | on the walk it is 90 at the forced cap, the error of a failing step, or 92 for randomness used under the strict rule |
| `PlannerGame.Game.DriveForced` | src/native/cg_probe/planner_session_internal.cpp:439-469 | the loop computes the specified walk and its engine steps |
| `PlannerGame.Game.Branch` | src/native/cg_probe/planner_session_internal.cpp:152-171 | a branch runs from the root's own random stream and puts the game's stream back |
| `PlannerInput.CheckedSum` | src/native/cg_probe/planner_session_internal.cpp:297-314 | the sum is given exactly when every item is in range and the total fits a C int |
| `PlannerInput.ReadActions` | src/native/cg_probe/planner_session_internal.cpp:385-401 | action i is the stretch of values its counts delimit |
| `PlannerInput.ItemsJoin` | src/native/cg_probe/planner_session_internal.cpp:385-401 | the items of a ragged buffer, each as long as its count, are its values one after the other |
| `PlannerInput.StartRoot` | src/native/cg_probe/planner_session_internal.cpp:316-373 | a world starts from exactly its six lists, or is refused when a size or a card is wrong, and the running offset moves past it either way |
| `TransitionModel.TransitionBudget` | src/native/cg_probe/planner_export.cpp:567-618 | a step budget is exhausted exactly when the free transition needs more, and otherwise changes nothing |
| `PlannerGridModel.OutcomeMeans` | src/native/cg_probe/planner_export.cpp:550-684 | a cell is error-free exactly when the consequence of its candidate fits the forced cap, and then reports it, with both observations and the number of where the leaf stands |
| `PlannerGridModel.PlacedRowsTile` | src/native/cg_probe/planner_export.cpp:689-722 | root slices tile a prefix of the blob and leaf slices the suffix, both in row order, and each row finds its own bytes |
| `PlannerGridModel.PlanRoundTrip` | src/native/cg_probe/planner_export.cpp:724-744 | decoding the payload by its layout recovers every header word, fingerprint, field and byte |
| `PlannerGrid.PlannerLane.RunCell` | src/native/cg_probe/planner_export.cpp:550-684 | a cell breaks one of the two budgets, or throws at its observation, or stores its pure outcome and leaves the game's random stream as it was |
| `PlannerGrid.PlannerLane.RunGrid` | src/native/cg_probe/planner_export.cpp:528-687 | the world-major loop fills the candidate-major grid with the pure outcomes; it succeeds exactly when their total cost fits both budgets and it throws exactly where an exception is reached |
| `PlannerGrid.GridTurn` | src/native/cg_probe/planner_export.cpp:548-685 | each cell either is the answer of the whole call, for every budget and every place of an exception, or the loops go on |
| `PlannerGrid.FlattenAt` | src/native/cg_probe/planner_export.cpp:367-384 | row i of the integer table holds the fourteen fields of cell i |
| `PlannerGrid.RebaseCells` | src/native/cg_probe/planner_export.cpp:692-722 | the two rebasing passes produce the placed cells and the joined observations |
| `PlannerGrid.DecisionBatch` | src/native/cg_probe/planner_export.cpp:426-749 | exact conditions of every return code, exceptions included; the payload decodes to the fingerprint of the request and its grid of pure outcomes |
| `PlannerAnswers.AnswersAgree` | src/native/cg_probe/planner_export.cpp:531-744 | two answers that hold the same candidate in the same world agree there: every decoded field but the two offsets is equal, and the slices at the offsets hold the same bytes, whatever else the requests ask for |
| `PlannerAnswers.RootMeans` | src/native/cg_probe/planner_export.cpp:533-547 | a world is refused with error 1 for a list of the wrong size or an unknown card, otherwise its six lists are dealt under the world's seeded stream and the hidden zones restored |
| `PlannerAnswers.EveryRowMeans` | src/native/cg_probe/planner_export.cpp:548-744 | row candidate * worlds + world of a decoded answer has error 0 exactly if that candidate plays out in that world within the forced cap, and then its integers and both slices say where it leads |
| `ClientPlanner.PlanAnswerIsValid` | src/ptcg_rl/engine/native_consequence_payload.py:344-538 | every answer of the planner passes the Python client's validation: rows valid, root slices contiguous in row order, leaf slices after them, together the whole blob |
| `ClientCheck.SidesAgree` | src/ptcg_rl/engine/native_consequence_payload.py:18-27 | the client and the native side name the same magic numbers, versions, widths and caps; every error has its number |
| `PlannerAnswers.RowOfAnswer` | src/native/cg_probe/planner_export.cpp:689-744 | a decoded row is the placed outcome of its cell, and both of its slices lie in the blob and hold the observations of that cell |
| `GridOrder.FillCell` | src/native/cg_probe/planner_export.cpp:548-553 | every turn of the nested loops fills one new cell of the candidate-major table |
| `GridOrder.WorldMajorOk` | src/native/cg_probe/planner_session_export.cpp:235-271 | the order of the nested loops visits every cell of the table once |
| `SessionModel.StepValid` | src/native/cg_probe/planner_session_internal.cpp:219-287 | every arena step keeps `live_states` equal to the non-null slots and the arena within its maximum |
| `SessionModel.HandlesNeverAlias` | src/native/cg_probe/planner_session_internal.cpp:257-276 | through any run, a handle reads the state it was given or nothing, and keeps it until it is released or its session ends |
| `SessionModel.ReleasedStaysStale` | src/native/cg_probe/planner_session_internal.cpp:278-287 | a released handle, or one of a closed session, is stale after every continuation of the run |
| `SessionModel.HandlesAreDistinct` | src/native/cg_probe/planner_session_internal.cpp:257-268 | no two allocations of a run, in whatever sessions, return the same handle |
| `PlannerSession.SessionLane.ResetActiveSession` | src/native/cg_probe/planner_session_internal.cpp:219-228 | performs exactly the reset step |
| `PlannerSession.SessionLane.BeginSession` | src/native/cg_probe/planner_session_internal.cpp:230-255 | starts the next generation, or refuses and changes nothing while one is active or none is left |
| `PlannerSession.SessionLane.AllocateSlot` | src/native/cg_probe/planner_session_internal.cpp:257-268 | appends a slot, never reusing one, or refuses and changes nothing |
| `PlannerSession.SessionLane.GetSlot` | src/native/cg_probe/planner_session_internal.cpp:270-276 | reads a handle of the active generation |
| `PlannerSession.SessionLane.ReleaseSlot` | src/native/cg_probe/planner_session_internal.cpp:278-287 | empties a live slot, or reports a stale handle and changes nothing |
| `PlannerSession.SessionLane.ExecuteTransition` | src/native/cg_probe/planner_session_internal.cpp:403-533 | lane, step counter, scratch and row are those of the specified transition, the game's random stream is restored, and an exception at the observation leaves the lane with the leaf allocated |
| `SessionTransition.ExecuteKeeps` | src/native/cg_probe/planner_session_internal.cpp:403-533 | every transition keeps both caps and the arena, keeps a handle exactly for a retained endpoint, and with a free slot never fails for want of one |
| `SessionTransition.SettleReports` | src/native/cg_probe/planner_session_internal.cpp:474-530 | the row is honest: its error is the one decided by where it starts, it holds a handle exactly when its state was kept, and without an error it reports the consequence of its action with its slice and its handle |
| `SessionTransition.BudgetDecides` | src/native/cg_probe/planner_session_internal.cpp:427-462 | a row is stopped by the step budget exactly when its free transition needs more than is left, and is otherwise the free transition |
| `SessionTransition.ExecuteSpends` | src/native/cg_probe/planner_session_internal.cpp:427-530 | a row spends what its free transition needs up to the cap, and takes a slot exactly when it reaches an endpoint worth keeping within the budget |
| `SessionTransition.InterruptedKeeps` | src/native/cg_probe/planner_session_internal.cpp:493-512 | an exception at the observation leaves the leaf behind exactly when the row would have taken a slot, and disturbs no earlier handle |
| `SessionBatch.BatchExtends` | src/native/cg_probe/planner_session_export.cpp:235-271 | however rows are ordered, earlier rows stay true while later ones run, every error is the decided one, handles are never shared, and budgets hold |
| `SessionBatch.GrownKeeps` | src/native/cg_probe/planner_session_export.cpp:379-398 | a batch leaves every handle that existed before it readable with the same content |
| `SessionFold.FoldOk` | src/native/cg_probe/planner_session_export.cpp:235-271 | executing rows in any order, lane, steps and scratch threaded through, keeps everything a batch promises |
| `SessionFold.FoldRowAt` | src/native/cg_probe/planner_session_export.cpp:252-268 | the k-th row executed is what its job does where the rows before it left the call |
| `SessionFold.FoldSpends` | src/native/cg_probe/planner_session_internal.cpp:427-462 | a call spends what its rows need when nothing stops them, up to the cap |
| `SessionFold.StoppedExactly` | src/native/cg_probe/planner_session_internal.cpp:427-462 | a row meets the step budget exactly when it needs a step and the rows up to it need more than the cap |
| `SessionFold.FoldMarks` | src/native/cg_probe/planner_session_internal.cpp:427-526 | steps and observation bytes after any rows of a call are a function of their jobs |
| `SessionFold.MarkDecides` | src/native/cg_probe/planner_session_internal.cpp:427-526 | a row takes a slot exactly if its own transition finishes at a leaf worth keeping and the rows up to it need no more than the step cap; it succeeds exactly if it finishes so and its observation fits behind those of the successful rows before it |
| `SessionFold.FoldSlots` | src/native/cg_probe/planner_session_internal.cpp:493-526 | the arena grows by one slot for every row whose job and predecessors let it take one, and is untouched exactly when there is none |
| `SessionFold.FoldLive` | src/native/cg_probe/planner_session_internal.cpp:493-526 | the rows holding a state at the end are those that took a slot and succeeded, and one more state is live for each |
| `SessionFold.ThrowLeaves` | src/native/cg_probe/planner_session_export.cpp:379-413 | an exception leaves the states of the rows before it and the one just allocated, and nothing exactly when no row took a slot |
| `SessionFold.ThrowsExactly` | src/native/cg_probe/planner_session_internal.cpp:493-526 | an exception surfaces exactly in the steps of a row, or at the observation of a row that finishes within the cap |
| `SessionPayload.BuildPayload` | src/native/cg_probe/planner_session_internal.cpp:607-672 | the bytes encode the ordered rows rebased and their gathered slices; it throws exactly for a bad order or a slice outside the scratch |
| `SessionPayload.RebasedRowsTile` | src/native/cg_probe/planner_session_internal.cpp:631-647 | the rebased slices tile the blob in row order and each row finds exactly its scratch bytes |
| `SessionPayload.PayloadRoundTrip` | src/native/cg_probe/planner_session_internal.cpp:649-671 | decoding by the published layout recovers the payload |
| `SessionPayload.CellRoundTrip` | src/native/cg_probe/planner_session_internal.cpp:195-212 | the fourteen integers of a row determine the row |
| `SessionRows.EveryRowTells` | src/native/cg_probe/planner_session_internal.cpp:427-526 | an error-free row says in fourteen integers where its action plays out to and what may be seen there; a handle is named exactly with error 0 and endpoint 4 or 5 and holds that leaf |
| `SessionRows.FreePlaysOut` | src/native/cg_probe/planner_session_internal.cpp:427-462 | a row's free need of steps is the length of the walk its action plays out along |
| `ClientSession.AnswerIsValid` | src/ptcg_rl/engine/native_planning_session_payload.py:332-480 | every answer of a session call, rows executed in any order, passes the Python client's validation, handles and contiguous slices included |
| `Wire.AppendInt` | src/native/cg_probe/planner_session_internal.cpp:27-33 | four bytes, low byte first, of the two's complement value |
| `Wire.GatherTiles` | src/native/cg_probe/planner_session_internal.cpp:631-647 | gathered slices lie end to end and keep their bytes |
| `SessionCalls.OpenGrid` | src/native/cg_probe/planner_session_export.cpp:226-271 | the two loops compute exactly the fold of the transition over the rows in world-major order, unless the engine throws, in the steps of a row or at its observation |
| `SessionCalls.FillRow` | src/native/cg_probe/planner_session_export.cpp:252-268 | one row: the transition is executed on the threaded state and its metadata stored, or its exception leaves the lane as specified |
| `SessionCalls.BatchServes` | src/native/cg_probe/planner_session_export.cpp:272-282 | a finished batch always has sound slices, so building its payload cannot throw, and every observation byte is delivered once |
| `SessionCalls.OpenSession` | src/native/cg_probe/planner_session_export.cpp:92-294 | exact conditions of refusal and of an exception; success runs exactly the grid's fold under a generation never used before, and its answer decodes to the fingerprint of the request and those rows; an exception leaves the lane idle |
| `ClientCalls.OpenRowMeans` | src/native/cg_probe/planner_session_export.cpp:213-271 | row candidate * worlds + world of an open plays that candidate from that world's root under its stream, and keeps the state it leads to |
| `ClientCalls.OpenAnswerIsValid` | src/ptcg_rl/engine/native_planning_session_payload.py:214-329 | the client accepts every answer of an open, one row a cell |
| `SessionContinue.ContinueRows` | src/native/cg_probe/planner_session_export.cpp:372-398 | the loop computes exactly the fold over the rows in order, every action starting from its parent as it was when the call began, repeated handles included; an exception stops it with the lane of the rows before |
| `SessionContinue.ContinueSession` | src/native/cg_probe/planner_session_export.cpp:296-417 | the error code is determined in the source's order and the room check makes the arena error inside a transition unreachable; success answers with exactly the fold's rows under the fingerprint of the request; an exception leaves exactly the states of the rows before it |
| `ClientCalls.ContinueRowMeans` | src/native/cg_probe/planner_session_export.cpp:379-413 | row i of a continuation plays action i from the state its parent handle names, under the stream that state was reached with, and keeps the state it leads to |
| `ClientCalls.ContinueAnswerIsValid` | src/ptcg_rl/engine/native_planning_session_payload.py:214-329 | the client accepts every answer of a continuation |
| `SessionContinue.ContinueLeaves` | src/native/cg_probe/planner_session_export.cpp:379-413 | after an exception one more state is live for every row before it that kept its own, and the lane is unchanged exactly when no row took a slot |
| `SessionContinue.ContinueThrowsExactly` | src/native/cg_probe/planner_session_export.cpp:379-413 | whether a continuation throws is decided by its jobs: in the steps of a row, or at the observation of one that finishes within what the rows before it leave |
| `SessionContinue.ExceptionLeaks` | src/native/cg_probe/planner_session_export.cpp:379-413 | a request whose second row throws and whose first row's state stays live |
| `SessionContinue.ReleaseHandles` | src/native/cg_probe/planner_session_export.cpp:419-462 | all or nothing: exactly the named slots become empty and `live_states` falls by their number |
| `SessionContinue.CloseSession` | src/native/cg_probe/planner_session_export.cpp:464-488 | closing the active generation idles the lane, anything else changes nothing |
| `SessionContinue.HandlesThroughHistory` | src/native/cg_probe/planner_session_export.cpp:92-488 | through any history of calls a handle reads its own state or is stale, and once stale it stays so |
| `Sha256.Sha256.Update` | src/native/cg_probe/sha256.cpp:41-66 | the bytes are absorbed: fewer than 64 stay buffered and the state is the hash of the whole blocks so far; a finalized digest refuses |
| `Sha256.Sha256.Finalize` | src/native/cg_probe/sha256.cpp:68-95 | the digest is the one-shot hash of everything absorbed, once |
| `Sha256.Transform` | src/native/cg_probe/sha256.cpp:97-152 | one block is compressed as section 6.2.2 of FIPS 180-4 prescribes |
| `Sha256.RotateRightIsRotr` | src/native/cg_probe/sha256.cpp:31-33 | the shift-and-or is the standard's rotation |
| `Sha256.HashChunks` | src/native/cg_probe/sha256.cpp:41-95 | however a message is split into updates, the digest is that of the whole message |
| `Sha256Spec.PadFillsBlocks` | src/native/cg_probe/sha256.cpp:74-85 | the padded length is a multiple of 64, one block for tails under 56 bytes and two otherwise |
| `Sha256Spec.PadSplits` | src/native/cg_probe/sha256.cpp:74-85 | padding a message is its whole blocks followed by the padded tail |
| `Sha256Spec.ZeroCountIsLeast` | src/native/cg_probe/sha256.cpp:75-80 | the zero fill is the least one section 5.1.1 of FIPS 180-4 allows |
| `Sha256Example.DigestOfAbc` | src/native/cg_probe/sha256.cpp:14-152 | the digest of "abc" is the one published with FIPS 180-4, worked out word by word from every constant and function of the specification |
| `Bytes.LittleEndianRoundTrip` | src/native/cg_probe/request_fingerprint.cpp:20-42 | a value that fits its width is read back from its little-endian bytes |
| `Bytes.ValueRoundTrip` | src/native/cg_probe/request_fingerprint.cpp:20-42 | every byte string is the encoding of exactly one value of its width |
| `RequestFingerprint.FieldInjective` | src/native/cg_probe/request_fingerprint.cpp:20-50 | an encoded field determines itself and what follows it |
| `RequestFingerprint.FieldsInjective` | src/native/cg_probe/request_fingerprint.cpp:77-97 | field lists of one layout are determined by their bytes |
| `RequestFingerprint.KindsDisjoint` | src/native/cg_probe/planner_session_internal.cpp:20-23 | consequence, open and continue pre-images are never equal |
| `RequestFingerprint.PreimageInjective` | src/native/cg_probe/planner_session_internal.cpp:535-605 | two requests feeding the same bytes to the digest agree on every field |
| `RequestFingerprint.UpdateIntegers` | src/native/cg_probe/request_fingerprint.cpp:44-50 | the digest absorbs the counted little-endian encoding of the buffer |
| `RequestFingerprint.Fingerprint` | src/native/cg_probe/request_fingerprint.cpp:54-99 | the fingerprint is the hash of the request's byte string |
| `ClientFingerprint.ClientAgrees` | src/ptcg_rl/engine/native_planning_session_request.py:193-260 | for every request the Python client, packing with struct and numpy, hashes the same bytes as the native side |
| `ClientFingerprint.ConsequenceAgrees` | src/ptcg_rl/engine/native_consequence_request.py:158-200 | in particular for planner requests |
| `TokenModel.ValueRoundTrip64` | src/native/cg_probe/state_token_validation.cpp:24-41 | every accepted character is the digit of its value |
| `TokenModel.DigitRoundTrip` | src/native/cg_probe/state_token_validation.cpp:24-41 | every value below 64 is read back from its digit, which is never the padding character |
| `TokenVectors.AlphabetIsStandard` | src/native/cg_probe/state_token_validation.cpp:24-42 | the digit of a value is the character the alphabet of RFC 4648 prints for it |
| `TokenVectors.StandardVectors` | src/native/cg_probe/state_token_validation.cpp:111-161 | the encoding decoded here is that of the test vectors of RFC 4648, section 10 |
| `TokenVectors.RunsStandFor` | src/native/cg_probe/state_token_validation.cpp:67-98 | a run stands for as many letters A as its one, two or three digits say in base 64, least significant first; a run of none is refused |
| `TokenVectors.OthersStandForThemselves` | src/native/cg_probe/state_token_validation.cpp:99-107 | every other character of the alphabet, and the padding, stands for itself |
| `StateToken.ExpandToken` | src/native/cg_probe/state_token_validation.cpp:55-109 | expansion yields the meaning of the token's pieces, or fails, and never exceeds its cap |
| `TokenModel.ExpandAcceptsExactly` | src/native/cg_probe/state_token_validation.cpp:55-109 | a text is expanded from a token exactly when some list of plain characters and runs renders the token and means the text, within the caps |
| `TokenModel.ScanRender` | src/native/cg_probe/state_token_validation.cpp:67-107 | every list of pieces is read back from its rendering |
| `StateToken.CompressMeans` | src/native/cg_probe/state_token_validation.cpp:67-107 | every base64 text has a token that means it |
| `StateToken.DecodeBase64` | src/native/cg_probe/state_token_validation.cpp:111-161 | the loops compute the decoding specified for padded base64, with its cap |
| `TokenModel.DecodeInvertsEncode` | src/native/cg_probe/state_token_validation.cpp:111-161 | decoding inverts the base64 encoding of every byte string within the cap |
| `StateToken.TokenRoundTrip` | src/native/cg_probe/state_token_validation.cpp:55-161 | expand then decode inverts encode then any compression of runs |
| `TokenModel.ReencodeExactly` | src/native/cg_probe/state_token_validation.cpp:119-159 | re-encoding decoded text gives the text back exactly when its unused bits are zero |
| `TokenModel.DecoderAcceptsNonCanonicalText` | src/native/cg_probe/state_token_validation.cpp:111-161 | two different accepted texts decode alike |
| `StateLayout.ConsumeBytes` | src/native/cg_probe/state_token_validation.cpp:163-172 | the position moves exactly when the bytes are there |
| `StateLayout.ReadCount` | src/native/cg_probe/state_token_validation.cpp:174-192 | a count is read exactly when four bytes are there and their value is within the cap |
| `StateLayout.ConsumeVector` | src/native/cg_probe/state_token_validation.cpp:194-206 | one length-prefixed vector is consumed, or nothing fits |
| `StateLayout.ConsumesExactly` | src/native/cg_probe/state_token_validation.cpp:219-235 | greedy reading accepts exactly the strings that split into the vectors |
| `StateLayout.ValidateStateLayout` | src/native/cg_probe/state_token_validation.cpp:208-240 | accepts exactly the fixed block followed by bounded length-prefixed vectors and nothing else |
| `CpuList.ParseCpuList` | src/tools/native_worker_group.py:445-462 | the result is the notation's meaning, refused for empty items, bad numbers, reversed ranges, negatives and duplicates |
| `CpuList.UniqueByCount` | src/tools/native_worker_group.py:460-461 | the set is as large as the list exactly when nothing repeats |
| `CpuList.FormatCpuList` | src/tools/native_worker_group.py:482-494 | the text joins the maximal ascending runs in order |
| `CpuListModel.RunsExpand` | src/tools/native_worker_group.py:485-493 | the runs lose nothing and keep the order |
| `CpuListModel.FormatParses` | src/tools/native_worker_group.py:445-494 | printing then parsing returns a list exactly when it is valid, in whatever order |
| `CpuList.ParsePrinted` | src/tools/native_worker_group.py:445-494 | parsing the printed text of a valid list returns that list |
| `CpuListExamples.ThreeItems` | src/tools/native_worker_group.py:445-462 | a text with two single numbers and a range, and what it means |
| `CpuList.PartitionCpus` | src/tools/native_worker_group.py:465-479 | refused exactly without a CPU for each replica; otherwise non-empty consecutive groups that join to the input and differ in size by at most one, the wider first |

## Left out

- The game engine, its card tables, JSON builders and search tree: functions of a record; the planner assumes a step depends on state, random stream and action only, and represents a search node by its state.
- `ArenaCalls.ArenaEngine`: advancing a game is assumed to append to its log and keep its cursors (`EngineOk`).
- C ABI null checks, struct sizes, reserved fields, error texts, allocation of result buffers: a call's pointers are sequences and arrays; where a count travels beside a buffer without a check it is the buffer's length.
- `PoolMachine`: jobs are indices instead of stack addresses, with a flag for a departed client; worker start-up, CPU affinity and the environment variable for the worker count are parameters; `size_t` overflow in the grain arithmetic is not modelled.
- `PoolMachine`: the unlocked read of the cancelled flag is one atomic step; weaker memory orders are not modelled, and a relaxed stale read only lets a row run that a later read would have skipped.
- Artifact masks are arithmetic on naturals (bit tests by division) instead of 64-bit shifts.
- `ArenaWrite.WriteRow`: the scalar columns copied one by one, and the structure-of-arrays columns of options, cards, attachments and logs, are collapsed into one record array each; the turn and status flag words are part of the copied facts. In the writing pass only the rendering of an observation throws; memory exhaustion is not placed.
- `ArenaStep.WriteOutput`: the method runs whole rows in any order; interleavings of their single writes are sequences of stores, one a record. The counting and game-advancing passes write one record a row and are loops over rows. Rows entered after a throw are a parameter of the call.
- `PublicLogs.ProjectionHides`: log kinds are a closed datatype, so the source's exception for an unknown public kind, which would strike after the commit, does not arise.
- Exporting state tokens and captured observations, deck rules behind `ValidateDeck`, and the rollout encoder, tracker and model.
- `SessionCalls.OpenSession`: token decoding and root validation are one engine function here (the token decoder itself is `StateToken` and `StateLayout`).
- `SessionCalls.OpenGrid`: an exception strikes in the steps of a row, starting its search included, before anything is retained, or at its observation; memory exhaustion while the finished answer is built is not placed.
- `SessionContinue.ReleaseHandles`: handles are compared for repetition and released in the given order instead of a sorted copy; the resulting lane is the same.
- `PlannerGrid.DecisionBatch`: an exception strikes before the steps of a cell are counted or at its first observation; a successful search result is assumed to carry a state, which the source dereferences unchecked. The six hidden sizes are one engine function of the state.
- `ClientCheck.TellingIsValid`: that the engine keeps its prompts, results, error codes and observations within the ranges the client expects is assumed (`Conforms`), since the engine is closed; numpy's columns are rows of integers here, and object decoding of the observations is left out.
- Lane mutexes: whole calls are serialized in the source and are single steps here.
- `StateLayout.ValidateStateLayout`: the sizes of the engine's structs and of the fixed block are parameters, since their declarations are not part of this model; field-by-field enum checks of the decoded root are left out.
- `CpuList.ParseCpuList`: ASCII white space and digits only, without Python's limit on the number of digits.
- Floating-point feature extraction, tensors, training, orchestration and monitoring.
