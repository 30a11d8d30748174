# Verification of the portfolio service

A model, in Dafny 4.11, of the parts of the portfolio API whose correctness depends on more than one
function: the two cache protocols that API replicas share through Redis, the resumable synchronisation and
the change history of an exchange account, the persistent job queue, the accounting engine, transfer
matching, candle aggregation, price lookup and address codes. `dafny verify dfyconfig.toml` checks
everything.

How the source is rendered:

- Code that waits between statements (the caches, pagination, the job queue) is a state machine: one step for
  what runs between two `await`s, with crashes, lock expiries, faults and arriving data as further steps. The
  theorems quantify over every sequence of steps. Beside each machine stands a class whose methods do what the
  source does between two waits, each proved to take exactly one named step, so that the states between the
  calls are those of a run (`StatesOfARun` of each machine).
- What a definition means is said a second time, in the terms of the data and without its helpers, by a lemma or a
  contract: what an undisturbed read or fill leaves behind, which row a claim takes and when a failed one is due, what
  a fee costs, what an aggregated row opens and closes with, when a match is exact.
- Code that updates variables or tables in place is a method or a class with loops, proved against a
  specification function; expressions stay functions.
- Decimals are reals. Identifiers, currencies and payload hashes are integers, except where their characters
  matter (address codes, transaction identifiers).
- UUIDs are tokens numbered in order of creation. Moments are step counts, so no two steps share one.

| files | source |
|---|---|
| `SummaryCache`, `SummaryCluster`, `SummaryCacheLaws`, `SummaryCacheAnswers`, `SummaryCacheOffline`, `SummaryCacheRuns` | `api/src/services/summary-cache.ts` |
| `GraphCache`, `GraphCacheCluster`, `GraphCacheLaws`, `GraphCacheFills`, `GraphCacheOvertaking`, `GraphCacheRuns` | `api/src/services/graph-cache.ts` |
| `Pagination`, `PaginationSync`, `PaginationLaws`, `PaginationCursors`, `Observations`, `BalanceReplay` | `api/src/services/kraken.ts` |
| `JobQueue`, `JobQueueWorker`, `JobQueueLaws`, `JobQueueUndisturbed`, `JobQueueAttempts`, `JobQueueSchedule`, `JobQueueRuns` | `api/src/jobs/queue.ts` |
| `CostBasis`, `CostBasisTotals`, `CostBasisAgreement`, `CostBasisAssets`, `CostBasisPriority`, `CostBasisOrder`, `CostBasisRecords`, `CostBasisFees` | `api/src/domain/cost-basis.ts` |
| `Reconciliation`, `Transfers` | `api/src/domain/reconciliation.ts`, `api/src/services/transfers.ts` |
| `Market`, `MarketLaws`, `PriceLookup`, `PriceLaws` | `api/src/domain/market.ts`, `api/src/services/chart-values.ts`, `api/src/services/kraken.ts` |
| `Aggregation`, `AggregationLaws`, `AggregationSteps`, `AggregationAgreement`, `AggregationRows`, `AggregationRuns`, `CrossRates` | `api/src/services/market-aggregation.ts` |
| `Base58`, `Bech32`, `Bech32Pairs`, `BalanceHistory` | `api/src/domain/addresses.ts` |
| `Arithmetic`, `Text`, `Wrappers` | shared helpers |

The main results, for all inputs, all runs or all reachable states:

- Summary cache: stores under a key are ordered by load (`StoresAreOrdered`), fresh reads miss no change
  (`FreshReadsMissNoChange`), no read crosses an invalidation (`NoReadCrossesInvalidation`), and forgotten fills
  answer nobody (`ForgottenFillsAnswerNobody`).
- Graph cache: results without a refresh token are current as long as no fill outlives its lock
  (`UntokenedResultsAreCurrent`), or as long as none that was overtaken writes (`RunsWithoutOvertakingAreCurrent`);
  a mark set during a load survives it in every run (`MarksDuringLoadSurvive`).
- Synchronisation: a completed run missed nothing, and the next run sees what arrived meanwhile
  (`CompletedRunsMissNothing`, `ToldRunsMissNothing`, `MissedRecordsAreNewest`, `NextRunCoversMissed`), and the cursor
  spans the stored records (`CursorSpansRows`); the change-only history tells at every
  moment what the last poll saw (`LogTellsTheLastPoll`); the balance replay is a fold with a closed form (`Scan`,
  `BalanceInClosedForm`).
- Job queue: with retried, failing, cancelled and lost jobs, stops and crashes at any moment, active rows stay unique
  as long as nothing is thrown for a row that no longer runs and nothing is recovered while it is executed
  (`UndisturbedRunsStayUnique`), and the exact condition in any run (`ActiveRowsAreUnique`); claims take a first due
  row and attempts are bounded in every run (`RowsAreLockedAndFew`, `ClaimTakesAFirst`, `AttemptsAreBounded`).
- Accounting: basis is conserved up to exact terms (`AcbConserves`, `LotsConserve`), exactly when the methods agree on
  an asset that is sold out (`SameBasisConsumed`, `SameProfit`), a fee lowers the profit by its amount
  (`FeesLowerProfit`), assets are independent (`AssetsAreIndependent`), and FIFO has a closed form (`FifoClosedForm`).
- Transfers: greedy matching is at least half of any matching (`TableIsHalfOfAnyMatching`), of exactly characterised
  confidences (`ConfidenceOfRows`).
- Market data: exactly when two aggregation steps are one (`TwoStepsAreOneIff`), what each output row says of its rows
  (`BucketRowSays`), medians of well-formed candles are
  well formed (`MediansNeedNoClamp`), the memoised search is a linear specification (`PriceOf`).
- Addresses: Base58 decoding is a bijection (`DecodingIsInjective`, `DecodingIsOnto`), and no error in a Bech32
  address that is short (`NoShortErrors`) or wrong in two places (`NoTwoErrors`) goes unnoticed.

Where a property does not hold of the code without a condition, a concrete run or input shows it, and the exact
condition is proved:

- A summary fill whose version read fails after it took the lock goes on with the empty generation; its entry is
  newer than the one it replaces but carries an older generation (`AFailedVersionReadGoesBack`;
  `StoresAreOrdered` says exactly when).
- While Redis is unreachable, readers share fills under the key `fallback`, which `invalidate` does not rotate
  (`OfflineReadsCrossInvalidations`). A reader is then answered by a load older than itself exactly if it joined a
  call of its own process that had begun to load (`OfflineReadsAreOldIffJoined`).
- A graph fill that outlives its 120 second lock can overwrite a newer result and hide a change
  (`ALateFillHidesAChange`), and can make a fill that still owns its lock hide one (`AnOwnerHidesAChange`).
  `CurrentIffNothingHidden` says exactly which steps do that.
- A page without `count` ends a pagination run after it (`AnUncountedPageEndsTheRun`). That leaves a gap exactly if
  some older record had not been stored (`CommitIsGaplessIff`, `GaplessIffClosing`), and never if the page was the
  last (`TellingRunsClose`).
- `fail` updates its row whatever became of it, so a failure can reopen a row that was completed or cancelled: when
  the enqueue after a completion throws (`AThrowingEnqueueReopensARow`), when the handler cancelled its own row and
  then it or the completion throws (`ACancellingHandlerReopensItsRow`, `ACancelledRowIsReopened`), when a completion
  throws that was carried out (`AWrittenCompletionIsReopened`), and when a stopped queue is started again before its
  jobs are done, so that a row is recovered while it is executed (`ARecoveredRowIsReopened`).
  `UndisturbedRunsStayUnique` says that there is no other way, `ReopeningIsSafeIff` exactly when it is harmless.
- An acquisition of quantity zero has a basis that average cost spreads and lots lose (`WeightlessBasisIsLost`);
  `SameBasisConsumed` says exactly when the methods still agree.
- Rows of mixed granularity, and a single row of the coarse granularity, aggregate differently in two steps
  (`MixedGranularitiesDiffer`, `ACoarseRowIsRebuilt`); `TwoStepsAreOneIff` says exactly when they do not.
- Of several polls of one millisecond the observation history tells the last (`PollsOfOneMomentOverwrite`), so it
  tells every poll exactly if such polls saw the same (`LogTellsEveryPoll`).

## Model

| member | source | states |
|---|---|---|
| SummaryCacheLaws.StoresAreOrdered | api/src/services/summary-cache.ts:155-203 | in every interleaving, of two stores under one key the later one's load began after the earlier store, and its generation is not older exactly if its version read succeeded or the earlier generation is empty |
| SummaryCacheLaws.EntriesAreStored | api/src/services/summary-cache.ts:182-193 | every entry under a key is what the last owner-checked store under that key wrote |
| SummaryCacheLaws.NoStepRollsBack | api/src/services/summary-cache.ts:182-193 | no step replaces an entry by one whose load began earlier, so a fill that lost its lock overwrites nothing newer |
| SummaryCacheLaws.FreshReadsMissNoChange | api/src/services/summary-cache.ts:61-64 | an entry judged fresh comes from a load that began after every change the reader's generation read could see, even one that arrived during a load |
| SummaryCacheLaws.FreshSharesMissNoChange | api/src/services/summary-cache.ts:171-173 | the same for a fill that finds a fresh entry once it holds the lock |
| SummaryCacheLaws.NoReadCrossesInvalidation | api/src/services/summary-cache.ts:110-170 | a reader that reached Redis and started after an invalidation is never answered by a load that began before it, through the cache, a shared fill, another replica or a background refresh |
| SummaryCacheAnswers.ForgottenFillsAnswerNobody | api/src/services/summary-cache.ts:147-153 | in every run, once a settled fill has been forgotten no process lists it and no reader that begins later ever waits for it |
| SummaryCacheAnswers.ForgetUnlists | api/src/services/summary-cache.ts:150-150 | forgetting a fill removes exactly the pairs that list it and changes nothing else |
| SummaryCacheAnswers.AFreshEntryAnswers | api/src/services/summary-cache.ts:92-136 | an undisturbed read that meets an entry of the current generation, less than a minute old, is answered with it, begins no fill and changes nothing but its registration |
| SummaryCacheAnswers.AMissIsLoaded | api/src/services/summary-cache.ts:155-203 | an undisturbed fill with a free lock and no entry stores what it loaded under the generation of the moment before its load, and leaves the lock free and every other key as it was |
| SummaryCacheAnswers.AFillAnswers | api/src/services/summary-cache.ts:136-153 | who waits for a settled fill is answered with its result, and it leaves the table |
| SummaryCacheAnswers.WhoWaitsShares | api/src/services/summary-cache.ts:165-169 | a fill that finds the lock taken tries again, or ends with the data of the entry it finds, or loads without the lock if that cannot be parsed |
| SummaryCacheAnswers.WhoHoldsMayShare | api/src/services/summary-cache.ts:171-173 | one that holds the lock takes the data of an entry of its generation, less than a minute old, and otherwise loads |
| SummaryCacheAnswers.FaultsLeadToTheLoad | api/src/services/summary-cache.ts:165-177 | a request that fails before the load does not prevent it, and a lock granted unheard stays |
| SummaryCacheAnswers.FailuresAreShared | api/src/services/summary-cache.ts:179-202 | who waits for a load that fails, fails too, and the lock is given back |
| SummaryCache.JudgeAnswers | api/src/services/summary-cache.ts:61-64 | an entry that was found is the answer, and a fill refreshes it in the background unless it is of the current generation and less than a minute old |
| SummaryCache.JoinsOrStarts | api/src/services/summary-cache.ts:147-153 | the call under way in this process under the key is joined, and only if there is none a new one begins |
| SummaryCacheRuns.AFailedVersionReadGoesBack | api/src/services/summary-cache.ts:171-193 | a run in which the later store under a key carries the older generation |
| SummaryCacheRuns.OfflineReadsCrossInvalidations | api/src/services/summary-cache.ts:101-109 | a run without Redis in which a read after an invalidation gets data loaded before it |
| SummaryCacheOffline.OfflineReadsAreOldIffJoined | api/src/services/summary-cache.ts:97-153 | a reader that never reached Redis is answered by a load older than itself exactly if it joined a call of its own process under the key `fallback` that had begun to load before it |
| SummaryCluster.Cluster.BeginRead | api/src/services/summary-cache.ts:92-101 | a read begins: exactly the step of the machine |
| SummaryCluster.Cluster.ReadEpoch | api/src/services/summary-cache.ts:104-111 | the epoch read and the result key made of it: exactly that step |
| SummaryCluster.Cluster.ReadEntry | api/src/services/summary-cache.ts:112-123 | the entry read, its parsing and the registration of the request: exactly that step |
| SummaryCluster.Cluster.ReadGeneration | api/src/services/summary-cache.ts:112-124 | the generation read of a request: exactly that step |
| SummaryCluster.Cluster.StartFill | api/src/services/summary-cache.ts:147-153 | joining the fill under way in this process, or starting one: exactly that step |
| SummaryCluster.Cluster.ReaderFault | api/src/services/summary-cache.ts:124-128 | a reader whose Redis reads fail fills without Redis: exactly that step |
| SummaryCluster.Cluster.Judge | api/src/services/summary-cache.ts:129-136 | answering with an entry, with a background fill if it is not fresh, or filling: exactly that step |
| SummaryCluster.Cluster.AwaitFill | api/src/services/summary-cache.ts:136-136 | the answer of an awaited fill: exactly that step |
| SummaryCluster.Cluster.TryLock | api/src/services/summary-cache.ts:165-165 | `SET NX PX`: the lock is taken exactly if it was free |
| SummaryCluster.Cluster.LockReplyLost | api/src/services/summary-cache.ts:165-177 | a lock that was granted while the reply was lost: it stays, and the fill goes on without it |
| SummaryCluster.Cluster.Poll | api/src/services/summary-cache.ts:166-169 | a waiting fill shares the entry it finds: exactly that step |
| SummaryCluster.Cluster.ReadVersion | api/src/services/summary-cache.ts:171-171 | the generation read under the lock: exactly that step |
| SummaryCluster.Cluster.CheckCurrent | api/src/services/summary-cache.ts:172-173 | reuse of a fresh entry under the lock: exactly that step |
| SummaryCluster.Cluster.LockPhaseFault | api/src/services/summary-cache.ts:174-177 | a fault before the load does not prevent it: exactly that step |
| SummaryCluster.Cluster.StartLoad | api/src/services/summary-cache.ts:179-181 | the load begins: exactly that step |
| SummaryCluster.Cluster.FinishLoad | api/src/services/summary-cache.ts:179-181 | the load ends with the data of the moment it began: exactly that step |
| SummaryCluster.Cluster.StoreResult | api/src/services/summary-cache.ts:182-193 | the owner-checked store: exactly that step |
| SummaryCluster.Cluster.Release | api/src/services/summary-cache.ts:195-202 | the owner-checked release: exactly that step |
| SummaryCluster.Cluster.Forget | api/src/services/summary-cache.ts:150-150 | the pairs of a settled fill, and no others, leave the table: exactly that step |
| SummaryCluster.Cluster.Bump | api/src/services/summary-cache.ts:217-221 | the new generation of a changed scope: exactly that step if it is carried out, and otherwise nothing |
| SummaryCluster.Cluster.CheckRegistered | api/src/services/summary-cache.ts:227-232 | a registration is kept exactly if it is recent and of the current epoch, and otherwise removed |
| SummaryCluster.Cluster.RefreshRegistered | api/src/services/summary-cache.ts:224-236 | the follow-up fill of a request that was listed, even if its registration is gone by now: exactly that step |
| SummaryCluster.Cluster.Invalidate | api/src/services/summary-cache.ts:241-249 | the new epoch of a scope: exactly that step if it is carried out, and otherwise nothing |
| GraphCacheLaws.UntokenedResultsAreCurrent | api/src/services/graph-cache.ts:182-213 | if no fill outlives its lock, a plan with a result and no refresh token has a result whose load began after the last mark |
| GraphCacheOvertaking.MarksDuringLoadSurvive | api/src/services/graph-cache.ts:208-208 | in every run the compare-and-delete leaves no token if no mark came after the fill read it, and otherwise changes nothing |
| GraphCacheOvertaking.CurrentIffNothingHidden | api/src/services/graph-cache.ts:182-213 | in any run results without a token are always current exactly if no store comes after the removal of a token set since its load began, and no removal after the store of a result older than the mark |
| GraphCacheOvertaking.HidingStoresAreOvertaken | api/src/services/graph-cache.ts:182-213 | such a store, reported or not, means that another fill of the plan read its token after this one's load began |
| GraphCacheOvertaking.HidingRemovalsAreOvertaken | api/src/services/graph-cache.ts:182-213 | such a removal means that the result is that of another fill, whose load began before this one read its token |
| GraphCacheOvertaking.RunsWithoutOvertakingAreCurrent | api/src/services/graph-cache.ts:182-213 | results without a token are always current in every run in which no fill stores or removes after another has overtaken it, whatever became of the locks |
| GraphCacheOvertaking.PunctualRunsHideNothing | api/src/services/graph-cache.ts:182-213 | if no fill outlives its lock, no such step is taken |
| GraphCacheRuns.ALateFillHidesAChange | api/src/services/graph-cache.ts:195-213 | a run in which a fill outlives its lock and leaves an outdated result without a token |
| GraphCacheRuns.AnOwnerHidesAChange | api/src/services/graph-cache.ts:195-213 | a run in which a fill that owns its lock throughout leaves an outdated result without a token, because another one outlived its lock |
| GraphCacheRuns.TheExpiryIsNotPunctual | api/src/services/graph-cache.ts:195-195 | the only step of that run which the assumption excludes is the expiry of the lock |
| GraphCacheFills.AnUndisturbedFill | api/src/services/graph-cache.ts:168-213 | an undisturbed fill of a plan that is neither locked nor filled leaves the result of a load that began after it did, no token, no lock and no entry in the table, and changes nothing else |
| GraphCacheFills.Finishing | api/src/services/graph-cache.ts:201-213 | from the store on: the result is the loaded body, only the token that was read is removed, and only the fill's own lock is given back |
| GraphCacheFills.ForgottenForGood | api/src/services/graph-cache.ts:175-177 | in every run a fill that was forgotten is never listed again, and the other entries stay |
| GraphCacheFills.MarksAndDrops | api/src/services/graph-cache.ts:449-449 | a change gives its plan a fresh token and leaves the result, replacing a plan deletes its result, and no other plan changes |
| GraphCacheFills.FaultsLeave | api/src/services/graph-cache.ts:195-213 | a failing request leaves a granted lock, a written result and the token, and the fill gives its lock back or ends |
| GraphCacheCluster.Cluster.Materialize | api/src/services/graph-cache.ts:168-180 | one fill a process and plan: exactly the step of the machine |
| GraphCacheCluster.Cluster.TryLock | api/src/services/graph-cache.ts:195-196 | the lock is taken exactly if it was free, else the fill ends |
| GraphCacheCluster.Cluster.LockFault | api/src/services/graph-cache.ts:195-195 | a lock request that throws, granted or not: the fill ends, and a granted lock stays |
| GraphCacheCluster.Cluster.ReadToken | api/src/services/graph-cache.ts:198-199 | the refresh token read before the load: exactly that step |
| GraphCacheCluster.Cluster.StartLoad | api/src/services/graph-cache.ts:200-200 | the load begins: exactly that step |
| GraphCacheCluster.Cluster.FinishLoad | api/src/services/graph-cache.ts:200-200 | the load ends: exactly that step |
| GraphCacheCluster.Cluster.StoreResult | api/src/services/graph-cache.ts:201-206 | the unguarded store of the result: exactly that step |
| GraphCacheCluster.Cluster.DeleteToken | api/src/services/graph-cache.ts:208-208 | the removal of the token that was read: exactly that step |
| GraphCacheCluster.Cluster.Release | api/src/services/graph-cache.ts:210-212 | the owner-checked release of the lock: exactly that step |
| GraphCacheCluster.Cluster.DeleteLockIfUnchanged | api/src/services/graph-cache.ts:161-166 | only the owner's lock is deleted, and nothing else changes |
| GraphCacheCluster.Cluster.DeleteRefreshIfUnchanged | api/src/services/graph-cache.ts:161-166 | only the token that was read is deleted, and nothing else changes |
| GraphCacheCluster.Cluster.Forget | api/src/services/graph-cache.ts:175-177 | the pairs of a settled fill, and no others, leave the table: exactly that step |
| GraphCacheCluster.Cluster.Drop | api/src/services/graph-cache.ts:351-351 | the result of a replaced plan is deleted: exactly that step |
| GraphCacheCluster.Cluster.Mark | api/src/services/graph-cache.ts:449-449 | a change marks a plan with a new token: exactly that step |
| PaginationLaws.CompletedRunsMissNothing | api/src/services/kraken.ts:507-631 | through any appends, pages, crashes and resumptions, if pages end runs only when every older record is stored, a run that records completion has stored every record that existed at its first request |
| PaginationLaws.ToldRunsMissNothing | api/src/services/kraken.ts:507-631 | so it is with a count on every page, or without it only on pages that reach the last visible record |
| PaginationLaws.MissedRecordsAreNewest | api/src/services/kraken.ts:507-631 | in such runs, between runs the stored records are exactly the oldest of the log: what was missed is newer than all that was read |
| PaginationLaws.NextRunCoversMissed | api/src/services/kraken.ts:507-515 | the start of the next run, one hour before the newest record, leaves every missed record visible |
| PaginationLaws.TellingRunsClose | api/src/services/kraken.ts:530-533 | with a count on every page, or without it only on pages that reach the last visible record, pages end runs only when every older record is stored |
| PaginationLaws.CommitIsGaplessIff | api/src/services/kraken.ts:530-631 | a commit that ends a run leaves no older record unread exactly if every record older than its page had been stored |
| PaginationLaws.GaplessIffClosing | api/src/services/kraken.ts:507-631 | the runs that never leave a gap are exactly those in which pages end runs only when every older record is stored |
| PaginationCursors.CursorSpansRows | api/src/services/kraken.ts:607-625 | in every run the cursor's oldest and newest moments are those of the stored records |
| PaginationCursors.BeginsWhere | api/src/services/kraken.ts:507-515 | an unfinished run is resumed at its offset and start; another begins at offset 0, one hour before the newest record read |
| PaginationCursors.PageIs | api/src/services/kraken.ts:517-535 | which records a page holds, newest first and behind `start`, and what its total counts |
| PaginationCursors.CommitGoesOn | api/src/services/kraken.ts:533-631 | when a committed page ends the call, where the call goes on, and what the cursor says of it |
| PaginationLaws.AnUncountedPageEndsTheRun | api/src/services/kraken.ts:530-533 | a run that a page without a count ends with a record unread |
| PaginationSync.KrakenSync.StoreRows | api/src/services/kraken.ts:538-606 | the upserts of one page add exactly its records |
| PaginationSync.KrakenSync.SyncPage | api/src/services/kraken.ts:518-625 | one page of the loop, rows and cursor in one transaction: exactly the steps of the machine |
| PaginationSync.KrakenSync.SyncRecords | api/src/services/kraken.ts:507-631 | the loop over the pages of one call: exactly the steps of the machine, up to completion or the page limit |
| Observations.LogTellsTheLastPoll | api/src/services/kraken.ts:289-407 | for every entity and every moment, the latest row tells exactly what the last poll by then saw: the payload, or its absence |
| Observations.LogTellsEveryPoll | api/src/services/kraken.ts:289-407 | so it tells what every single poll saw exactly if polls of one moment saw the same |
| Observations.RowsDiffer | api/src/services/kraken.ts:308-366 | if polls of one moment agree, rows of an entity have increasing times and never repeat their predecessor |
| Observations.LastSeenIsLastPoll | api/src/services/kraken.ts:322-338 | a present entity's last row was last seen at the last poll; a missing one is never confirmed |
| Observations.PollsOfOneMomentOverwrite | api/src/services/kraken.ts:339-352 | of any polls at one time the history tells the last |
| Observations.Observatory.RecordObservation | api/src/services/kraken.ts:289-367 | only this entity's rows change: confirmed if nothing changed, else a row inserted or replaced at its time |
| Observations.Observatory.MarkMissing | api/src/services/kraken.ts:369-407 | exactly the entities last seen present and not returned get a missing row |
| Observations.Observatory.Synchronize | api/src/services/kraken.ts:1032-1081 | one complete poll changes every entity's rows as specified |
| Observations.Observatory.SynchronizeAll | api/src/services/kraken.ts:289-407 | a table that starts empty and sees a history of polls holds the specified rows of every entity |
| BalanceReplay.Scan | api/src/services/kraken.ts:2405-2449 | at each timestamp the scan stands where the fold of all actions at or before it leads, and it reports a gap exactly if one of them overdrew a balance |
| BalanceReplay.Replay | api/src/services/kraken.ts:2378-2449 | the same with the sort of the actions by time and kind |
| BalanceReplay.SortInOrder | api/src/services/kraken.ts:2378-2403 | the sort permutes the actions into the order of time and, at one moment, deltas before snapshots before allocations |
| BalanceReplay.SortIsStable | api/src/services/kraken.ts:2378-2403 | actions of one moment and kind keep their order |
| BalanceReplay.OverdraftsLose | api/src/services/kraken.ts:2421-2433 | a known balance becomes unknown exactly by a delta that overdraws it |
| BalanceReplay.SetAll | api/src/services/kraken.ts:2410-2420 | a snapshot or allocation sets exactly the balances it names |
| BalanceReplay.ApplyAction | api/src/services/kraken.ts:2408-2434 | one action changes every balance as specified and reports exactly an overdrawn one |
| BalanceReplay.AddAll | api/src/services/kraken.ts:2421-2433 | a delta changes exactly the known balances it names, and makes those it overdraws unknown |
| BalanceReplay.BalanceInClosedForm | api/src/services/kraken.ts:2407-2436 | a balance is its last anchor plus the deltas since, as long as none overdraws; otherwise unknown until the next anchor |
| BalanceReplay.KnownIsNonNegative | api/src/services/kraken.ts:2407-2436 | with nonnegative snapshots and allocations no known balance is negative |
| BalanceHistory.ReconstructBalance | api/src/domain/addresses.ts:143-181 | for each bucket in order and each asset in order, the sum of the asset's deltas at or before the bucket |
| BalanceHistory.AssetListIsSorted | api/src/domain/addresses.ts:156-156 | the assets reported are those of the events, each once, in order |
| BalanceHistory.SortInOrder | api/src/domain/addresses.ts:146-152 | events are applied by time, then ordering key, then identifier |
| BalanceHistory.SumsAreUnordered | api/src/domain/addresses.ts:143-181 | the sums do not depend on the order of the events |
| JobQueueUndisturbed.UndisturbedRunsStayUnique | api/src/jobs/queue.ts:122-373 | in every run in which a handler or a completion throws only while its row runs and no enqueue of a continuation throws, unless the failure is final, and rows are recovered only while nothing is under way, there is never more than one queued, running or retrying row for a type and resource |
| JobQueueUndisturbed.OpenCircuitsAreFree | api/src/jobs/queue.ts:261-309 | in such runs a failure by an open circuit leaves its row waiting with as many attempts as before the claim |
| JobQueueLaws.ActiveRowsAreUnique | api/src/jobs/queue.ts:137-309 | there is never more than one queued, running or retrying row for a type and resource, exactly in the runs that record no unsafe failure |
| JobQueueLaws.RowsAreLockedAndFew | api/src/jobs/queue.ts:176-259 | in every run keys are unique, a row is locked exactly while it runs, every running row is run by the execution it names or was left behind by a failed statement or a crash, and neither the former nor the executions exceed the concurrency |
| JobQueueLaws.ClaimTakesAFirst | api/src/jobs/queue.ts:179-200 | among all waiting rows whose time has come a claim takes one with the lowest priority number and of those the oldest, and none only if there is none |
| JobQueueSchedule.FailuresAreScheduled | api/src/jobs/queue.ts:261-309 | in every run a failure is final if the provider rejects the request or the attempts are used up; otherwise its row waits one second after the first attempt, doubling up to an hour, or as long as the open circuit says, which costs no attempt; no other row changes |
| JobQueueSchedule.ATickClaims | api/src/jobs/queue.ts:192-335 | a tick of a started queue below its concurrency claims its row: it runs, locked, with one attempt more, and its execution has a slot |
| JobQueueSchedule.ASuccessCompletes | api/src/jobs/queue.ts:230-246 | a handler that succeeds completes its row if it still runs, and frees its slot unless a continuation comes first |
| JobQueueSchedule.EnqueueInserts | api/src/jobs/queue.ts:122-174 | a request becomes a queued row without attempts exactly if no active row of its pair and no row of its key exists |
| JobQueueSchedule.HandlersEnd | api/src/jobs/queue.ts:217-246 | what a handler that cancels its row or throws leaves, and a completion that throws, carried out or not |
| JobQueueSchedule.RecoveryReleases | api/src/jobs/queue.ts:365-373 | every running row, and no other, waits again at once, unlocked |
| JobQueueSchedule.OutsideSteps | api/src/jobs/queue.ts:176-259 | what cancellations from outside, deletions, failing claims and crashes change, and nothing else |
| JobQueueAttempts.AttemptsAreBounded | api/src/jobs/queue.ts:192-309 | in every run attempts count the claims except those refunded, and never exceed the limit by more than the recoveries, even if rows are recovered while they are executed |
| JobQueueAttempts.OneExecutionAtATime | api/src/jobs/queue.ts:176-335 | a row that was never recovered is not executed twice at a time, and does not wait while it is |
| JobQueueAttempts.RetriesEnd | api/src/jobs/queue.ts:261-309 | without recoveries and refunds a row is executed at most as often as its limit allows, and is then not waiting |
| JobQueueLaws.ReopeningIsSafeIff | api/src/jobs/queue.ts:230-309 | the unguarded update of a failure keeps active rows unique exactly if its row is gone or still active, or the failure is final, or no other active row has the type and resource |
| JobQueueRuns.AThrowingEnqueueReopensARow | api/src/jobs/queue.ts:240-309 | a run with an enqueue that throws after a completion, and two active rows for one type and resource at its end |
| JobQueueRuns.ACancelledRowIsReopened | api/src/services/market.ts:852-864 | a run with a completion that throws after the handler cancelled its own row, and two active rows for one type and resource at its end |
| JobQueueRuns.ACancellingHandlerReopensItsRow | api/src/services/market.ts:852-864 | so does a run whose handler throws after it cancelled its own row |
| JobQueueRuns.AWrittenCompletionIsReopened | api/src/jobs/queue.ts:230-309 | so does a run whose completion is carried out, but throws |
| JobQueueRuns.ARecoveredRowIsReopened | api/src/jobs/queue.ts:365-387 | so does a run that stops and starts again during a job, which is recovered, completed by a second execution and reopened by the failure of the first |
| JobQueueWorker.Queue.SelectActive | api/src/jobs/queue.ts:139-148 | the oldest active row of a type and resource, or none if there is none |
| JobQueueWorker.Queue.Enqueue | api/src/jobs/queue.ts:122-174 | coalesces exactly if an active row of the pair or a row of the key exists, and otherwise inserts: exactly the step |
| JobQueueWorker.Queue.SelectDue | api/src/jobs/queue.ts:180-191 | a due row of the lowest priority number and of those the oldest, or none if none is due |
| JobQueueWorker.Queue.RunTick | api/src/jobs/queue.ts:339-361 | at most one tick at a time, and none once stopped: exactly the step |
| JobQueueWorker.Queue.CheckCapacity | api/src/jobs/queue.ts:325-328 | the guard of the claiming loop: exactly the step |
| JobQueueWorker.Queue.Claim | api/src/jobs/queue.ts:176-207 | the claiming transaction: exactly the step, with a choice the step allows |
| JobQueueWorker.Queue.ClaimLost | api/src/jobs/queue.ts:176-207 | a claim that is committed while its reply is lost: exactly the step |
| JobQueueWorker.Queue.Launch | api/src/jobs/queue.ts:329-330 | a claimed row starts executing: exactly the step |
| JobQueueWorker.Queue.End | api/src/jobs/queue.ts:230-237 | only a row that is still running is completed or cancelled, and unlocked |
| JobQueueWorker.Queue.CancelOwn | api/src/services/market.ts:852-864 | a handler cancels the row it runs for: exactly the step |
| JobQueueWorker.Queue.Complete | api/src/jobs/queue.ts:230-246 | completion of a row that is still running: exactly the step |
| JobQueueWorker.Queue.Continue | api/src/jobs/queue.ts:244-246 | the enqueue of the continuation: exactly the step |
| JobQueueWorker.Queue.Throw | api/src/jobs/queue.ts:217-246 | a handler, completion or enqueue that throws, carried out or not: exactly the steps |
| JobQueueWorker.Queue.Fail | api/src/jobs/queue.ts:261-309 | the unguarded failure update with its delay and refund: exactly the step |
| JobQueueWorker.Queue.FailThrows | api/src/jobs/queue.ts:287-335 | a failure that could not be recorded: exactly the step |
| JobQueueWorker.Queue.Finish | api/src/jobs/queue.ts:332-335 | an execution ends and frees its slot: exactly the step |
| JobQueueWorker.Queue.RecoverInterrupted | api/src/jobs/queue.ts:365-373 | every running row, and no other, is unlocked and waits again: exactly the step |
| JobQueueWorker.Queue.Start | api/src/jobs/queue.ts:384-387 | a stopped queue starts, whatever is still under way: exactly the step |
| JobQueueWorker.Queue.Stop | api/src/jobs/queue.ts:393-394 | no further claims begin: exactly the step |
| CostBasis.CalculateAcb | api/src/domain/cost-basis.ts:50-126 | the loop over the three maps computes the specified fold |
| CostBasis.DisposeAcb | api/src/domain/cost-basis.ts:79-106 | the body for a disposal gives the specified holding and disposition |
| CostBasis.TakeLots | api/src/domain/cost-basis.ts:166-185 | the loop over the candidates takes what the specification takes |
| CostBasis.CalculateLotMethod | api/src/domain/cost-basis.ts:128-217 | the loop over the events computes the specified fold |
| CostBasisRecords.EverySaleIsReported | api/src/domain/cost-basis.ts:79-106 | under every method the dispositions are the sales, one for one and in order, with their quantity and with proceeds of value less fee |
| CostBasisRecords.EveryPurchaseOpensALot | api/src/domain/cost-basis.ts:138-198 | the lots are the acquisitions, one for one and in order, with a basis of value plus fee, and each entry a sale consumed is a share of a lot of its asset for the same share of its basis |
| CostBasisFees.FeesLowerProfit | api/src/domain/cost-basis.ts:50-217 | raising one fee of a sold-out, fully valued asset lowers the realised profit by as much under FIFO and LIFO, and under average cost where it agrees with them |
| CostBasisFees.RaisedTotals | api/src/domain/cost-basis.ts:72-88 | a fee goes to the basis of an acquisition and off the proceeds of a sale, and into nothing else |
| CostBasisPriority.SoonerLotsFirst | api/src/domain/cost-basis.ts:158-185 | a disposal touches only lots of its asset that hold something, and a lot only when every lot that comes sooner (older under FIFO, newer under LIFO) is used up |
| CostBasisTotals.AcbConserves | api/src/domain/cost-basis.ts:50-126 | for any events, consumed basis plus remaining basis is acquired basis plus what the clamp at zero added |
| CostBasisTotals.NothingClamped | api/src/domain/cost-basis.ts:104-106 | without negative valuations the clamp adds nothing |
| CostBasisTotals.LotsConserve | api/src/domain/cost-basis.ts:128-217 | for any events, consumed basis plus the open lots' basis is acquired basis less that of acquisitions of nothing |
| CostBasisTotals.TakeMoves | api/src/domain/cost-basis.ts:158-185 | in units and in value, a disposal moves out of the lots of its asset exactly what it reports as consumed |
| CostBasisTotals.DispositionsAddUp | api/src/domain/cost-basis.ts:79-106 | every disposition of every method: its known entries and its unknown quantity make up the quantity sold, the entries' basis is its known basis, and it reports proceeds less basis exactly if nothing is unknown |
| CostBasisTotals.SameQuantityLeft | api/src/domain/cost-basis.ts:50-217 | for any events all three methods leave the same quantity of every asset |
| CostBasisAgreement.SameBasisConsumed | api/src/domain/cost-basis.ts:50-217 | once an asset is sold completely, FIFO and LIFO have consumed all acquired basis but that of acquisitions of nothing, and average cost the same exactly if no such acquisition is followed by a disposal while units with a basis are held |
| CostBasisAgreement.FifoAgreesWithLifo | api/src/domain/cost-basis.ts:128-217 | FIFO and LIFO consume the same basis of a completely sold asset, for any events |
| CostBasisAgreement.WeightlessBasisIsLost | api/src/domain/cost-basis.ts:50-217 | an example where an acquisition of nothing makes average cost and FIFO differ |
| CostBasisAgreement.SameProfit | api/src/domain/cost-basis.ts:50-217 | if moreover everything is valued and nothing overdrawn, FIFO and LIFO realise proceeds less that basis, and average cost the same exactly in the same case |
| CostBasisAssets.AcbByAsset | api/src/domain/cost-basis.ts:50-126 | an asset's holding and dispositions under average cost are those of its own events |
| CostBasisAssets.TakeByAsset | api/src/domain/cost-basis.ts:158-185 | a disposal among all lots takes what it would take among the lots of its asset |
| CostBasisAssets.LotsByAsset | api/src/domain/cost-basis.ts:128-217 | an asset's lots and dispositions under FIFO and LIFO are those of its own events |
| CostBasisOrder.CalculateCostBasis | api/src/domain/cost-basis.ts:219-230 | the chosen engine on the events stably sorted by time and id |
| CostBasisOrder.SortedInOrder | api/src/domain/cost-basis.ts:226-226 | the sort leaves no event before an earlier one |
| CostBasisOrder.AssetsAreIndependent | api/src/domain/cost-basis.ts:219-230 | for every method, what the report says of an asset is what it says for the asset's events alone |
| CostBasisOrder.FifoClosedForm | api/src/domain/cost-basis.ts:138-198 | after any ordered events, the units taken from a lot are the total drawn beyond the earlier lots' sizes, within 0 and the lot's size |
| CostBasisOrder.ReportsUseLotsInOrder | api/src/domain/cost-basis.ts:219-230 | so it is in every FIFO report |
| Reconciliation.MatchedIff | api/src/domain/reconciliation.ts:26-130 | two movements match exactly if asset, direction, identifier or time, and amount agree as described |
| Reconciliation.ConfidenceIff | api/src/domain/reconciliation.ts:26-130 | exactly when a match is exact and exactly when it is likely, in terms of asset, direction, identifiers up to case, networks, time, amounts and fee |
| Text.LowerIgnoresCase | api/src/domain/reconciliation.ts:60-65 | two texts have the same small letters exactly if they differ only in case |
| Transfers.ConfidenceOfRows | api/src/services/transfers.ts:62-100 | the same of a ledger row and a chain event: a deposit goes with a movement out of the address and a withdrawal with one into it |
| Transfers.BestIsForemost | api/src/services/transfers.ts:78-108 | nothing free is more certain than the choice, or as certain and nearer in time, or as certain and as near and in front of it |
| Transfers.TransferService.ReconcileAll | api/src/services/transfers.ts:38-146 | the loop with its used-set leaves the specified table |
| Transfers.BestIsFirstBest | api/src/services/transfers.ts:78-108 | a movement gets the first best free one by confidence, then time distance, then order, and none exactly if no free one is compatible |
| Transfers.TableIsMatching | api/src/services/transfers.ts:62-144 | no ledger row and no chain event twice, only compatible pairs of the given rows, each with its confidence |
| Transfers.TableIsMaximal | api/src/services/transfers.ts:62-144 | of every compatible pair at least one side is matched |
| Transfers.TableIsHalfOfAnyMatching | api/src/services/transfers.ts:62-144 | the table has at least half as many rows as any matching could have |
| Market.SortMonotone | api/src/domain/market.ts:53-59 | raising values raises every order statistic |
| Market.MedianUnordered | api/src/domain/market.ts:53-59 | the median does not depend on the order of the values |
| MarketLaws.MedianIsMiddle | api/src/domain/market.ts:53-59 | an odd number of values has the middle one of any ordering as its median, an even number the mean of the two in the middle |
| MarketLaws.PreferredCount | api/src/domain/market.ts:61-64 | as soon as one observation is native only the native ones count, each as often as it occurs |
| MarketLaws.CombinedIs | api/src/domain/market.ts:150-175 | open and close are the medians of theirs, the high the greatest and the low the least of the medians that bound it |
| Market.ComponentIsMedian | api/src/domain/market.ts:150-165 | each component is the median of that column of the usable candles |
| Market.MediansNeedNoClamp | api/src/domain/market.ts:166-175 | if every usable candle is well formed the clamp changes nothing |
| PriceLookup.NewestIsGreatest | api/src/services/chart-values.ts:163-175 | the bucket found is the greatest at or before the moment |
| PriceLaws.AnsweringIs | api/src/services/chart-values.ts:163-183 | the answering bucket is the newest in the week up to the moment, and there is none exactly if no row lies in it |
| PriceLaws.PriceIs | api/src/services/chart-values.ts:184-213 | the price combines exactly the rows of that bucket than which none of it is finer |
| PriceLaws.ChosenStandFor | api/src/services/kraken.ts:1633-1648 | each provider of the bucket is represented once: by a native row if it has one, of those by the finest, of several by the first |
| PriceLookup.BinarySearch | api/src/services/chart-values.ts:163-175 | the search finds the last row of that bucket, or that there is none |
| PriceLookup.FirstOf | api/src/services/chart-values.ts:185-191 | the first row of the run of equal buckets |
| PriceLookup.FinestOf | api/src/services/chart-values.ts:192-206 | the rows of the finest granularity among the run |
| PriceLookup.ChartLookup.PriceOf | api/src/services/chart-values.ts:159-216 | whatever was asked before, the answer is the combination of the finest rows of the newest bucket at most a week old, or nothing; the memo stays right |
| PriceLookup.QuoteLookup.QuoteOf | api/src/services/kraken.ts:1588-1661 | the same for the exchange's lookup with one row a provider |
| PriceLookup.SameQueriesAnswered | api/src/services/kraken.ts:1588-1661 | both lookups find a price for exactly the same queries |
| Aggregation.AggregateCachedMarketRows | api/src/services/market-aggregation.ts:32-99 | the nested loops and the sort give the specified list |
| AggregationLaws.SortSplits | api/src/services/market-aggregation.ts:50-55 | an interval of rows can be sorted piece by piece |
| AggregationLaws.MergedPieces | api/src/services/market-aggregation.ts:56-91 | what two pieces merge to depends only on what each of them merges to |
| AggregationLaws.SortAscends | api/src/services/market-aggregation.ts:50-57 | a bucket's rows are merged in the order of time |
| AggregationRows.BucketRowSays | api/src/services/market-aggregation.ts:49-91 | a single finest row of the target granularity is passed on; otherwise the row opens as a first of the finest rows and closes as a last one, its high and low are attained and bound them, samples and known volumes are their sums, it is final if all are, and as late as the latest |
| AggregationRows.OutputSays | api/src/services/market-aggregation.ts:43-99 | each series has that row for each bucket in which it has any, and no other there |
| AggregationRows.OutputInOrder | api/src/services/market-aggregation.ts:95-99 | the output is ordered by asset, time and provider |
| AggregationLaws.Extremes | api/src/services/market-aggregation.ts:77-78 | the high and low are attained and bound every row |
| AggregationLaws.MergedIsWellFormed | api/src/services/market-aggregation.ts:69-90 | from well-formed rows comes a well-formed row |
| AggregationSteps.OneRowABucket | api/src/services/market-aggregation.ts:43-99 | for each series and bucket the output holds exactly the row made of the bucket's rows, if any |
| AggregationAgreement.TwoStepsAreOneIff | api/src/services/market-aggregation.ts:32-99 | for rows with positive sample counts, aggregating in two steps gives a series and bucket the row of aggregating at once exactly if every fine bucket with rows has one of the finest granularity, and a single coarse row that is passed on already looks aggregated |
| AggregationAgreement.TwoStepsAreOne | api/src/services/market-aggregation.ts:32-99 | so it is for rows of one granularity, whatever their sample counts, unless that is the coarse one itself |
| AggregationRuns.MixedGranularitiesDiffer | api/src/services/market-aggregation.ts:49-55 | an example of two granularities where the two ways differ |
| AggregationRuns.ACoarseRowIsRebuilt | api/src/services/market-aggregation.ts:59-68 | an example of a single coarse row where the two ways differ |
| CrossRates.DerivedIsWellFormed | api/src/services/market-aggregation.ts:143-169 | from three well-formed candles of positive prices comes a well-formed one |
| CrossRates.DerivedPrices | api/src/services/market-aggregation.ts:128-160 | each derived price times the bridge's is the source's times the target's, open with open and close with close, the high over the bridge's low and the low over its high; nothing is derived exactly where a price of the bridge is zero |
| CrossRates.DerivedKeeps | api/src/services/market-aggregation.ts:148-169 | a derived row is the source's in the requested currency, final if all three are and as late as the latest |
| CrossRates.FallbackIff | api/src/services/market-aggregation.ts:122-147 | exactly when a row contributes, and what |
| CrossRates.FallbacksJoin | api/src/services/market-aggregation.ts:120-190 | the derived rows are those of the rows that contribute, in their order |
| CrossRates.DeriveQuoteFallbackRows | api/src/services/market-aggregation.ts:101-191 | the loop gives the direct rows followed by the derived ones |
| CrossRates.FallbacksAreWellFormed | api/src/services/market-aggregation.ts:101-191 | derived rows are well formed, in the requested currency, and beside no direct row of their provider, asset and time |
| Base58.DecodeBase58 | api/src/domain/addresses.ts:8-25 | the three loops change the base and keep the leading zeros, or give null for a foreign character |
| Base58.ChangeBaseBack | api/src/domain/addresses.ts:8-25 | changing the base back gives the same digits, leading zeros included |
| Base58.DecodingIsInjective | api/src/domain/addresses.ts:8-25 | no two strings decode to the same bytes |
| Base58.DecodingIsOnto | api/src/domain/addresses.ts:8-25 | every byte sequence is decoded from some string |
| Bech32.ValidIff | api/src/domain/addresses.ts:46-58 | exactly which strings are accepted: one case, 9 to 90 characters, `bc1`, the alphabet, and the checksum 1 for witness version 0 and the other constant for the others |
| Bech32.Bech32Polymod | api/src/domain/addresses.ts:27-38 | the loops compute the specified checksum |
| Bech32.PolymodLinear | api/src/domain/addresses.ts:27-38 | the checksum of a difference is the difference of the checksums |
| Bech32.BurstRemains | api/src/domain/addresses.ts:27-38 | a difference confined to six consecutive places never cancels out |
| Bech32.NoShortErrors | api/src/domain/addresses.ts:46-58 | no two valid strings of one length, both of witness version 0 or neither, differ only within six consecutive places |
| Bech32Pairs.TimesStep | api/src/domain/addresses.ts:27-38 | multiplying all six words of a checksum by the generating element of the field commutes with a round |
| Bech32Pairs.WordsAreFar | api/src/domain/addresses.ts:27-38 | for 88 rounds no single wrong word becomes a single word again |
| Bech32Pairs.PairRemains | api/src/domain/addresses.ts:27-38 | a difference in two places at most 88 apart never cancels out |
| Bech32Pairs.NoTwoErrors | api/src/domain/addresses.ts:46-58 | no two valid strings of one length, both of witness version 0 or neither, differ in at most two places, wherever they are |

## Left out

- Expiry of any Redis key but the locks: generation, epoch, refresh-token and result keys live for days and are taken not to expire.
- The wire side of Redis, HTTP, logging, timing warnings, normalisation of requests and plans, and the staleness flag computed after a cached read.
- The reading path of the graph cache, registration of plans and the choice of affected plans: any plan may be marked at any moment instead.
- Postgres isolation: a database transaction is one atomic step, as the SQLite backend serialises them.
- SummaryCluster.Cluster.Invalidate: an invalidation or change that finds no Redis, or whose SETEX is not carried out, leaves no trace and is not in the log, so the theorems about reads after an invalidation or change do not speak of it.
- SummaryCluster.Cluster.RefreshRegistered: the wait for a running fill of the process comes before this step and is not part of it, so the model also allows a refresh that joins that fill.
- GraphCacheLaws.UntokenedResultsAreCurrent: assumes that no fill outlives its lock, which the code does not enforce; CurrentIffNothingHidden covers every run.
- PaginationLaws.CompletedRunsMissNothing: assumes a remote history that is append-only, served newest first, with positive times that never decrease, and one call at a time; both readings of `start`, inclusive and exclusive, are covered.
- Pagination: the other columns of trades and ledgers and the smallest timestamp of a cursor.
- Observations.LogTellsTheLastPoll: assumes poll times that never decrease and an endpoint that also marks missing entities; raw payloads and source times are not kept, and payload hashes are taken to be injective.
- BalanceReplay: prices and values of the timeline, and how the actions are gathered from ledgers, snapshots and allocations.
- JobQueueLaws.ActiveRowsAreUnique: assumes one worker process.
- JobQueue: progress updates, error records, listeners, and `resetJobForRetry`, which nothing calls.
- CostBasis: the 20 digits of the decimal library, the coverage percentage, the text of the report's open lots, and `carryTransferBasis`. Lots are values in a sequence, so aliasing of lot objects is not modelled.
- CostBasis: identifiers are compared as numbers where the source compares strings by locale.
- Reconciliation: the evidence recorded with a match, and case folding of characters outside ASCII.
- Market: spreads, disputes, provider lists, `deriveCandle` and `convertQuote`.
- PriceLookup: the query that selects and orders the rows; the lookups are proved for any rows ordered by bucket. `chartDenominationsAt` is a table of such lookups.
- Aggregation: provenance texts. The order of output rows of one asset, provider and moment in different currencies is modelled but not part of the theorem about two steps.
- Bech32Pairs.NoTwoErrors: the guarantee of the code for three and four scattered errors, and errors that turn witness version 0 into another or back; case folding of characters outside ASCII.
- Base58 and Bech32: SHA-256 and BLAKE2 checksums, and the formats of the other networks.
- Concurrency limits of the provider rate limiter, chain adapters, provider parsing, authentication, configuration, the MCP server and the web interface.
