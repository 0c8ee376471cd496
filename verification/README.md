# Verified model of pgstorm's measurement pipeline

pgstorm drives a PostgreSQL database with a mix of operations and reports what it measured. This project models the
parts of it whose claims no finite test settles, and proves those claims for all inputs, all runs and all interleavings.

**The measurement pipeline** (`workload/stats.go`, `worker.go`, `result.go`, `main.go`) is modelled twice.

- `Pipeline` is a transition system. Any number of workers record into windows of their own; any number of consumers
  (the summary loop's print, and Finalize) take the collector's lock, lift the windows one by one, fold the merge into
  the run total op by op in any order, record an interval, release the lock and, for Finalize, take it again to copy the
  result out. The state carries the sequence of all recordings. `PipelineFacts` proves an invariant of every step,
  `MainRun` adds the order that main imposes (clocks, ticks, wait, one Finalize at the end), and `WholeRun` states what
  a run reports in terms of nothing but what was recorded. `FinalizeCalls` follows one call from the moment it is made.
- `Store`, `Tables`, `Recorder`, `Collector` and `Report` are the code: classes for the accumulators, the workers'
  windows, the run total and the collector, latency maps as shared heap objects, slices of entries as arrays, and every
  map iteration as picks in an arbitrary order. Each method is proved against the value-level specification
  (`Frequency`, `Quantiles`, `Latency`, `Tally`, `Intervals`, `IntervalFacts`).
- `Afterwards` follows results that were returned, on the heap, through whatever happens to the collector next.
  `Drains` and `RunSeries` read the series as the outcome of all drains, for any declared list of ops.
- `Refinement` connects the two: a drain of the machine that nobody interrupts ends in the state that the contract of
  `Collector.StatsCollector.Drain` describes. `Worker` does the same for a worker's turn.

**The migration protocol** (`db/schema.go`) is `Migration`: any number of replicas, one try-lock, one catalogue,
statements that may fail with or without effect, contexts that may be cancelled at any point and polls that may miss
what is there. `Catalogues` holds the methods, and `ReplicaRuns` shows that a replica left alone goes in the transition
system where the methods' contracts say.

**Supporting parts**: `Weights` (op mix), `Ring` (session ring), `Sessions` and `Ops` (writes around the ring),
`IndexStats` (counters that follow server statistics across resets).

Instants and spans are reals (seconds), latencies are integers (microseconds), quantiles and rates are exact. Random
draws, clock readings, errors and answers from the database are inputs.

Where the code and its documentation disagree, the model follows the code:

- `workload/result.go:338` says ops are reported in declared order; the code sorts them alphabetically. The two agree
  if and only if the ops are declared in alphabetical order (`Report.DeclaredOrder`), which those of the default profile
  are not (`Report.DefaultProfileReordered`).
- `db/schema.go:19-22` says exactly one replica runs DDL. The lock gives at most one at a time
  (`Migration.OneAtATime`). Over a run at most one gets it if and only if none tries it and finds it free after another
  has had it (`Migration.LeadersExactly`); one that does runs every statement again (`Migration.LateReplicaRunsAgain`).
- The deferred unlock (`db/schema.go:48`) runs under the replica's own context, so it releases the lock exactly when
  that context is live (`Migration.UnlockReleases`, `Migration.CancelledLeaderKeepsLock`). The context that main passes
  is cancelled by nothing before the call returns (`main.go:51-62`).
- `db/schema.go:26-30` warns that leaving out a table lets followers start early. Leaving it out of the statements
  instead lets the leader return without an error while the table is missing (`Migration.NilMeansTables`). A failed
  table query passes for one that found everything exactly if no table is tracked (`Catalogues.LostPollPasses`).
- `workload/weights.go:61-62` says the last op absorbs boundary rolls. With an exact mix no roll gets that far. The sum
  of weights is computed in 64 bits; an accepted mix is exact if and only if the true sum did not wrap around
  (`Weights.ExactMix`, `Weights.AcceptedSum`).
- Op names must be distinct: an interval's op count is the sum of its entries if and only if no op it has traffic of is
  declared twice (`Drains.RepeatedNames`).
- True rates and full-length intervals need a clock that does not run backwards too far
  (`IntervalFacts.SpacedExact` says exactly how far); main's order provides one (`MainRun.RunSpaced`).

## Model

| member | source | states |
|---|---|---|
| WholeRun.EveryRecordLandsOnce | workload/stats.go:200-233 | In every interleaving and state, for each op, the history (count, errors, latencies with multiplicity) is run total + what a drain in progress holds + what is still in windows; while the lock is free executions, failures and latencies of the history are those of total and windows together |
| WholeRun.FinalizeReports | workload/stats.go:370-382 | Whichever drain wins, the totals a returned Finalize copied lie, in executions, failures and latencies, between the history at the call and the history now, and the series copied with them sums to them per op in counts and errors |
| FinalizeCalls.CallCovered | workload/stats.go:366-382 | In every interleaving, when a call of Finalize has returned: for each op its totals lie between what had been recorded at the call and what has been recorded now, in executions, failures and the multiset of latencies, and the series it returned sums to them |
| WholeRun.SeriesAccounts | workload/stats.go:248-364 | In every state the series plus what a drain has folded but not yet recorded equals the run total per op; every interval is internally consistent; the intervals tile the run |
| WholeRun.TallyReads | workload/stats.go:34-58 | The accumulator of a history is its number of executions, its number of failures and the multiset of its successful latencies |
| WholeRun.LatenciesMeasured | workload/stats.go:106-112 | Unless a measured duration is negative, an op's accumulator holds exactly the multiset of the measured durations of its successes |
| WholeRun.TotalsAreHistory | main.go:193-201 | In main's order the totals Finalize returns are the accumulators of the whole history, one latency for every op that did not fail |
| WholeRun.TotalsAddUp | workload/result.go:262-265 | Summed over all ops, totals and time series both count every recording and every failure exactly once |
| WholeRun.DocumentOfRun | workload/result.go:318-369 | The document of a finished run reports as many ops and errors as were recorded, its series sums to them, it has an entry for every op in alphabetical order, each entry is read off the history, and rates times the duration are the counts |
| WholeRun.BlockIsDirect | workload/result.go:351-360 | The latency block is the summary computed directly on the history's latencies; count exceeds errors exactly when there is one |
| WholeRun.LatencyBlockOfRun | workload/stats.go:384-405 | On any ascending list of an op's successful latencies its block has the first and the last as extremes and the entries at ranks ceil(n/2), ceil(0.95 n), ceil(0.99 n) and ceil(0.999 n) as percentiles; there is a block exactly if the list is not empty, and its length is count - errors |
| WholeRun.MeanOfRun | workload/stats.go:392-398 | The reported mean times the number of successes is the sum of their latencies, added up over the history |
| WholeRun.SeriesTiles | workload/stats.go:259-282 | The series of a finished run starts with the run and has no gaps |
| WholeRun.SeriesTimed | workload/stats.go:235-282 | Each of its intervals but the first spans a second or more, and rates times spans are the counts |
| WholeRun.SeriesShares | workload/stats.go:244-247 | Per op its entries sum to how often the op was executed and how often it failed |
| WholeRun.CountersOfRun | metrics/metrics.go:44-59 | At the end of a run ops_total ok and the sample count are the op's successes, ops_total error its failures |
| WholeRun.LatencyDependsOnSuccesses | workload/stats.go:81-112 | Two finished runs with the same successful latencies of an op report the same latency summary for it, however they were recorded, drained and iterated and however many ops failed |
| WholeRun.ReportedLatenciesOccurred | workload/stats.go:384-405 | In every reported block the statistics are in order and all but the mean are latencies that were recorded |
| WholeRun.RecordedOps | workload/worker.go:34-58 | Only declared ops ever enter the history |
| PipelineFacts.InvAlways | workload/stats.go:76-233 | The whole invariant holds after every sequence of steps |
| PipelineFacts.RecordConserves | workload/stats.go:76-113 | A recording adds to history and windows alike, at any moment of a drain |
| PipelineFacts.RecordLifted | workload/stats.go:219-225 | A recording during a drain lands in a window still to be lifted or counts as late; the drain still covers everything before its call |
| PipelineFacts.LiftConserves | workload/stats.go:122-131 | Lifting one worker's window moves it into the merge and loses nothing |
| PipelineFacts.OpFold | workload/stats.go:226-230 | Folding the ops of a merge into the total in any order keeps every account balanced |
| PipelineFacts.OpClose | workload/stats.go:231-232 | Recording the interval brings the series level with the total |
| PipelineFacts.OpCopy | workload/stats.go:373-380 | What Finalize copies under one lock hold is consistent with itself |
| PipelineFacts.ExportedStep | metrics/metrics.go:52-65 | Exported counters equal the history plus the ops metered and not yet recorded |
| PipelineFacts.CopiesStep | workload/stats.go:375-378 | What is copied out covers exactly the declared ops, with one latency for each op that did not fail at the moment of the copy |
| MainRun.RunInv | main.go:146-201 | In main's order the invariant holds and any drain after Finalize finds nothing, whoever overtakes whom |
| MainRun.RunSpaced | workload/stats.go:235-282 | In main's order every interval but the first spans a second or more, and every rate times its true span is the count, zero on a zero span |
| MainRun.RunReport | workload/stats.go:366-382 | After Finalize returned to main: returned totals, live totals and history agree per op, exported counters agree with them, and the returned series sums to them, tiles the run and has true rates |
| MainRun.CountersAreHistory | metrics/metrics.go:52-65 | Once all workers have stopped, ops_total ok and error and the histogram's sample count are count - errors, errors and count - errors of the history |
| MainRun.InOrderMove | main.go:193-201 | Every move that main's order allows keeps drains in time order |
| Refinement.DrainAgrees | workload/stats.go:203-233 | An uninterrupted drain of the machine, its folds in any order, empties the windows, adds their merge to the total, records it and touches nothing else: the contract of the collector's Drain |
| Refinement.FinalizeAgrees | workload/stats.go:370-382 | The same for Finalize: it returns total and series with everything drained |
| Refinement.CallReady | workload/stats.go:370-372 | A consumer can call at any time it is idle, and the call notes what had been recorded |
| Refinement.MainFinishes | main.go:193-201 | Once the workers have returned and the lock is free, a call of Finalize that nobody disturbs returns, whatever happened before: main's order is never stuck there |
| Refinement.MergedIsSum | workload/stats.go:203-230 | What a drain merges, and adds to the total, is the sum of all the windows in counts, errors and latencies |
| Refinement.SecondDrainAddsNothing | workload/stats.go:366-369 | The merge of empty windows, added to any total and recorded in any series, changes neither: a second Finalize adds nothing |
| Afterwards.GoOn | workload/stats.go:370-382 | Whatever drains and recordings follow a report, in any number and order: any series handed out before is unchanged; every total handed out keeps its counts, reads the live latencies, and so stands for what was reported exactly until a latency of its op is added, if it had a map |
| Afterwards.FinalizeThenDrain | workload/stats.go:366-382 | Finalize followed by any number of drains, workers having stopped: totals and series still are what was reported, though the latency maps are the live ones |
| Afterwards.IdleDrain | workload/stats.go:203-233 | A drain of windows in which nothing was recorded leaves total and series as they are |
| RunSeries.SeriesOfDrains | workload/stats.go:203-233 | In every run the series is the outcome of all drains so far, and every returned series the outcome of all drains up to some moment |
| RunSeries.PercentilesInRuns | workload/stats.go:263-314 | In every run each interval is made of consecutive drains, and each entry carries the percentiles of the first of them in which its op saw traffic |
| Drains.PercentilesOfFirst | workload/stats.go:263-314 | The same for any sequence of drains and any declared list of ops: percentiles are left as they were, or come from the sliver alone |
| Drains.RepeatedNames | workload/stats.go:291-322 | For any sequence of drains and any declared list, every interval counts at most what its entries do, and exactly that if and only if no op it has traffic of is declared twice |
| Drains.RepeatedNameOvercounts | workload/stats.go:336-353 | A name declared twice overcounts from the first drain on |
| Refinement.MergeSampled | workload/stats.go:34-38 | One latency per op that did not fail holds of every merge and of the total it is added to |
| Collector.StatsCollector.constructor | workload/stats.go:155-162 | A collector starts with empty totals and an empty series |
| Collector.StatsCollector.NewWorkerStats | workload/stats.go:166-172 | A registered worker gets an empty window that shares nothing with any other table; every other window and the total stay |
| Collector.StatsCollector.RecordBy | workload/stats.go:76-113 | A worker's Record changes its own window and no other, leaves total and series alone, and keeps every latency map with one owner |
| Collector.StatsCollector.LiftWorker | workload/stats.go:219-225 | Lifting one window adds exactly it to the merge, empties it and leaves every other window and the total alone |
| Collector.StatsCollector.LiftAll | workload/stats.go:215-225 | All windows end up merged and empty; the merge shares no latency map with any of them or with the total |
| Collector.StatsCollector.Gather | workload/stats.go:203-230 | All windows emptied, their merge returned and added to the total, which shares no latency map with it |
| Collector.StatsCollector.FoldTotal | workload/stats.go:226-230 | The total grows by exactly the merge, with latency maps of its own |
| Collector.StatsCollector.Drain | workload/stats.go:203-233 | Windows emptied, their merge returned, added to the total and recorded in the series; no map shared; the entries of the intervals so far unchanged |
| Collector.StatsCollector.Finalize | workload/stats.go:370-382 | Returns struct copies that stand for the live totals, the live series, and the instants of start and end |
| Collector.StatsCollector.RecordInterval | workload/stats.go:248-364 | The series changes as specified: nothing for an empty window, folded into the predecessor for a sliver, appended otherwise |
| Collector.StatsCollector.FoldSliver | workload/stats.go:263-328 | The sliver branch: the last interval replaced, its entries in a fresh array |
| Collector.StatsCollector.AppendOwn | workload/stats.go:329-363 | The ordinary branch: one interval appended, its entries in a fresh array, the boundary moved |
| Recorder.SumStats | workload/stats.go:249-253 | The window's op and error sums, in any iteration order |
| Recorder.Existing | workload/stats.go:291-294 | The index holds for each name its last entry, and no other name |
| Recorder.Rebuild | workload/stats.go:295-322 | The rebuilt entries, carried over and new, in declared order |
| Recorder.OwnOperations | workload/stats.go:336-353 | The entries of a window of its own |
| Tables.StatsTable.constructor | workload/stats.go:67-73 | One empty accumulator for every declared op |
| Tables.StatsTable.Record | workload/stats.go:76-113 | The recorded op's accumulator grows by one count and one error, or by one count and the measured latency, zero if it is negative; no other accumulator changes |
| Tables.StatsTable.Snapshot | workload/stats.go:115-131 | The copies stand for the old window, the window is empty, and the table no longer refers to the maps handed out |
| Tables.RecordAll | workload/stats.go:115-121 | A window handed out still stands for what it was after any number of later Records |
| Tables.StatsTable.Fold | workload/stats.go:219-230 | Adds a window op by op in any order, ignoring ops the table lacks, without adopting any of its latency maps |
| Tables.StatsTable.CopyOut | workload/stats.go:375-378 | The returned map holds a struct copy of every total |
| Tables.StatsTable.CopyAliases | workload/stats.go:375-378 | A copy keeps its counts whatever happens later; its latencies are the live ones, so it still stands for what was reported exactly when no latency of the op was added since, or it had no map |
| Tables.Lift | workload/stats.go:219-225 | One window moved from one table to another |
| Store.LatencyMap.AddAll | workload/stats.go:192-197 | Adds every observation of another map, keys in any order, and creates no key without observations |
| Store.OpStats.Note | workload/stats.go:76-113 | One count, and one error or the measured latency (zero if negative), never both; no key without observations |
| Store.OpStats.Take | workload/stats.go:122-131 | The copy keeps the old map, the accumulator is zero and has none |
| Store.OpStats.MergeFrom | workload/stats.go:188-198 | Counts, errors and observations add up; the map stays the accumulator's own |
| IntervalFacts.RecordSums | workload/stats.go:244-247 | Appended, folded or empty, the series gains exactly the window's counts and errors per op, ops absent from the predecessor included |
| IntervalFacts.RecordBranches | workload/stats.go:241-282 | A window in which nothing was counted changes nothing, one less than a second after the boundary joins the last interval if there is one, any other becomes an interval of its own from the boundary to now; intervals before are kept and the boundary moves to now |
| IntervalFacts.RecordConsistent | workload/stats.go:280-322 | Each interval's entries are the declared ops with traffic, in declared order, without repetition, and sum to its own figures |
| IntervalFacts.RecordTiles | workload/stats.go:259-282 | Intervals tile the run up to the last boundary, whatever the clock does |
| IntervalFacts.RecordSpaced | workload/stats.go:235-282 | With non-decreasing times of non-empty drains slivers are folded away and rates are true |
| IntervalFacts.SpacedExact | workload/stats.go:235-282 | A window keeps the series well timed if and only if it is empty, or is folded into an interval that then spans a proper time, or is appended at a time not before the boundary |
| IntervalFacts.FoldSpacedExact | workload/stats.go:272-328 | A sliver keeps the series well timed exactly if the interval it joins still has a positive span (or had and has none), and one of minimum length unless it is the first |
| IntervalFacts.OwnSpacedExact | workload/stats.go:329-363 | An appended window keeps the series well timed exactly when its time is not before the boundary |
| IntervalFacts.IntervalRates | workload/stats.go:324-334 | Rate times span is the count per interval and per op, zero on a zero span; the per-op rates sum to the interval's |
| IntervalFacts.OwnTotalExact | workload/stats.go:336-353 | In an appended interval the op count is the sum of the entries exactly when the window has no traffic of an op declared twice |
| IntervalFacts.FoldedShare | workload/stats.go:283-321 | A folded interval holds for each op what it held plus what the sliver brought |
| Quantiles.QuantileFrom | workload/stats.go:486-511 | For every map, zero-count keys included: the ascending observations' entry i with i < q*N <= i + 1, the first for q <= 0, the last for q >= 1, 0 without any |
| Quantiles.RankedKey | workload/stats.go:501-511 | The walk over all keys but the last stops at the ranked observation and never reads an empty key list |
| Quantiles.SortedKeys | workload/stats.go:473-484 | The distinct keys in ascending order and the number of observations, in any iteration order |
| Quantiles.NearestRankIsLeast | workload/stats.go:448-454 | The nearest-rank value was observed, enough observations are at most it, and no smaller value has that |
| Quantiles.NearestRankCovers | workload/stats.go:448-454 | For 0 < q <= 1 at least the fraction q of the observations is at most a number exactly if the nearest-rank value is; it is the least observation for q <= 0, the greatest for q >= 1 |
| Quantiles.NearestRankMonotone | workload/stats.go:448-454 | A higher quantile is never a smaller value |
| Quantiles.ExpandIsSorted | workload/stats.go:34-37 | Writing every key as often as it was observed, in key order, gives the sorted observations |
| Latency.Summarise | workload/stats.go:384-405 | Mean and percentiles are exact for every map; minimum and maximum are the end keys, and exact if and only if the end keys carry observations |
| Latency.SummaryOrdered | workload/stats.go:384-405 | Min <= P50 <= P95 <= P99 <= P999 <= Max and Min <= Mean <= Max, all but the mean observed |
| Latency.SummaryExplicit | workload/stats.go:384-405 | The summary of an ascending list, written out entry by entry |
| Latency.MeanExplicit | workload/stats.go:392-398 | Its mean times its length is its sum |
| Latency.Samples | workload/stats.go:45-58 | The number of observations |
| Latency.WeightedSum | workload/stats.go:392-395 | The sum of all observations |
| Report.BuildRunResult | workload/result.go:318-369 | Builds the document of the totals: names in alphabetical order, sums, rates, latency blocks |
| Report.DocumentUnique | workload/result.go:338-344 | There is only one document: the iteration order of the totals does not show |
| Report.DeclaredOrder | workload/result.go:338-344 | The ops come in declared order if and only if they were declared in alphabetical order |
| Report.DefaultProfileReordered | workload/oltp.go:36-45 | No document of the default profile lists its ops in declared order |
| Report.BeforeMeans | workload/result.go:340-344 | The order of the names: a proper prefix first, else the smaller character where two names first differ |
| Report.SortedNames | workload/result.go:340-344 | The names of the totals, each once, in alphabetical order |
| Report.LatencyBlock | workload/result.go:351-360 | A block exactly if count exceeds errors, genuine zero latencies included |
| Worker.RunWorker | workload/worker.go:22-75 | Window, exported counters and skip counter after the loop are those of the turns it took, each begun before the run was over and none after one whose pause ended it; only the last turn may be dropped |
| Worker.WorkerBooks | workload/worker.go:44-67 | Per op, by the turns' own fields: executed = successes + failures + skips + noise, at most one noise; the window gained count, errors and the successes' latencies, the exported counters successes, samples, failures and skips |
| Worker.Account | workload/worker.go:41-67 | By the turn's own fields: a success adds a count and its latency to window and counters; an error is a skip if it says so, else nothing if the run is over and it wraps a cancellation or deadline, else a count and an error |
| Worker.FateFields | workload/worker.go:43-58 | The three fates of an executed op on the fields of its error |
| Worker.DroppedOnce | workload/worker.go:77-101 | At most one op is dropped as shutdown noise |
| Worker.OpByWeight | workload/worker.go:34-35 | With weights summing to 100 a turn's op is the one in whose share its roll lies |
| Worker.Meters.RecordOp | metrics/metrics.go:44-59 | An error is counted and not observed; a success is counted and observed |
| Worker.Meters.RecordSkip | metrics/metrics.go:61-65 | A skip is counted on its own |
| Worker.TurnAgrees | workload/worker.go:59-60 | A recorded turn is the machine's two steps, exported counters first |
| Weights.ResolveWeights | workload/weights.go:24-50 | Accepts exactly the non-negative weights whose 64-bit sum is 100; otherwise names the first negative weight or the sum |
| Weights.ResolutionMeans | workload/weights.go:28-50 | A number in the environment overrides the default; accepted exactly if no weight is negative and their true sum is 100 modulo 2^64, otherwise the first negative weight or the sum modulo 2^64 is named |
| Weights.SelectOp | workload/weights.go:61-75 | The first op whose cumulative weight exceeds the roll, the last if none does, no op for an empty list |
| Weights.Blocks | workload/weights.go:61-75 | With weights summing to 100 the rolls of an op are one contiguous block as long as its weight |
| Weights.SelectsBlock | workload/weights.go:61-75 | With weights summing to 100 every roll finds an op whose block it is in: the fallthrough decides nothing |
| Weights.ChosenByWeight | workload/weights.go:61-75 | With weights summing to 100 a roll between the sum of the weights before an op and that sum plus its weight selects it |
| Weights.ExactMix | workload/weights.go:46-49 | An accepted mix gives each op exactly its weight in rolls if and only if the weights sum to 100 in truth |
| Weights.AcceptedSum | workload/weights.go:43-46 | An accepted sum is 100 exactly when it is below 2^63 |
| Weights.WrappedMixAccepted | workload/weights.go:43-49 | Weights that wrap around to 100 are accepted |
| Ring.SessionRing.Push | workload/ring.go:28-36 | The history grows by one push and the populated slots hold exactly the last min(n, size) pushes |
| Ring.SessionRing.Sample | workload/ring.go:38-47 | Nothing exactly if nothing was pushed, else the latest push of the drawn slot, one of the last size pushes |
| Ring.SessionRing.constructor | workload/ring.go:21-26 | An empty ring of the given size |
| Ring.SlotsAreLast | workload/ring.go:28-36 | The populated slots are exactly the last min(n, size) pushes |
| Ring.OneDrawEach | workload/ring.go:38-47 | Each of those pushes is reached by exactly one draw |
| Sessions.RingNamesSessions | workload/ops.go:115-175 | In every interleaving each slot names a committed session whose insert did not fail, and an update is skipped on a ring that is not empty only while another transaction holds the row |
| Sessions.InvStep | workload/ops.go:245-299 | Every transaction step keeps ids distinct, committed before pushed, and rows held by one transaction at a time |
| Sessions.LockTakes | workload/ops.go:258-270 | SELECT FOR UPDATE SKIP LOCKED takes the row exactly if the session is committed and no other worker holds it, and skips otherwise |
| Sessions.InsertAlone | workload/ops.go:115-175 | An undisturbed insert commits its session, then pushes its id, and leaves all else as it was |
| Sessions.UpdateAlone | workload/ops.go:245-299 | An undisturbed update holds the row of the drawn session in between and leaves all as it was; of a row held elsewhere it is a skip |
| Ops.DoInsert | workload/ops.go:115-175 | All rows or none appear: an open session, its events and one audit; the id is pushed exactly if every statement and the commit succeeded |
| Ops.DoUpdate | workload/ops.go:245-299 | Skips exactly on an empty ring or a row that is missing or held, succeeds exactly if every statement and the commit did; the session closed and its audit row appear together or not at all |
| IndexStats.Tracker.Delta | metrics/index_stats.go:107-119 | The delta is the rise over the last reading of the key, zero for the first reading and for one that fell; the exported value of the key's readings grows by it |
| IndexStats.CollectTableStats | metrics/index_stats.go:139-176 | Every counter of every table follows its own readings, none if the query fails, else up to the first row that cannot be scanned; succeeds exactly if query, rows and their end did |
| IndexStats.RowSeen | metrics/index_stats.go:168-173 | A row is one reading of each of its table's two statistics and of nothing else |
| IndexStats.OwnReadings | metrics/index_stats.go:168-173 | The readings of a table's statistic are that column of its own rows |
| IndexStats.KeysApart | metrics/index_stats.go:168-173 | No two statistics of any two tables share a key |
| IndexStats.ExportedSnoc | metrics/index_stats.go:107-119 | A reading adds its rise over the one before to the exported value, nothing if it fell |
| IndexStats.ExportedSound | metrics/index_stats.go:107-119 | For any growth, resets and readings the exported counter never exceeds the true activity since the first reading |
| IndexStats.ExportedMonotone | metrics/index_stats.go:107-119 | The exported counter never decreases |
| IndexStats.ExportedExact | metrics/index_stats.go:107-119 | Without a reset it is the last reading minus the first |
| Migration.OneAtATime | db/schema.go:41-58 | At most one replica runs statements at a time |
| Migration.UnlockReleases | db/schema.go:47-48 | Returning releases the lock, on success and on error, exactly when the replica's context is live |
| Migration.LockReleased | db/schema.go:47-58 | In every run a returned replica with a live context does not hold the lock |
| Migration.NilMeansTables | db/schema.go:26-69 | Once some replica returned without an error, every tracked table exists if and only if the schema creates every table it tracks |
| Migration.SentinelMeansIndexes | db/schema.go:95-115 | A follower that waited for indexes returns without an error only if every table exists and every index up to the sentinel's has come into being, whatever its polls missed |
| Migration.NoSentinelNoReturn | db/schema.go:106-111 | A sentinel that no statement creates is waited for without end |
| Migration.LeadersExactly | db/schema.go:19-22 | In every run at most one replica ever gets the lock if and only if none tries it and finds it free after another has had it; some replica gets it if and only if one tries |
| Migration.LeadersStep | db/schema.go:41-48 | The same for one step |
| Migration.CancelledLeaderKeepsLock | db/schema.go:47-48 | Whatever the schema, there is a run in which a leader cancelled before the deferred unlock returns without an error and keeps the lock |
| Migration.LateReplicaRunsAgain | db/schema.go:19-58 | Whatever the schema, there is a run in which a second replica gets the lock after the first returned and starts over |
| Migration.InvStep | db/schema.go:35-69 | Every step keeps lock, catalogue and every replica's knowledge sound |
| Migration.OrderedPut | db/schema.go:73-92 | Running statements in order keeps the catalogue closed under earlier statements |
| Catalogues.Catalogue.CreateTables | db/schema.go:71-80 | Afterwards there are the tables that were there and those whose statement took effect and every statement before which completed; succeeds exactly if all did |
| Catalogues.Catalogue.CreateIndexes | db/schema.go:82-92 | The same for indexes |
| Catalogues.Catalogue.MigrateWithLock | db/schema.go:35-69 | Leader or follower by the try-lock; result, catalogue and lock afterwards; a follower succeeds exactly if, before any cancellation, some poll finds every tracked table and, if it waits for one, the sentinel, and fails exactly if a cancellation comes before such a poll |
| Catalogues.CheckMissingTables | db/schema.go:126-151 | Exactly the required tables not found, as often as they are required; all of them after a failed query; none exactly if all were found |
| Catalogues.MissingInOrder | db/schema.go:144-150 | In the order in which they are required |
| Catalogues.LostPollPasses | db/schema.go:126-133 | A failed table query passes for one that found everything exactly if nothing is required |
| Catalogues.WaitForSchema | db/schema.go:95-115 | Returns at the first wake-up whose rows hold every tracked table and that saw the sentinel if there is one to wait for, or at the first cancellation if that is earlier |
| ReplicaRuns.WakeAgrees | db/schema.go:96-113 | One wake-up in the transition system: an error if cancelled, success if every tracked table was in the rows and the sentinel was seen or is not waited for, otherwise nothing changes |
| ReplicaRuns.FollowerAgrees | db/schema.go:60-66 | A replica that finds the lock taken and is left alone gets where WaitForSchema says, and changes nothing else |
| ReplicaRuns.LeaderAgrees | db/schema.go:46-59 | One that finds it free and is left alone leaves catalogue, lock and result as MigrateWithLock's contract says |

## Left out

- PipelineFacts.CopiesStep: copies in the transition system are values as of the copy. The program's share their latency
  maps with the live totals; `Tables.StatsTable.CopyAliases` and `Afterwards` say what that means.
- IntervalFacts.OwnTotalExact: is about the appended branch; `Drains.RepeatedNames` covers every interval of every
  series.
- Worker.RunWorker: takes the turns of the loop as a finite list, since the loop ends only when its context does; the
  contract speaks of every prefix of a run.
- Catalogues.WaitForSchema: takes the wake-ups as a finite list for the same reason; that followers make progress after
  a leader dies is not claimed, since they never try the lock again.
- Quantiles.SortedKeys: the library sort is an insertion as the keys arrive; so is the one in `Report.SortedNames`.
- Collector.StatsCollector.Finalize: is one sequential call; what other threads do between its two lock holds is in
  `Pipeline`, whose steps are atomic where the program holds a lock.
- Worker.Meters.RecordOp: the histogram is its sample count; bucket contents are not modelled.
- Conversion of seconds to microseconds, overflow of 64-bit counts and rounding of floating-point results; only the sum
  of weights is computed in 64 bits.
- Parsing an environment variable into a number, and the warning for one that is not a number: `Weights.Setting` is the
  outcome of the parse.
- Validity of an index built concurrently: the catalogue can list one that failed half-way, so the claim about the
  sentinel is about the catalogue.
- Lost connections while a statement runs, which would free the lock too early; a process that exits frees its lock.
- The index loop of `metrics/index_stats.go:178-206`: the same tracker with index names for keys. Gauges set from rows,
  and the float twin of the tracker in `metrics/pg_stats.go`.
- Atomicity of a commit is an assumption (`Ops.Database.Commit`): a transaction's rows appear together or not at all.
- The executed SQL, the other ops of the mix (none deletes a session), payloads, actor pools, profiles, configuration.
- Console tables, JSON encoding, writing the result file, the dataset and server sections of the document, registration
  with Prometheus, pool and wait-event gauges, HTTP endpoints.
