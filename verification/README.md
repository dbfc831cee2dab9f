# VectorDBBench: a verified model

VectorDBBench loads vector and full-text datasets into databases, measures them, and reports the
results. This project models the parts of it that carry state, counting or inequalities, and proves
what they promise:

| modules | what they model |
|---|---|
| `StreamingProtocol`, `StreamingGuarantees`, `StreamingLoss`, `StreamingHang`, `ReadWriteRunner` | an insert process and a search process that talk through a queue of tokens: a step relation, invariants over every interleaving, and the code of both sides |
| `ConcurrentLoad`, `LoadGuarantees`, `ConcurrentRunner` | workers that share one dataset iterator behind a lock, with a stop flag set outside the lock |
| `FilterIds`, `FtsSelection`, `FtsDataset`, `ParquetIterator` | the full-text dataset pipeline (capping, filter ids, filtered ground truth, insertion) and the train-file iterator |
| `Discount`, `FtsMetrics`, `VectorMetrics` | nDCG, recall, reciprocal rank |
| `Assembler`, `ReuseKey`, `TaskRun`, `BenchmarkRunner`, `ResultCollector` | grouping of cases, the load-reuse key and what it is good for, the worker-to-interface signals, merging of result files |
| `CapacityLoad`, `InsertPool`, `QueryCycle` | capacity insertion, the AliSQL insert pool, the query cycle of throughput search |
| `Util`, `Arith` | sequences, sets, sums; integer division and products |

Databases, clocks and the arrival of signals are parameters: a database is a function from the
number of a call to its answer, a clock decides how often a loop may turn, and the part of the
futures that is done when a wait returns is an arbitrary set. Identifiers are values that can be
compared. The discount `1/log2(rank+1)` is any positive function that does not increase. The objects
whose methods update fields (insert runner, concurrent runner, dataset manager, iterators, connection
pool, interface, result directory) are classes; protocols with several actors are step relations, and
each method of a class that stands for an actor is shown to take only steps of its protocol.

## What the code does that its text does not say

- The streaming search can hang. The insert process announces a failed insert with `None`, but when the
  database cannot be opened, or the dataset raises, it ends without any token; and nothing ties the
  declared size to the rows the dataset yields, which are none when a case runs without its LOAD stage. A
  search process that needs more tokens then waits in `q.get()` for ever. `CanHangIff` and `MustHangIff`
  decide it from the configuration, `SearchHangs` shows three cases.
- Streaming results can be lost although every insert succeeded: the search side stops at `True`, so when
  the closing token is the last one its final stage needs, it returns `None`. `ResultsCanBeLostIff`
  decides from the configuration alone whether that can happen, `ResultsCanBeLost` is a run of three rows.
- Reusing a load goes wrong after a case that dropped the same collection and failed
  (`FailureBreaksReuse`); `ReuseFindsData` gives the exact condition by the stages and outcomes of the
  cases between. Configurations of different schemas can share a key (`DictionaryLikeList`), and so
  can models that differ only in a secret (`MaskedSecretsCollide`).
- A judged document that occurs twice in an uncapped corpus has its filter id recorded from the last
  copy, while every copy is inserted under its own (`TwoCopiesDisagree`; `TruthBreaksIff` and
  `FilterQrelsExact` say when that makes the ground truth wrong). A capped corpus holds one copy of each.
- The train-file iterator ends at an empty file that is not the first one. A single loop misses everything
  behind it; a further loop, or another worker, goes on there (`AllDeliveredIff`, `GapLosesBatches`).
- `merge_by_db` reads the date twice per database. When it turns in between, replacing can leave every
  result twice, or delete the file just written and leave nothing (`MidnightBreaksReplace`).
  `ReplaceExactly` says for all dates when it leaves exactly the files written.
- `run_endlessness` speaks of loading one whole file, but takes the first batch of the iterator and repeats
  that. Its ids never repeat only if the base ids differ modulo their number (`NeverRepeatsIff`); with 0 to n-1 it counts up (`IotaCountsUp`).
- The wrap to 1 in the search for a multiplier is never taken (`StartBelowSize`, `PredecessorCoprime`).

## Model

| member | source | states |
|---|---|---|
| StreamingProtocol.StepKeepsInv | vectordb_bench/backend/runner/rate_runner.py:77-145 | every step of either process, in any interleaving, keeps the accounting of batches, tokens and stages |
| StreamingProtocol.ReachableInv | vectordb_bench/backend/runner/read_write_runner.py:229-320 | the accounting holds in every state any interleaving can reach |
| StreamingGuarantees.TokenAccounting | vectordb_bench/backend/runner/rate_runner.py:88-113 | tokens times batch rate plus the remainder is the number of completed batches; submitted is outstanding plus completed; True or None only as the last token, True only when everything is inserted |
| StreamingGuarantees.SearchStartsAfterInserts | vectordb_bench/backend/runner/read_write_runner.py:241-255 | a stage's search runs only after target times batch rate batches have been inserted |
| StreamingGuarantees.StageTargetIs | vectordb_bench/backend/runner/read_write_runner.py:252 | the target of a stage is the one whole number t with t <= total * stage < t + 1 |
| StreamingGuarantees.SearchAtItsStage | vectordb_bench/backend/runner/read_write_runner.py:237-260 | in a case, while stage i is searched the token count is the whole part of ceil(volume / rate) * stage, and more than (that product - 1) times the batch rate batches have been inserted |
| StreamingGuarantees.TokensAtEnd | vectordb_bench/backend/runner/rate_runner.py:73-147 | without a failed insert exactly floor(batches / batch rate) tokens are posted |
| StreamingGuarantees.EnoughTokens | vectordb_bench/backend/runner/read_write_runner.py:237-252 | when the dataset yields the declared rows, that number is at least ceil(volume / rate) - 1 and at least every stage target |
| StreamingGuarantees.StarvesExactlyWhen | vectordb_bench/backend/runner/read_write_runner.py:241-249 | while the search process waits on an empty queue the insert process can move, unless it died of something other than a failed insert or ended with fewer tokens than the stage needs |
| StreamingGuarantees.NeverStarves | vectordb_bench/backend/runner/read_write_runner.py:241-249 | when the dataset yields the declared rows it does not end so: only its death leaves the search process waiting |
| StreamingGuarantees.HaltedOutcome | vectordb_bench/backend/runner/read_write_runner.py:229-320 | however the two interleaved, once neither can move the search process has ended as it would on the finished queue: all stages in order, no result, or waiting at the first stage the tokens do not reach |
| StreamingGuarantees.HangsExactlyWhen | vectordb_bench/backend/runner/read_write_runner.py:241-249 | in every state in which neither can move the search process waits iff no closing or abnormal token was posted and fewer tokens than the last stage needs; the insert process has then died or ended |
| StreamingHang.CanHangIff | vectordb_bench/backend/runner/read_write_runner.py:237-249 | in a case without failing inserts some run leaves the search process waiting for ever iff its last target lies above the fewest tokens: those of all batches, none without a connection, and with a dataset that raises those forced when 200 futures are outstanding at the start of that round |
| StreamingHang.MustHangIff | vectordb_bench/backend/runner/read_write_runner.py:237-249 | every run does iff the last target lies above the most tokens and no closing token can come |
| StreamingHang.EnoughRowsNeverHang | vectordb_bench/backend/runner/read_write_runner.py:237-249 | a case with the declared rows in which nothing raises never hangs |
| StreamingHang.TokensWithin | vectordb_bench/backend/runner/rate_runner.py:115-145 | whatever the interleaving, the tokens posted lie between those two numbers |
| StreamingHang.SearchHangs | vectordb_bench/backend/runner/rate_runner.py:115-124 | three cases in which every run hangs: no connection, a first batch that cannot be converted, and a run without the LOAD stage, where nothing raises and there is nothing to insert |
| StreamingGuarantees.Outcome | vectordb_bench/backend/runner/read_write_runner.py:251-320 | at the end all stages are reported in order, or None is returned; the latter iff a final True or None was among the tokens the last stage needed |
| StreamingGuarantees.ResultsLostExactlyWhen | vectordb_bench/backend/runner/read_write_runner.py:255-258 | with no failed insert, results are lost iff there is a closing token and the last stage needs it |
| StreamingGuarantees.AllStagesWhenRateDivides | vectordb_bench/backend/runner/read_write_runner.py:237-258 | when the rate divides the volume and batches are full every stage is reported |
| StreamingLoss.ResultsCanBeLostIff | vectordb_bench/backend/runner/read_write_runner.py:237-258 | a case in which nothing fails can lose all its results iff its last target takes every token there will be, at least one, and fewer batches than may be outstanding are left over after the last full second |
| StreamingLoss.ResultsCanBeLost | vectordb_bench/backend/runner/read_write_runner.py:246-258 | a run of three rows in which all inserts succeed and no result is returned |
| StreamingLoss.CloseLast | vectordb_bench/backend/runner/rate_runner.py:120-145 | the run behind it: holding back one more future than the remainder makes True the last token posted |
| ReadWriteRunner.RatedMultiThreadingInsertRunner.SubmitByRate | vectordb_bench/backend/runner/rate_runner.py:77-86 | takes only protocol steps; reports the end exactly when nothing was left to submit, and raises exactly when the dataset does within the round |
| ReadWriteRunner.RatedMultiThreadingInsertRunner.CheckAndSendSignal | vectordb_bench/backend/runner/rate_runner.py:88-113 | takes only protocol steps for any split into done and not done; the done futures leave the list |
| ReadWriteRunner.RatedMultiThreadingInsertRunner.RunWithRate | vectordb_bench/backend/runner/rate_runner.py:72-147 | the whole insert process is a run of the protocol; it completes iff nothing raises and no insert fails, with floor(batches / rate) tokens; it ends the queue with None after a failed insert and with nothing when anything else raised |
| ReadWriteRunner.RatedMultiThreadingInsertRunner.DrainFutures | vectordb_bench/backend/runner/rate_runner.py:142-145 | the loop at the end reaps everything or ends with None |
| ReadWriteRunner.FinalQueueSuffices | vectordb_bench/backend/runner/rate_runner.py:73-147 | reading the queue an insert process leaves waits for ever iff it holds no closing or abnormal token and fewer tokens than the last stage needs; with the declared rows that takes a process that died |
| ReadWriteRunner.WaitNextTarget | vectordb_bench/backend/runner/read_write_runner.py:241-249 | reaches the target iff enough progress tokens come, closes iff the last token comes first, and else blocks |
| ReadWriteRunner.RunSearchBySig | vectordb_bench/backend/runner/read_write_runner.py:229-320 | on any tokens it ends as the protocol's search process does, with every stage in order or with nothing |
| ConcurrentLoad.StepKeepsInv | vectordb_bench/backend/runner/concurrent_runner.py:161-179 | every step of every worker keeps order, ownership, lock, flag and sum |
| LoadGuarantees.EachBatchOnce | vectordb_bench/backend/runner/concurrent_runner.py:210-227 | batches are pulled in order without gaps, each is with exactly one worker, loaded or lost, and is tried at most MAX_INSERT_RETRY + 1 times |
| LoadGuarantees.CountIsRows | vectordb_bench/backend/runner/concurrent_runner.py:258-295 | task raises iff some batch was lost or the iterator raised, and the latter happens only at the batch where it must; otherwise every pulled batch is loaded, all of them without a deadline, and the sum is what the database reported: the row count if it reported the rows |
| LoadGuarantees.StopBoundsWork | vectordb_bench/backend/runner/concurrent_runner.py:242-256 | after the stop flag is set every worker completes at most one more batch and at most one more is pulled in all |
| LoadGuarantees.EveryRunEnds | vectordb_bench/backend/runner/concurrent_runner.py:242-256 | the length of every run is bounded by batches, workers and retries |
| LoadGuarantees.NoDeadlock | vectordb_bench/backend/runner/concurrent_runner.py:172-179 | until all workers are done some worker can move |
| ConcurrentRunner.ConcurrentInsertRunner.NextBatch | vectordb_bench/backend/runner/concurrent_runner.py:161-240 | one worker among any number, with the others moving between its steps: it gets a batch nobody had, in order, or the iterator's exception; and nothing only if its deadline has passed, the stop flag is set, the iterator broke or all batches are pulled |
| ConcurrentRunner.ConcurrentInsertRunner.InsertBatchWithRetry | vectordb_bench/backend/runner/concurrent_runner.py:123-149 | makes the calls and reports the rows that the retry rule says, while the others move |
| ConcurrentRunner.AttemptsEnd | vectordb_bench/backend/runner/concurrent_runner.py:134-149 | the retry rule: at most MAX_INSERT_RETRY + 1 tries, all but the last retryable, and failure only after the last or a refusal for good |
| ConcurrentRunner.ConcurrentInsertRunner.WorkerLoop | vectordb_bench/backend/runner/concurrent_runner.py:242-256 | a worker returns the sum of what was reported to it, or sets the stop flag and raises |
| ConcurrentRunner.ConcurrentInsertRunner.Task | vectordb_bench/backend/runner/concurrent_runner.py:258-295 | for any number of workers: an error iff a batch was lost or the iterator raised, else the sum of the reports; when no deadline passes in time every batch has then been pulled, and the sum is the number of rows if the reports are right |
| ConcurrentRunner.OthersCanRelease | vectordb_bench/backend/runner/concurrent_runner.py:172-179 | a lock another worker holds can be given back without this one moving |
| ConcurrentRunner.OthersCanFinish | vectordb_bench/backend/runner/concurrent_runner.py:276-280 | once a worker is done the others can get done too, so waiting for all of them can end |
| ConcurrentRunner.LegalOthersExist | vectordb_bench/backend/runner/concurrent_runner.py:276-280 | what is assumed of the other workers can be met for every load and every worker |
| FilterIds.ForSize | vectordb_bench/backend/dataset.py:1408-1426 | an error iff the size is not positive; else the first multiplier from the scaled start on that is coprime to the size; the search ends |
| FilterIds.StartIs | vectordb_bench/backend/dataset.py:1416 | the search starts at the least number from 1 on whose successor exceeds size times the golden ratio |
| FilterIds.CoprimeMeans | vectordb_bench/backend/dataset.py:1417 | the gcd is 1 iff no number above 1 divides both |
| FilterIds.PredecessorCoprime | vectordb_bench/backend/dataset.py:1417-1420 | size - 1 is coprime to size, so the wrap is unreachable |
| FilterIds.OrdinalOf | vectordb_bench/backend/dataset.py:1428-1432 | every id below size is some ordinal's id |
| FilterIds.MapStep | vectordb_bench/backend/dataset.py:1428-1432 | the ids start at the offset and go up by the multiplier from one document to the next, around size |
| FilterIds.MapInjective | vectordb_bench/backend/dataset.py:1428-1432 | no two ordinals share an id |
| FilterIds.PassingCount | vectordb_bench/backend/dataset.py:1836 | exactly size - threshold ordinals get an id of at least the threshold |
| FtsSelection.FillersFill | vectordb_bench/backend/dataset.py:1708-1726 | the unjudged documents kept are the first distinct ones until the limit is reached |
| FtsSelection.BreakIsHarmless | vectordb_bench/backend/dataset.py:1729-1730 | stopping early leaves what reading on would leave |
| FtsSelection.WriteCapped | vectordb_bench/backend/dataset.py:1706-1748 | the streaming pass refines the set specification, with its three refusals |
| FtsSelection.CappedOutcome | vectordb_bench/backend/dataset.py:1698-1742 | capping succeeds iff size has room for the judged ids, the corpus has them all and size distinct ids; else the first of the three that fails is reported, with the ids missing or the number found |
| FtsSelection.CappedMeans | vectordb_bench/backend/dataset.py:1696-1742 | on success: the kept positions in corpus order, no id twice, size documents, all judged ids and the first other ones |
| FtsSelection.BuildSelectedDocIds | vectordb_bench/backend/dataset.py:1663-1694 | the id-only pass: judged ids and fillers, refused iff too small or a judged id is missing |
| FtsSelection.SelectedOutcome | vectordb_bench/backend/dataset.py:1663-1694 | it is refused iff capping is for one of its first two reasons, and for the same one; else it holds the judged ids and min(size, distinct ids) ids of the corpus |
| FtsSelection.PassesAgree | vectordb_bench/backend/dataset.py:1663-1742 | both passes select the same ids when capping succeeds |
| FtsDataset.EmitDocuments | vectordb_bench/backend/dataset.py:1759-1783 | one pass yields the selected documents in order, size at most, the k-th with the k-th permuted id |
| FtsDataset.EmittedMeans | vectordb_bench/backend/dataset.py:1759-1783 | with or without ids: the k-th document yielded is the k-th one selected, up to size, under the k-th permuted id or none |
| FtsDataset.PlainPass | vectordb_bench/backend/dataset.py:1759-1783 | a pass without a filter yields a corpus of at most size documents whole and unchanged |
| FtsDataset.BuildQrelFilterIds | vectordb_bench/backend/dataset.py:1785-1806 | records the last copy's id of every judged document, or names those that were not streamed |
| FtsDataset.RecordedIsLastCopy | vectordb_bench/backend/dataset.py:1793-1796 | an id is recorded iff it is judged and streamed, with the filter id of its last copy |
| FtsDataset.RecordedAgrees | vectordb_bench/backend/dataset.py:1785-1806 | every insertion of a judged document carries its recorded id iff the stream has one copy of it |
| FtsDataset.TwoCopiesDisagree | vectordb_bench/backend/dataset.py:1785-1834 | for every corpus size from 4 on, a corpus with two copies of a judged document and a threshold for which its filtered ground truth is wrong |
| FtsDataset.TruthBreaksIff | vectordb_bench/backend/dataset.py:1793-1830 | some threshold makes the ground truth of a judged document wrong iff a copy of it has a larger filter id than its last copy |
| FtsDataset.MatchedDocCount | vectordb_bench/backend/dataset.py:1836 | at most size - threshold of the streamed documents pass, and exactly so many iff every position with a passing id was streamed |
| FtsDataset.FilterQueries | vectordb_bench/backend/dataset.py:1825-1834 | a query is kept iff a judged document of it passes, in order; the ground truth kept with it holds exactly the documents of its qrels that have a recorded id of at least the threshold, with their grades |
| FtsDataset.FilterQrelsExact | vectordb_bench/backend/dataset.py:1828-1830 | filtered ground truth is exactly the judged documents inserted with a passing id iff none has a passing copy whose last copy does not pass |
| FtsDataset.FtsDatasetManager.PrepareQrelPreservingDocuments | vectordb_bench/backend/dataset.py:1696-1748 | keeps the capped corpus on success and nothing on failure; the largest size is not capped |
| FtsDataset.FtsDatasetManager.ApplyIntegerFilter | vectordb_bench/backend/dataset.py:1808-1867 | refused iff the threshold is out of range or a judged document was not streamed; else the recorded ids, the kept queries each with the passing documents of its own qrels, and the statistics |
| FtsDataset.FtsDatasetManager.ApplyFiltersToQrels | vectordb_bench/backend/dataset.py:1869-1884 | without a filter everything is kept; with one it succeeds iff the threshold is in range and every judged document is streamed, which a capped corpus guarantees, and the stored ground truth then matches what insertion stores |
| FtsDataset.FtsDatasetManager.Prepare | vectordb_bench/backend/dataset.py:1941-1952 | on a capped size it succeeds iff there are judged queries, capping succeeds and the threshold is in range; on the largest size iff there are judged queries and, with a filter, the threshold is in range and every judged document is streamed |
| FtsDataset.FtsDatasetManager.CappedTruth | vectordb_bench/backend/dataset.py:1824-1836 | after capping, the stored ground truth of the j-th kept query is exactly what insertion stores of its judged documents with a passing id; a query not kept has none; and as many documents pass as the statistics say |
| FtsDataset.FtsDatasetManager.IterBatches | vectordb_bench/backend/dataset.py:1981-1983 | refused iff the batch size is not positive; the pass starts with the first batch, from the state the dataset is in then |
| FtsDataset.FtsDatasetManager.PassIsEmission | vectordb_bench/backend/dataset.py:2032-2035 | with a filter in place that pass is the very emission the recorded ids came from |
| FtsDataset.FtsDocumentIterator.Next | vectordb_bench/backend/dataset.py:2020-2046 | the next batch is the next batch-size documents of the pass |
| FtsDataset.FtsDocumentIterator.Drain | vectordb_bench/backend/dataset.py:2017-2046 | a loop over the iterator sees every document once, in order, in full batches but for the last |
| ParquetIterator.ParquetDatasetIterator.Next | vectordb_bench/backend/dataset.py:807-821 | the next batch in order, or the end of this loop, after which the next loop goes on |
| ParquetIterator.ParquetDatasetIterator.Drain | vectordb_bench/backend/dataset.py:795-821 | one loop receives exactly what is left up to the first gap, and leaves the rest to the loops after it |
| ParquetIterator.ParquetDatasetIterator.DrainBy | vectordb_bench/backend/dataset.py:795-821 | several loops, as of several workers that each stop at their first end, receive together what is left up to so many gaps |
| ParquetIterator.AllDeliveredIff | vectordb_bench/backend/dataset.py:807-821 | k loops receive a prefix of the dataset, all of it iff fewer than k empty files, not counting the first file, lie before any file with batches |
| ParquetIterator.DeliveredUpToGap | vectordb_bench/backend/dataset.py:807-821 | when there is a k-th empty file behind the first file, k loops receive exactly the files before it |
| ParquetIterator.GapLosesBatches | vectordb_bench/backend/dataset.py:807-821 | three files with an empty one between: one loop never reads the last, two loops do |
| FtsMetrics.ShiftUp | vectordb_bench/metric.py:208-217 | moving relevant results up to the first positions never lowers the gain |
| FtsMetrics.TopGainsLargest | vectordb_bench/metric.py:219-221 | no m judged documents gain more than the m highest graded ones |
| FtsMetrics.DcgAtMostIdeal | vectordb_bench/metric.py:203-225 | the rearrangement inequality: no result list scores more than the ideal at any cutoff |
| FtsMetrics.IdealIsBest | vectordb_bench/metric.py:219-221 | the ideal is the maximum over all result lists, and it is reached |
| FtsMetrics.SortByRelevance | vectordb_bench/metric.py:220 | all judged documents once, by descending grade |
| FtsMetrics.GainIsGrade | vectordb_bench/metric.py:208-217 | the gain at a position is the discounted grade its document has in the qrels, 1 in a plain list, if it is positive and the document occurs there first, and else 0 |
| FtsMetrics.CalcNdcg | vectordb_bench/metric.py:203-225 | the gain of first occurrences over the best possible one; between 0 and 1; positive iff one of the first k results has a positive grade in the qrels, or is in the plain list |
| FtsMetrics.CalcMrr | vectordb_bench/metric.py:193-200 | one over the rank of the first relevant result; positive iff one of the first k results has a positive grade in the qrels, or is in the plain list |
| FtsMetrics.RecallZeroWhenOthersAre | vectordb_bench/metric.py:185-190 | recall is a proportion and positive under the same condition on the qrels as the other two |
| FtsMetrics.RecallCounts | vectordb_bench/metric.py:185-190 | recall times the number of relevant documents is how many of them are among the first k results; it is 1 iff all are |
| VectorMetrics.BuildGroundTruthRanks | vectordb_bench/metric.py:128-132 | every neighbour is mapped to its first position |
| VectorMetrics.CutoffFromTable | vectordb_bench/metric.py:165-174 | the hits read off the shared table are the hits computed from scratch at that cutoff |
| VectorMetrics.RecallCounts | vectordb_bench/metric.py:110-116 | recall times count is the number of distinct neighbours among the first count results |
| VectorMetrics.FoundBounds | vectordb_bench/metric.py:135-144 | the gain is at most the ideal, equal iff all are found, 0 iff none is |
| VectorMetrics.CalcNdcgFromRanks | vectordb_bench/metric.py:135-144 | the loop over an unordered set computes the gain of the found neighbours over the ideal |
| VectorMetrics.ScoreTimes | vectordb_bench/metric.py:135-144 | nDCG times the best possible gain is the gain reached |
| VectorMetrics.CalcVectorMetrics | vectordb_bench/metric.py:151-176 | every cutoff equals the recall computed by definition; nDCG is between 0 and 1, 0 iff recall is 0, 1 iff recall is 1 |
| Assembler.StableSortCorrect | vectordb_bench/backend/assembler.py:82-84 | sorted by size with label filters first, a permutation, ties in their old order |
| Assembler.StableSortUnique | vectordb_bench/backend/assembler.py:82-84 | only one list is sorted and stable |
| Assembler.KeyOrder | vectordb_bench/backend/assembler.py:84 | the smaller dataset comes first, and for one size a label filter before none |
| Assembler.GroupByDb | vectordb_bench/backend/assembler.py:66-72 | the dictionary of lists holds every database's runners in order, databases in order of first occurrence |
| Assembler.DbsInOrder | vectordb_bench/backend/assembler.py:66-72 | of two databases the one listed first has a runner before all runners of the other |
| Assembler.AssembleAll | vectordb_bench/backend/assembler.py:46-96 | the first problem in the order the code meets them (missing client, no full-text support, unsupported filter), else the arranged list |
| Assembler.FirstProblemIsFirst | vectordb_bench/backend/assembler.py:23-80 | the error is that of the first task that cannot be assembled, else that of the first database that fails; and why, in terms of its runners |
| Assembler.AssemblesExactlyWhen | vectordb_bench/backend/assembler.py:23-80 | there is no problem iff every full-text and search case has its client and its support |
| Assembler.CheckFilters | vectordb_bench/backend/assembler.py:74-80 | the first database, in order of first occurrence, without client or with an unsupported filter |
| Assembler.ArrangedIsPermutation | vectordb_bench/backend/assembler.py:86-96 | no runner is lost or duplicated |
| Assembler.SearchOrder | vectordb_bench/backend/assembler.py:66-84 | every database's search runners are contiguous, sorted and stable |
| Assembler.SearchTies | vectordb_bench/backend/assembler.py:64-84 | search runners of one database that the sort does not tell apart: performance cases before cold-latency cases, each kind in task order |
| Assembler.GroupsInOrder | vectordb_bench/backend/assembler.py:66-92 | the groups follow each other as their databases first occur |
| Assembler.ArrangedRanked | vectordb_bench/backend/assembler.py:86-92 | kinds follow each other: load, streaming, cloud insert, search, full text |
| Assembler.SectionsKeepOrder | vectordb_bench/backend/assembler.py:86-92 | outside the search section the runners of every kind stay in task order |
| TaskRun.AsyncTask | vectordb_bench/interface.py:165-238 | one result and one WIP per case in order whichever fail, each labelled by how its case ended, then one terminal signal, SUCCESS iff nothing outside the cases failed; reused loads report the cached duration |
| TaskRun.ResultMeans | vectordb_bench/interface.py:171-216 | the label per outcome, and the load time: its own after a drop and load for a search, the remembered one for a reused load, else none |
| TaskRun.RememberMeans | vectordb_bench/interface.py:200-202 | the remembered load changes iff a performance case drops, loads and succeeds, and then to that case |
| TaskRun.ReuseFindsData | vectordb_bench/interface.py:182-209 | a reused load finds at its server and collection exactly its key's data iff no case since has disturbed that place, by a drop of its own or by inserting with its LOAD stage; it reports that load's duration |
| TaskRun.OneCaseLater | vectordb_bench/backend/task_runner.py:326-343 | one case ends that state iff it disturbs the place, and no case restores it |
| TaskRun.InsertionBetween | vectordb_bench/backend/task_runner.py:288-296 | a cloud insert case between a load and its reuse adds its rows with the LOAD stage and nothing without it |
| TaskRun.ReuseIsSound | vectordb_bench/interface.py:182-209 | over the list that assembling returns: when effective drops load and succeed, every reused load is exactly there |
| TaskRun.ReusedUnderSameSettings | vectordb_bench/backend/task_runner.py:80-94 | a reused load was made at the same place under the same settings, as far as the cases have one schema and up to secrets inside models |
| TaskRun.FailureBreaksReuse | vectordb_bench/interface.py:200-221 | a case that fails after its drop leaves the next reuse an empty collection if it was at the same place, and does no harm at another |
| ReuseKey.HashableIsFlat | vectordb_bench/backend/task_runner.py:96-112 | the flattened value depends only on the configuration without enumeration and model wrappers and list against tuple, with the secrets inside models masked |
| ReuseKey.SameKeyIff | vectordb_bench/backend/task_runner.py:96-112 | two configurations of one schema have the same flattened value iff they are the same up to secrets inside models; if they hold none there, iff they are the same |
| ReuseKey.MaskedSecretsCollide | vectordb_bench/backend/task_runner.py:106-109 | two models that differ in a secret have one key unless exactly one of the secrets is empty; two secrets of their own have one key iff they are equal |
| ReuseKey.DictionaryLikeList | vectordb_bench/backend/task_runner.py:98-101 | of different schemas they can collide: a dictionary and the list of its pairs |
| BenchmarkRunner.BenchMarkRunner.Run | vectordb_bench/interface.py:67-108 | refused while a task runs or with no tasks; else a task starts with the assembled list, or the first problem is raised (full text) or noted |
| BenchmarkRunner.BenchMarkRunner.TryGetSignal | vectordb_bench/interface.py:110-125 | finished cases grow by exactly the signals read; the task is cleared iff the terminal signal was read, with a notice iff it was not SUCCESS |
| BenchmarkRunner.BenchMarkRunner.HasRunning | vectordb_bench/interface.py:127-131 | running iff the terminal signal has not been read; while it runs, the finished cases grow by the signals read |
| BenchmarkRunner.BenchMarkRunner.GetCurrentTaskId | vectordb_bench/interface.py:143-149 | the number of WIP signals read, or -1 |
| BenchmarkRunner.TaskRunner.NumFinished | vectordb_bench/backend/task_runner.py:805-812 | counts the finished cases |
| BenchmarkRunner.CountFirstFinished | vectordb_bench/backend/task_runner.py:805-812 | when exactly the first t cases are finished the count is t |
| BenchmarkRunner.SuccessComesLast | vectordb_bench/interface.py:218-229 | SUCCESS is read only after every case's WIP, each of which is in range and in order |
| ResultCollector.Collect | vectordb_bench/backend/result_collector.py:26-52 | the dictionary loop yields the groups in order of first occurrence |
| ResultCollector.SameGroup | vectordb_bench/backend/result_collector.py:17-24 | two files share a group iff their run ids agree, or by database iff their databases do, a file without results counting by its run id |
| ResultCollector.CollectedAre | vectordb_bench/backend/result_collector.py:38-52 | one group per key in order of first occurrence: the first file of the key with the results of all its files, in their order |
| ResultCollector.CollectConserves | vectordb_bench/backend/result_collector.py:46-50 | grouping keeps the multiset of case results, whatever the keys |
| ResultCollector.GroupedByFirstDb | vectordb_bench/backend/result_collector.py:17-24 | a group with results is keyed by its first result's database |
| ResultCollector.PathsDistinct | vectordb_bench/backend/result_collector.py:70-79 | output paths are distinct whatever the date |
| ResultCollector.ResultDir.MergeByDb | vectordb_bench/backend/result_collector.py:54-93 | the reported paths and the directory afterwards; a dry run changes nothing |
| ResultCollector.OutputSurvives | vectordb_bench/backend/result_collector.py:86-91 | for any dates: an output is gone iff the date turned while it was merged and a source bore the later name; a source stays unmerged beside it iff the date turned and it bore the earlier name |
| ResultCollector.OutputHolds | vectordb_bench/backend/result_collector.py:62-84 | an output that stays holds all results of its database's files in their order, the time of the first of them and the label of the merge, under a name of date, label and database |
| ResultCollector.MergeConserves | vectordb_bench/backend/result_collector.py:62-93 | the written files hold the same multiset of case results as the sources, unless one of them is deleted again |
| ResultCollector.ReplaceExactly | vectordb_bench/backend/result_collector.py:86-91 | for any dates: replacing leaves exactly the written files iff no source bears a name of an output whose date turned |
| ResultCollector.ReplaceConserves | vectordb_bench/backend/result_collector.py:86-91 | and then they hold every case result of the sources exactly as often |
| ResultCollector.MidnightBreaksReplace | vectordb_bench/backend/result_collector.py:75-91 | one source file over midnight: with the first day's name every result is there twice afterwards, with the second day's nothing is left |
| ResultCollector.MergeTwice | vectordb_bench/backend/result_collector.py:54-93 | merging again on the same day changes nothing, in whatever order files are read |
| CapacityLoad.InsertBatch | vectordb_bench/backend/runner/serial_runner.py:63-93 | every call of the batch but the last failed, and the last one did only if it was the tenth; the rows stored are the prefix the tries took; a database error iff the tenth try failed, short iff the last did not fail and rows are missing, else success |
| CapacityLoad.EndlessInsertData | vectordb_bench/backend/runner/serial_runner.py:52-99 | the rows stored are a prefix of the rows wanted; success iff each batch in turn is stored, else the first batch that fails gives the error and how many rows were stored |
| CapacityLoad.RunEndlessness | vectordb_bench/backend/runner/serial_runner.py:101-134 | for any base ids the rows stored are the first rows of the endless sequence; the count is a whole number of rounds and at most one round short; every earlier round was stored in full, and it stops early only when connecting for a round or a batch of it fails |
| CapacityLoad.NeverRepeatsIff | vectordb_bench/backend/runner/serial_runner.py:54-55 | no id is ever inserted twice iff no two base ids leave the same remainder by their number |
| InsertPool.PoolIsSafe | vectordb_bench/backend/clients/alisql/alisql.py:60-71 | each connection is pooled, borrowed by one worker, or closed; at most one live connection per worker |
| InsertPool.InsertConnections.AcquireInsertConn | vectordb_bench/backend/clients/alisql/alisql.py:60-71 | the oldest pooled connection, else a new one |
| InsertPool.InsertConnections.InsertEmbeddings | vectordb_bench/backend/clients/alisql/alisql.py:196-224 | a healthy connection goes to the end of the pool, a broken one leaves it and is closed; takes only steps of the pool protocol |
| InsertPool.InsertConnections.DrainInsertPool | vectordb_bench/backend/clients/alisql/alisql.py:73-87 | with nothing borrowed no connection stays open |
| QueryCycle.SearchByDur | vectordb_bench/backend/runner/mp_runner.py:427-453 | the queries sent are the cycle from the start, whichever requests fail; the two counts |
| QueryCycle.EachQueryFairly | vectordb_bench/backend/runner/mp_runner.py:129-133 | how often each query is used, exactly |
| QueryCycle.FloorOrCeil | vectordb_bench/backend/runner/mp_runner.py:129-133 | that is the floor or the ceiling of queries sent over queries there are |

## Left out

- Database clients other than the AliSQL pool, the frontend, the command line, configuration classes and downloads: drivers, declarations and I/O.
- Floating point: `1/log2`, rounding of durations and of ratios, and the float product `total_batch * stage`, which is taken over the reals.
- Conversion of ids with `str()` and `int()`; documents that raise while they are read and are skipped; a full-text pass is read in one go once it has started.
- Reading a result file may raise; the model reads contents.
- Unsupported filter types, a filter on another field, datasets without ground truth, and picking the queries that have judgements: guards that precede what is modelled.
- Waiting times, timeouts, killed processes and closed pipes: a deadline is "may stop now", and sending a signal does not fail.
- The start barrier of `mp_runner`: a worker announces itself before it waits, so its release is not guaranteed by the code.
- In `_hashable_value`, sets, and dictionary keys that are not texts: a dictionary is a map from texts.
- Clearing a running task beyond its fields: stopping the runners and killing their processes.
- Redaction and projection of metrics when a result file is written: a case result is carried unchanged.
- Creating connections and reading rows in the AliSQL client beyond success or failure.
- Empty train files inside a streaming run or a concurrent load: there the dataset is one sequence of batches, and what several loops receive is stated in `ParquetIterator`.
- StreamingHang.CanHangIff: speaks of cases without failing inserts; with failing ones `HangsExactlyWhen` still decides every halted state.
- LoadGuarantees.CountIsRows: an iterator that has raised is taken to be exhausted; a train-file iterator may go on with the file after the missing one, in a load that raises anyway.
- ConcurrentRunner.ConcurrentInsertRunner.Task: follows one worker through its code; the others take protocol steps, any number of them, whenever it pauses.
- ReadWriteRunner.RunSearchBySig: reads the tokens from a finished queue; HaltedOutcome shows that a live queue leads to the same end.
- InsertPool.PoolIsSafe: a connection whose session statement or close fails is counted as lost, since the client neither pools nor closes it for certain.
