# Verification of the data pipelines

This project models the crawling, storing and planning core of a League of Legends data pipeline and proves what its steps keep, over whole runs and for every input. `dafny verify dfyconfig.toml` checks all of it.

What the modules model:

- `Crawl`, `CrawlPool`, `CrawlOwed`, `CrawlRuns`: paging through one player's match ids, and the pool of workers that share a work queue they also feed. The pool is a state machine over the atomic sections between two suspension points; a run is any sequence of enabled steps. The server is a function from a request to its answer, and what a crawl delivers is stated on those answers alone.
- `CombineStreams`: two pumps and a consumer around a bounded queue, again as a state machine, and the generator that runs it.
- `Spreading`, `Sequences`, `Ordering`, `Counting`, `Deduping`: the round-robin `spreading`, filters, sorting and order-keeping removal of duplicates.
- `ClaimQueue`, `ClaimOrder`, `MatchStore`, `MatchSaver`, `MatchSave`, `MatchQueue`: the durable queue of pending match ids, the nineteen tables, buffering, inserting with retries, deleting, rolling back, and the batch loop. The class `Store` is the database: every command takes effect as a whole or not at all, one that reports an error may nevertheless have taken effect, a ghost `trace` records the state after every command, and a ghost `faults` counts those that report an error. A crash leaves the database as it was after some command, so a statement about all elements of the trace is a statement about all crash points; in `MatchQueue.RunLives` a crash is a life in which every command after some point fails. The runs of the batch loop are described by a `History`: the batches it claimed, what was delivered for each, and the states before and after.
- `CycleStore`, `CycleSave`, `CycleWindows`, `CycleCrawl`: the match-id cycle, whose anchor row names the newest complete run, and what the crawl pool delivers to it. Commands fail in the same way, and again every state between commands is recorded.
- `MetadataIndex`, `GroupWalk`, `GroupSnapshot`, `MetricPlan`, `ExecutionPlan`: resolving a metric group into branches, members and metrics.
- `RateLimiter`: the slots of the limiter, the sliding window of its telemetry and the period counter of its debug metrics, over real-valued times.
- `SubElitePages`: the binary search for the last league page, and the page jobs that follow from it.
- `Timeline`, `KillId`, `PerkKey`: timeline event tables, the champion-kill event id and the perk combination key.

Failures of database commands, clocks and the order of the scheduler are nondeterministic: a contract holds whatever they do. How the network answers each request of a run, and where the stop flag is seen up, are parameters, so a save that gives up has a reason that can be named: a stream fails, a document does not parse, a stop is requested, or a command has failed eight times. Run ids are natural numbers that have not been used before, and anchors have different times.

Where a promise does not hold of the code as it stands, the exact condition is proved and a concrete failing case is given:

- Deleting the rows of failed ids goes by the numeric suffix, so, as every table but the metadata stores the numeric match id, a finished id is lost exactly when a failed id of its batch has the same suffix (`MatchQueue.FinishedPersistedExactly`), and a batch is safe whatever is delivered exactly when its ids have different suffixes (`MatchQueue.NeverClashExactly`). `MatchQueue.TwoShardsLoseARow` is a loss without any fault.
- A removal of finished ids from the queue that takes effect but keeps reporting an error is followed by the rollback of the run, so after a save that did not finish nothing is lost exactly when no removal did so, or the removed ids had been stored before, or the rollback failed too and has left them stored (`MatchQueue.UnfinishedIsSafeExactly`, `MatchQueue.RolledBackIsSafeExactly`, and `MatchQueue.TornRemovalLosesAMatch` for a loss).
- A match-id cycle resumes a player by puuid while failures are per puuid and queue type, so windows join without a gap exactly when no cycle resumes a key that is not itself recorded (`CycleWindows.GapFreeExactly`, `CycleWindows.TwoQueueTypesLeaveAGap`).
- A 404 ends the page probe early, so with 404 answers past the last page `n` the probe finds `n` exactly when 1025 - n is a power of two (`SubElitePages.MissingPagesUnderestimate`).
- Perk ids are not checked against the 14 bits they are given, so a perk key decodes back to its selections exactly when each of them is below 2^14 (`PerkKey.DecodesExactly`, `PerkKey.KeysCollide`).

`RECOVERY_SYSTEM.md:39` says that a claim orders the queue by match id; the code ranks and interleaves by continent, and the model follows the code.

## Model

| member | source | states |
|---|---|---|
| Spreading.Spreading | app/services/riot_api_client/utils.py:156-172 | grouping into queues and popping round by round yields the list that is read off row by row |
| Spreading.SpreadPermutes | app/services/riot_api_client/utils.py:156-172 | spreading neither loses nor duplicates an item |
| Spreading.SpreadKeepsKeyOrder | app/services/riot_api_client/utils.py:156-172 | the items of each key keep their order |
| Spreading.SpreadOrder | app/services/riot_api_client/utils.py:156-172 | the r-th item of one key precedes the s-th of another exactly when (r, rank of the key by first appearance) is lexicographically smaller |
| Spreading.SpreadFair | app/services/riot_api_client/utils.py:156-172 | in every prefix no key is more than one item ahead of a key that still has items to come |
| ClaimQueue.PrefilterHarmless | database/clickhouse/operations/work_state.py:147-179 | `LIMIT n BY continent` before ranking never changes the claimed list |
| ClaimQueue.ContinentExactly | database/clickhouse/operations/work_state.py:27-33 | an id belongs to a continent exactly if it is, in whatever case, the name of one of the platforms listed for it, alone or followed by an underscore; otherwise it is unknown |
| ClaimQueue.PlatformId | database/clickhouse/operations/work_state.py:236-246 | a listed platform in upper, lower or mixed case, an underscore and whatever follows make an id of the listed continent |
| ClaimQueue.ClaimIsSpread | database/clickhouse/operations/work_state.py:158-179 | the claim is the first n entries of `spreading` applied to the continents' sorted queues in continent order |
| ClaimOrder.ClaimInOrder | database/clickhouse/operations/work_state.py:145-181 | told by the queue alone: the claim has min(n, size) different ids; an id precedes another in it exactly if fewer ids of its continent come before it by hash and id, or as many and its continent comes first; and no id left behind precedes a claimed one |
| ClaimOrder.OneOfEach | database/clickhouse/operations/work_state.py:158-179 | one id each of NA1, EUW1, KR and OC1, queued in any order and with any hash, are claimed in this order |
| ClaimQueue.ClaimSelects | database/clickhouse/operations/work_state.py:145-181 | the claim is a selection of the queue with multiplicity, of size n or the whole queue |
| ClaimQueue.ClaimPending | database/clickhouse/operations/work_state.py:142-199 | a non-positive batch size is an error, anything else claims the deduplicated query result |
| ClaimQueue.ClaimedBatch | database/clickhouse/operations/work_state.py:142-199 | from a queue of distinct non-blank ids a claim takes exactly min(n, size) different ids of the queue |
| Deduping.Dedupe | database/clickhouse/operations/work_state.py:218-227 | the loop with its `seen` set computes the specified list |
| Deduping.DedupedMeaning | database/clickhouse/operations/work_state.py:218-227 | the result has no duplicate and holds exactly the non-blank values |
| Crawl.CrawlMeaning | app/services/riot_api_client/match_ids.py:47-141 | told by the server alone: the crawl goes on to the next page exactly after a list with 100 strings from a page below 900; each page it reaches gives one item, its strings in order or its error, unless it is missing or has no string; an error is any failure but a 404 or a success that is no list |
| Crawl.MissingPageEnds | app/services/riot_api_client/match_ids.py:124-126 | a reached page that is answered by 404 ends the crawl there without an error |
| Crawl.CrawlEnds | app/services/riot_api_client/match_ids.py:62-70 | a crawl ends because its last page was not full, was an error or lay at the last page start, or because the next page was fetched and is missing or has no string |
| Crawl.TenPages | app/services/riot_api_client/match_ids.py:9-10 | from page 0 a crawl requests at most ten pages |
| CrawlRuns.StepKeepsInv | app/services/riot_api_client/match_ids.py:45-103 | every step of every worker, the closer and the consumer keeps the accounting: unfinished = queued + held, one job at most per seed, published plus owed items = the sequential crawl, sentinels only after the join, one `_Done` and last |
| CrawlRuns.JoinMeansCrawled | app/services/riot_api_client/match_ids.py:81-82 | when `join()` can return, every seed's crawl has been published completely |
| CrawlRuns.FinishedMeansDelivered | app/services/riot_api_client/match_ids.py:93-103 | when the consumer returns it holds each seed's sequential crawl, in order |
| CrawlRuns.Progress | app/services/riot_api_client/match_ids.py:45-103 | no deadlock: a step is enabled until the consumer has returned |
| CrawlRuns.TaskDoneNeverRaises | app/services/riot_api_client/match_ids.py:76-77 | `task_done` is never called on a zero count |
| CrawlRuns.RunsAreBounded | app/services/riot_api_client/match_ids.py:45-103 | every step lowers the measure, so runs have bounded length |
| CrawlRuns.InitMeasure | app/services/riot_api_client/match_ids.py:9-11 | the bound is 80 steps a seed (ten pages of eight) plus three a worker plus four |
| CrawlRuns.SentinelsCounted | app/services/riot_api_client/match_ids.py:84-87 | a worker takes one sentinel in a run if it ends up stopped, and none otherwise |
| CrawlRuns.PoolCorrect | app/services/riot_api_client/match_ids.py:29-109 | for every schedule and positive number of workers: a run is bounded, can stop only when the consumer has returned, and has then delivered exactly the sequential crawls, each worker having taken exactly one sentinel |
| CrawlRuns.ScheduleIndependent | app/services/riot_api_client/match_ids.py:45-79 | two completed runs with any schedules and worker counts deliver the same multiset of items |
| CombineStreams.Progress | app/worker/pipelines/matchdata_orchestrator.py:271-292 | no deadlock, whatever the buffer bound |
| CombineStreams.MergeCorrect | app/worker/pipelines/matchdata_orchestrator.py:264-292 | every run is bounded, stops exactly when both streams are closed, and has then yielded an order-preserving merge of both |
| CombineStreams.Combine | app/worker/pipelines/matchdata_orchestrator.py:264-292 | the generator ends, and yields what some run of the pumps and the consumer yields; all of it unless a stream raises |
| CombineStreams.YieldsMerge | app/worker/pipelines/matchdata_orchestrator.py:264-292 | what the generator yields to its end is each stream's items, all of them, in their own order |
| MatchStore.DeletesCoverAll | app/worker/pipelines/matchdata_orchestrator.py:134-157 | the two delete lists cover every table that is ever written |
| MatchStore.InsertsDistinct | app/worker/pipelines/matchdata_orchestrator.py:160-227 | no insert list names a table twice |
| MatchStore.InsertsExactly | app/worker/pipelines/matchdata_orchestrator.py:160-227 | the ten timeline tables are filled from timeline documents, the nine others from the other documents |
| MatchStore.NamedExactly | database/clickhouse/operations/matchdata.py:37-46 | a delete for an id names the rows under the id itself and, if what follows its last underscore consists of digits, those under that number, and no others |
| MatchStore.ExtractNumeric | database/clickhouse/operations/matchdata.py:37-46 | the loop computes the distinct numeric suffixes |
| MatchStore.DeleteListsName | database/clickhouse/operations/matchdata.py:12-26 | the two lists passed to a delete command match exactly the rows whose id is one of the ids or the numeric suffix of one |
| MatchSaver.ProducedExactly | app/worker/pipelines/matchdata_orchestrator.py:573-587 | the rows produced for a table are exactly those that the parsed documents of its stream have for it |
| MatchSaver.PersistData | database/clickhouse/operations/utils.py:11-50 | a failed call has inserted a prefix of the rows, a successful one all of them in order, and no other table changes |
| MatchSaver.InsertOne | app/worker/pipelines/matchdata_orchestrator.py:549-571 | eight attempts: it gives up only after eight failed commands; on success each row is present at least once, exactly once and in order if no attempt failed |
| MatchSaver.FlushTable | app/worker/pipelines/matchdata_orchestrator.py:589-606 | the buffer is emptied into the table: stored rows followed by buffered rows remain all rows produced so far |
| MatchSaver.BufferInserts | app/worker/pipelines/matchdata_orchestrator.py:573-587 | every table's rows of a document are buffered or flushed, the same balance holds for the longer stream, and no buffer stays full |
| MatchSaver.FlushAll | app/worker/pipelines/matchdata_orchestrator.py:608-614 | afterwards no buffer holds a row and nothing produced is missing |
| MatchSave.Receive | app/worker/pipelines/matchdata_orchestrator.py:414-454 | after the loop and the last flush the tables hold all parsed rows and `stream_successes` exactly the streams delivered per id; it succeeds if and only if no stream raises, every document parses and no stop request is seen, unless eight commands have failed |
| MatchSave.SplitBatch | app/worker/pipelines/matchdata_orchestrator.py:456-465 | successful ids are exactly those with both streams, failed ids the others, both in batch order |
| MatchSave.PurgedMembers | database/clickhouse/operations/matchdata.py:17-34 | deleting for failed ids removes exactly this run's rows that name one of them, by id or numeric suffix |
| MatchSave.DeleteFailed | app/worker/pipelines/matchdata_orchestrator.py:505-524 | every one of the nineteen tables is purged, or a command has failed eight times and only this run's rows were touched |
| MatchSave.Rollback | app/worker/pipelines/matchdata_orchestrator.py:495-503 | a rollback restores every table to its state before the run, unless a command has failed eight times |
| MatchSave.Save | app/worker/pipelines/matchdata_orchestrator.py:400-493 | a save finishes if and only if no stream raises, every document parses and no stop request is seen, unless eight commands have failed; a finished one takes exactly the complete ids off the queue and keeps exactly the rows no failed id names; a rolled-back one leaves the tables as they were, and the queue too unless a removal took effect although it reported an error; in between other runs' rows are untouched |
| MatchQueue.Seed | database/clickhouse/operations/work_state.py:72-139 | seeding queues exactly the unseen ids and only then sets its anchor: at every crash point an anchored run has all its ids seeded, no id is queued twice, whatever was lost before, and no seeded id is forgotten or lost |
| MatchQueue.AnchoredIsKept | database/clickhouse/operations/work_state.py:94-137 | each kept match id of the run the seed anchor names is queued, or both its documents have been parsed and stored completely |
| MatchQueue.Loader.Load | app/worker/pipelines/matchdata_orchestrator.py:341-356 | seeds on the first load only and returns the claim of the current queue; it raises exactly if the batch size is not positive or a command failed |
| MatchQueue.Collect | app/services/riot_api_client/match_data.py:23-68 | a stream raises if and only if an id of the batch is on no platform, a request raises or a stop request is seen; otherwise it yields exactly the documents that the network sends, in spread order, and until then the first of them; an id on no platform raises before anything is fetched |
| MatchQueue.HarmlessKeeps | app/worker/pipelines/matchdata_orchestrator.py:414-493 | while a save has touched only its own run's rows, no seeded id is lost |
| MatchQueue.FinishedKeeps | app/worker/pipelines/matchdata_orchestrator.py:456-476 | after a finished save every seeded id that does not clash is still queued, or parsed and stored completely |
| MatchQueue.FinishedPersistedExactly | database/clickhouse/operations/matchdata.py:15-34 | provided a finished id has a document with a row under its numeric match id (`HasNumericRow`), a finished save stores it completely if and only if it does not share its suffix with a failed id of the batch |
| MatchQueue.ClashLosesRows | database/clickhouse/operations/matchdata.py:37-46 | a finished id that clashes has lost rows, under the same proviso |
| MatchQueue.NeverClashExactly | database/clickhouse/operations/matchdata.py:37-46 | known before the save: no delivery whatsoever makes the batch clash if and only if its ids have different suffixes |
| MatchQueue.TwoShardsLoseARow | database/clickhouse/operations/matchdata.py:12-46 | for the batch EUW1_7, NA1_7 with only the first delivered, a save without any fault finishes EUW1_7 and has deleted its only row |
| MatchQueue.DistinctSuffixesNeverClash | database/clickhouse/operations/matchdata.py:37-46 | a batch of ids with different suffixes cannot clash |
| MatchQueue.ProcessBatch | app/worker/pipelines/matchdata_orchestrator.py:319-322 | one batch is fetched and saved; it finishes if and only if neither stream fails, what arrives can be parsed and no stop request is seen, unless eight commands have failed, and succeeds as a whole if both documents of every id arrive; at every command each seeded id it may not lose is queued or stored and none is queued twice |
| MatchQueue.UnfinishedIsSafeExactly | app/worker/pipelines/matchdata_orchestrator.py:476-503 | after a save that did not finish nothing seeded is lost if and only if no removal took effect in spite of its error, or each id removed had been stored by an earlier run or is still stored by this one |
| MatchQueue.RolledBackIsSafeExactly | app/worker/pipelines/matchdata_orchestrator.py:476-503 | after a rollback that succeeded only earlier runs can have stored what was removed |
| MatchQueue.TornRemovalLosesAMatch | app/worker/pipelines/matchdata_orchestrator.py:476-503 | one queued match whose removal takes effect, reports an error and is followed by the rollback: afterwards it is neither queued nor stored |
| MatchQueue.Fetch | app/worker/pipelines/matchdata_orchestrator.py:319-321 | the documents saved are what `combine_streams` yields for the two collectors; unless a stream fails they are exactly those that the network sends for the batch |
| MatchQueue.BatchesNeededIsCeiling | app/worker/pipelines/matchdata_orchestrator.py:299-310 | taking b ids a batch, a queue of n takes ceil(n / b) batches |
| MatchQueue.BatchShrinks | app/worker/pipelines/matchdata_orchestrator.py:299-308 | a claim is empty only on an empty queue, and finishing a claim takes one batch off the number still needed |
| MatchQueue.NoneLossy | app/worker/pipelines/matchdata_orchestrator.py:294-329 | when the ids queued or to be seeded have different suffixes and no removal takes effect in spite of its error, no batch of any history may lose an id |
| MatchQueue.RunRound | app/worker/pipelines/matchdata_orchestrator.py:299-322 | one round of the loop: the claim of the loaded queue is empty, processed, or an exception ends it, each with the history it adds and what that keeps; without a failed command an exception means a batch that cannot be delivered |
| MatchQueue.Run | app/worker/pipelines/matchdata_orchestrator.py:294-329 | over the whole loop the history is one of claimed batches; at every point between commands no id is queued twice, and every id ever queued is still queued or stored completely unless a batch may lose it; the loop ends normally only on an empty queue, and when every claimed id succeeds it does so after exactly ceil(n / b) batches for the seeded queue of n, and cannot reach a greater limit; without a failed command it raises only for a stop request or a batch that cannot be delivered; and if moreover no stop is requested and both documents of every queued id arrive and parse, every batch succeeds, ceil(n / b) batches empty the queue, one more round ends the loop, and every id that was queued is stored completely |
| MatchQueue.RunLives | app/worker/pipelines/matchdata_orchestrator.py:294-329 | over any number of process lives, crashes included, on one database: only claimed batches and seeding happen; at every point no id is queued twice, no seeded id is forgotten, and each is queued or stored unless it is a finished id that clashes in its batch or was removed by a removal that reported an error; there is none when the ids have different suffixes and no removal takes effect in spite of its error; an anchored run has all its ids seeded |
| CycleSave.FirstByIdMeaning | app/worker/pipelines/matchids_orchestrator.py:98-115 | deduplication keeps no id twice and every kept pair is the first with its id |
| CycleSave.FirstByIdCovers | app/worker/pipelines/matchids_orchestrator.py:98-115 | deduplication keeps every id |
| CycleSave.DedupeBatch | app/worker/pipelines/matchids_orchestrator.py:101-115 | batch by batch with one `seen` set gives the same list as deduplicating the whole stream |
| CycleSave.StreamIds | database/clickhouse/operations/matchids.py:45-62 | it succeeds if and only if the crawl does not raise, no stop request is seen and no command fails; then exactly the deduplicated match ids of the stream are stored, in order, and the failed keys are those with an error item |
| CycleSave.WriteKeys | database/clickhouse/operations/matchids.py:167-202 | on success exactly the given keys are stored, in order |
| CycleSave.Save | app/worker/pipelines/matchids_orchestrator.py:196-245 | a completed cycle leaves exactly its match ids, its successful keys and its own anchor; a rolled-back one leaves the database as it was; every state in between can still be undone or is committed; it is rolled back only because the crawl raises, a stop request is seen or a command fails |
| CycleSave.CycleStateSound | app/worker/pipelines/matchids_orchestrator.py:202-245 | in every such state each anchor names a run whose match ids and successful keys are all present |
| CycleSave.NewestAnchor | database/clickhouse/operations/matchids.py:65-79 | in every such state the newest anchor is the previous one or the cycle's own |
| CycleWindows.BuildInitialPlayerStates | app/worker/pipelines/matchids_orchestrator.py:44-87 | a player's window starts at the anchor exactly when its puuid is recorded and the anchor is positive, else at 0 |
| CycleWindows.NewestMeaning | database/clickhouse/operations/matchids.py:65-98 | the loaded anchor is the one later than all others |
| CycleWindows.Load | app/worker/pipelines/matchids_orchestrator.py:133-150 | the windows loaded are those of the history the database shows |
| CycleWindows.CycleShows | app/worker/pipelines/matchids_orchestrator.py:196-245 | whatever state a cycle leaves, the database shows the history with that cycle committed or not at all |
| CycleWindows.RunCycle | app/worker/pipelines/matchids_orchestrator.py:117-129 | a whole cycle: windows from the history, and the next cycle starts from the history in which this one is committed or never happened; it is committed if the crawl does not raise, no stop request is seen and no command fails |
| CycleWindows.RunCycles | app/worker/pipelines/matchids_orchestrator.py:117-245 | over any sequence of cycles on one database, at every point between commands each anchor names a run with all the match ids and successful keys of its cycle's items; each cycle crawls the windows of the history before it; and the database then shows exactly the history of these cycles; without a failed command every cycle completes that is neither stopped nor broken off |
| CycleWindows.GapFreeExactly | app/worker/pipelines/matchids_orchestrator.py:54-64 | over any sequence of committed and undone cycles, every recorded player is covered from 0 to the anchor at all times if and only if no cycle resumes a key of which only the puuid is recorded |
| CycleWindows.OneQueueTypeSuffices | app/worker/pipelines/matchids_orchestrator.py:54-64 | with one queue type per puuid there is never a gap |
| CycleWindows.TwoQueueTypesLeaveAGap | app/worker/pipelines/matchids_orchestrator.py:204-208 | a failed key of a puuid recorded under another queue type resumes with a gap |
| CycleCrawl.DeliveredExactly | app/services/riot_api_client/match_ids.py:29-109 | whatever the schedule, an item is delivered to a cycle exactly if the crawl of one of its states delivers it |
| CycleCrawl.FailedExactly | app/worker/pipelines/matchids_orchestrator.py:157-180 | a player key counts as failed exactly if a page that the crawl of one of its states reaches is answered by a failure other than a 404 or by a body that is no list |
| CycleCrawl.StoredExactly | app/worker/pipelines/matchids_orchestrator.py:98-115 | a cycle is to store a match id exactly if a page that the crawl of one of its states reaches lists it |
| CycleCrawl.StoredUnderQueueType | app/worker/pipelines/matchids_orchestrator.py:157-180 | the queue type stored with a match id is that of a player for whom a reached page lists the id |
| CycleCrawl.RecordedExactly | app/worker/pipelines/matchids_orchestrator.py:133-212 | a committed cycle records exactly the players whose crawls of their windows reach no page that the server answers by an error |
| MetadataIndex.IndexActive | app/worker/pipelines/dynamic_metrics_pipeline.py:110-112 | the dictionary loop computes the specified table |
| MetadataIndex.IndexMeaning | app/worker/pipelines/dynamic_metrics_pipeline.py:110-112 | the table has exactly the ids of active items, each once, with the last active item of each id |
| MetadataIndex.GroupChildren | app/worker/pipelines/dynamic_metrics_pipeline.py:116-120 | the lists filled by `setdefault` are, for every parent, its active children in the snapshot's order |
| MetadataIndex.GroupAssignments | app/worker/pipelines/dynamic_metrics_pipeline.py:125-140 | for every group the actively assigned ids in order |
| GroupWalk.BranchList.Collect | app/worker/pipelines/dynamic_metrics_pipeline.py:180-198 | the recursive closure with its shared list computes the specified walk; it terminates on every snapshot because the groups off the path decrease |
| GroupWalk.CycleExactly | app/worker/pipelines/dynamic_metrics_pipeline.py:180-183 | the walk reports a cycle if and only if the selected group itself lies on a parent cycle, and the reported path starts and ends there |
| GroupWalk.BranchesAreDescendants | app/worker/pipelines/dynamic_metrics_pipeline.py:185-197 | without a cycle the branches are in one-to-one correspondence with the active descendants, in preorder; each path is duplicate-free and the parent chain from the selected group |
| GroupSnapshot.WalkExactly | app/worker/pipelines/dynamic_metrics_pipeline.py:110-198 | told by the list of groups alone: the walk's paths are exactly the parent chains that start at the selected group, parents being those of the last active definition of each id; in preorder, siblings in the order in which active groups with their ids first appear |
| MetricPlan.DeclaredMeaning | app/worker/pipelines/dynamic_metrics_pipeline.py:248-261 | a path declares exactly the active items assigned along it, each by its assigner closest to the leaf |
| MetricPlan.Inheritance | app/worker/pipelines/dynamic_metrics_pipeline.py:248-249 | a longer path declares whatever its prefix declares |
| MetricPlan.ResolveMembers | app/worker/pipelines/dynamic_metrics_pipeline.py:201-235 | the loops yield, branch after branch, the specified block of members |
| MetricPlan.ResolveMetrics | app/worker/pipelines/dynamic_metrics_pipeline.py:238-266 | the loops yield, branch after branch, the specified block of metrics |
| ExecutionPlan.BuildExecutionPlan | app/worker/pipelines/dynamic_metrics_pipeline.py:105-170 | the imperative resolver computes the specified plan or error |
| ExecutionPlan.PlanErrors | app/worker/pipelines/dynamic_metrics_pipeline.py:110-198 | there is no plan exactly when no active group has the selected id or following parents from it leads back to it |
| ExecutionPlan.PlanBranches | app/worker/pipelines/dynamic_metrics_pipeline.py:142-145 | a plan's branches are exactly the parent chains from the selected group down to their source, one for each active descendant, in preorder |
| ExecutionPlan.MetricBlockRows | app/worker/pipelines/dynamic_metrics_pipeline.py:246-261 | a row is in a branch's block exactly if it carries the branch's selected and source group, name, kind and aggregation are those of the metric's last active definition, and the metric is assigned along the path, closest to the leaf by `declaredBy` |
| ExecutionPlan.MetricBlockSorted | app/worker/pipelines/dynamic_metrics_pipeline.py:262-264 | within a block metric ids rise strictly |
| ExecutionPlan.PlanMetrics | app/worker/pipelines/dynamic_metrics_pipeline.py:151-162 | field by field: a row is in the plan exactly if it has the selected group and, for some branch, its source and one of its metrics; and exactly the dependencies of those metrics are listed |
| ExecutionPlan.PlanMetricsOrdered | app/worker/pipelines/dynamic_metrics_pipeline.py:246-266 | the metrics of a plan stand branch by branch, and within a branch by strictly rising id |
| ExecutionPlan.MemberBlockRows | app/worker/pipelines/dynamic_metrics_pipeline.py:207-235 | a row is in a branch's block exactly if it carries the branch's selected and source group, its attributes are those of the member's last active rule, its specificity is the number of attributes that are set, and the member is assigned along the path |
| ExecutionPlan.PlanMembers | app/worker/pipelines/dynamic_metrics_pipeline.py:146-150 | field by field: a row is in the plan exactly if it has the selected group and, for some branch, its source and one of its members |
| ExecutionPlan.PlanMembersOrdered | app/worker/pipelines/dynamic_metrics_pipeline.py:209-235 | the members of a plan stand branch by branch, and within a branch the more specific ones first, then by rising id |
| ExecutionPlan.MemberBlockSorted | app/worker/pipelines/dynamic_metrics_pipeline.py:228-233 | within a block no member repeats, more specific members come first, equally specific ones by id |
| ExecutionPlan.NarrowerFirst | app/worker/pipelines/dynamic_metrics_pipeline.py:228-277 | within a block a rule that fixes all another one fixes, and more, comes before it |
| ExecutionPlan.ChildInherits | app/worker/pipelines/dynamic_metrics_pipeline.py:209-264 | a branch has every metric id and member id of a branch it extends |
| RateLimiter.Limiter.Acquire | app/services/riot_api_client/rate_limiter.py:116-132 | the delay takes the caller to the next slot of the recurrence; earlier slots stay |
| RateLimiter.SlotIsMaximum | app/services/riot_api_client/rate_limiter.py:119-129 | slot n is the maximum over i <= n of arrival i plus (n - i) intervals |
| RateLimiter.SlotsEarliest | app/services/riot_api_client/rate_limiter.py:88-132 | the slots respect arrivals and spacing, and no schedule that does is earlier anywhere |
| RateLimiter.AtMostCallsPerPeriod | app/services/riot_api_client/rate_limiter.py:97-132 | any half-open window of one period holds at most `calls` slots |
| RateLimiter.Telemetry.RecordAndExport | app/services/riot_api_client/rate_limiter.py:170-178 | for non-decreasing times the deque is exactly the recorded times in (now - period, now], and the rate its size over the period |
| RateLimiter.RateWithinLimit | app/services/riot_api_client/rate_limiter.py:177-178 | with permits recorded at their slots the rate never exceeds calls per period |
| RateLimiter.PeriodAdvances | app/services/riot_api_client/rate_limiter.py:55-60 | moving the period start on by the whole periods elapsed gives the start of the period that holds the time, counted from the first permit |
| RateLimiter.DebugMetrics.Record | app/services/riot_api_client/rate_limiter.py:50-70 | the permits counted are exactly those since the start of the current period |
| SubElitePages.Probe | app/services/riot_api_client/subelite_players.py:46-90 | the loop computes the specified search and requests exactly its pages |
| SubElitePages.TenRequests | app/services/riot_api_client/subelite_players.py:52-55 | at most ten requests, exactly ten when every answer is a list |
| SubElitePages.ProbeFindsLastPage | app/services/riot_api_client/subelite_players.py:66-75 | without a 404 and with a prefix of non-empty pages the result is the last one, or 1 if there is none |
| SubElitePages.NeverOvershoots | app/services/riot_api_client/subelite_players.py:66-90 | however the probe ends, its result is 1 or at most the last non-empty page |
| SubElitePages.MissingPagesUnderestimate | app/services/riot_api_client/subelite_players.py:77-81 | with 404 answers past the last page n > 0 the result is n if and only if 1025 - n is a power of two |
| SubElitePages.SixHundredPagesLookLikeFewer | app/services/riot_api_client/subelite_players.py:77-81 | 600 pages followed by 404 answers give 513 after two requests |
| SubElitePages.Chunked | app/services/riot_api_client/utils.py:107-114 | the chunks concatenate to the input, all full but possibly the last; none for a size of 0 |
| SubElitePages.DiscoverPageBounds | app/services/riot_api_client/subelite_players.py:92-122 | the results are the bounds of the keys whose probe succeeds, in spread order |
| SubElitePages.RegionOrderKept | app/services/riot_api_client/subelite_players.py:92-101 | spreading the keys keeps the order of the keys of each region |
| SubElitePages.ExpandPages | app/services/riot_api_client/subelite_players.py:136-146 | the nested loops list pages 1 to the bound of every key |
| SubElitePages.PlanRequests | app/services/riot_api_client/subelite_players.py:129-160 | the batches permute the page jobs, keep the order within each region and hold at most 64 |
| SubElitePages.EveryPageOnce | app/services/riot_api_client/subelite_players.py:129-160 | each page up to the bound of a successfully probed key is requested exactly once, and nothing else |
| Timeline.NearestMinute | app/services/riot_api_client/parsers/timeline.py:37-43 | the frame timestamp is the closest whole minute, the later one of two; a time before 0 counts as 0 |
| Timeline.NearestMonotone | app/services/riot_api_client/parsers/timeline.py:37-43 | rounding keeps order and leaves whole minutes alone |
| Timeline.ParseEvents | app/services/riot_api_client/parsers/timeline.py:252-368 | the nested loops give one row for every wanted event, in timeline order |
| Timeline.ParseDamage | app/services/riot_api_client/parsers/timeline.py:371-416 | the damage rows are those of every champion kill in order, indexed within the kill |
| Timeline.StatsRowsExactly | app/services/riot_api_client/parsers/timeline.py:104-148 | the participant-statistics table has one row for every participant of every frame and no other |
| Timeline.ParseTimeline | app/services/riot_api_client/parsers/timeline.py:643-713 | an aborted game gives empty tables, an invalid payload an error, anything else the ten specified tables |
| Timeline.EventsPartitioned | app/services/riot_api_client/parsers/timeline.py:508-525 | the seven event tables together hold every event exactly as often as the timeline |
| Timeline.TypedTablesExactly | app/services/riot_api_client/parsers/timeline.py:252-284 | five tables hold exactly the events of their own type, each with its rounded frame and the match |
| Timeline.KillTableExactly | app/services/riot_api_client/parsers/timeline.py:322-368 | the champion-kill table holds exactly the champion kills, each under the id of its match, time, killer and victim |
| Timeline.PayloadTableExactly | app/services/riot_api_client/parsers/timeline.py:287-319 | the payload table holds exactly the events of all other types |
| Timeline.TablesSumToEvents | app/services/riot_api_client/parsers/timeline.py:678-693 | the sizes of the seven tables sum to the number of events |
| Timeline.DamageHasKill | app/services/riot_api_client/parsers/timeline.py:386-413 | every damage row has a champion-kill row with the same event id, timestamp and frame |
| Timeline.DamageDealtExactly | app/services/riot_api_client/parsers/timeline.py:371-428 | the table of damage dealt holds exactly the entries of `victimDamageDealt` of the champion kills, or of `victimTeamfightDamageDealt` where it is absent, with their index and the id, time and frame of the kill |
| Timeline.DamageReceivedExactly | app/services/riot_api_client/parsers/timeline.py:371-428 | likewise for damage received |
| Timeline.DamageKeysUnique | app/services/riot_api_client/parsers/timeline.py:392-414 | when no two kills share timestamp, killer and victim, event id and index identify a damage row |
| KillId.KillIdInjective | app/services/riot_api_client/parsers/timeline.py:46-53 | equal event ids come from equal match, timestamp, killer and victim |
| KillId.KillIdFormat | app/services/riot_api_client/parsers/timeline.py:46-53 | for instance match 12, time 305, killer 0 and victim -40 give 12:305:0:-40 |
| PerkKey.DecodeKey | app/services/riot_api_client/parsers/non_timeline.py:596-603 | with every selection below 2^14 the key decodes back to the selections |
| PerkKey.ComboDecodes | app/services/riot_api_client/parsers/non_timeline.py:596-603 | a participant's key decodes to the primary selections followed by the secondary ones if and only if all fit |
| PerkKey.ComboExample | app/services/riot_api_client/parsers/non_timeline.py:600-603 | primary a, b and secondary c give a + 2^14 b + 2^28 c |
| PerkKey.DecodesExactly | app/services/riot_api_client/parsers/non_timeline.py:596-603 | for any selections: the key decodes back to them if and only if each is below 2^14 |
| PerkKey.UnfitCollides | app/services/riot_api_client/parsers/non_timeline.py:600-603 | selections that do not fit share their key with other selections of the same number, if the key has no more digits |
| PerkKey.EncodeDigits | app/services/riot_api_client/parsers/non_timeline.py:600-603 | every number below 16384^n is the key of exactly its n digits |
| PerkKey.KeyBound | app/services/riot_api_client/parsers/non_timeline.py:600-603 | the key of n such selections is below 16384^n |
| PerkKey.KeyInjective | app/services/riot_api_client/parsers/non_timeline.py:596-603 | for fixed numbers of primary and secondary selections the key determines both |
| PerkKey.SixFitUInt128 | database/clickhouse/schema/3102_participant_perk_ids.sql:15-22 | six selections that fit their own columns have a key that fits its column |
| PerkKey.KeysCollide | app/services/riot_api_client/parsers/non_timeline.py:600-603 | a selection of 2^14, or a trailing selection of 0, makes keys collide |

## Left out

- MatchQueue.Run: the loop has a limit on its batches, because an id that fails every time is claimed again forever; when every claimed id succeeds, no limit above ceil(n / b) is ever reached.
- MatchQueue.Collect: how many of the requests of one chunk run at a time is left out; a chunk with a request that raises yields none of its documents.
- MatchSaver.InsertOne: with retries a row may be stored more than once, so at least once is stated; exactly once holds only without a failed attempt.
- MatchSaver.FlushAll: the order in which tables are flushed is arbitrary.
- MatchStore.ExtractNumeric: digits are the ASCII digits.
- ClaimQueue.ContinentExactly: ids are lowered as ASCII.
- ClaimOrder.ClaimInOrder: the queue holds no id twice, which is proved for every reachable queue (`MatchQueue.RunLives`); `ClaimQueue.ClaimIsSpread` has no such condition.
- CycleSave.Save: retrying a delete for ever is a bounded number of attempts, after which the process counts as killed.
- CycleWindows.RunCycle: the items of the crawl are a parameter; `CycleCrawl` says what they are when a pool has crawled the states. A crawl of one window asks for at most ten pages of ids (`Crawl.TenPages`), so a window with more ids is covered in time but not in ids.
- CrawlRuns.PoolCorrect: cancelling workers when the consumer is closed early, and exceptions of the queue itself, are not modelled.
- CombineStreams.Combine: pumps that fail or are cancelled are not modelled; a failing stream may end the merge at any moment.
- RateLimiter.Telemetry.RecordAndExport: times do not decrease, because they are read from a monotonic clock right before being recorded; sleeping past a slot, locks and float rounding are left out.
- GroupWalk.BranchList.Collect: the text of the cycle error is its path, and the recursion limit of the interpreter is left out.
- MetricPlan.ResolveMembers: metric kinds and aggregations are strings.
- SubElitePages.Probe: the answer to a page does not change during a probe; building URLs is left out.
- Timeline.ParseTimeline: validation and the test for an aborted game are parameters; flattening positions, defaulting assist lists and the columns of the participant statistics only copy fields.
- PerkKey.DecodeKey: the other columns of the perk row only copy fields.
- HTTP sessions, back-off timing, logging, metrics export, Prefect, Docker and shell scripts.
- Asynchronous mutations, merging and ties in `argMax` inside ClickHouse.
- Ids found by a finished cycle that is superseded before it is seeded: the no-loss statement starts at seeding.
- Tier bounds, flush intervals and clamping: settled by reading one branch.
- The SQL views and the metric catalogues: flat expressions that would only add easy members.
