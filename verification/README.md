# Apache Arrow Ballista: a verified model

Ballista runs a DataFusion query on a cluster. A scheduler cuts the physical plan into stages at
its exchanges, executors run the tasks of a stage and leave shuffle files, and later stages read
those files. This project models that path, and the protocols around it, and proves what they
promise.

**From query to result** (`Plans`, `Planner`, `StageStructure`, `Semantics`, `StageCorrectness`,
`TaskResults`, `Shuffle`, `Exchange`, `ShuffleReading`, `Resolution`, `QueryExecution`, `JobProgress`,
`ResultBags`, `StageSchemas`, `Repartitions`, `TaskIndependence`, `LimitExample`).
The meaning of a plan is a relation between a plan and the tables (one sequence of rows per
partition) it may produce: operators other than exchanges are arbitrary relations, exchanges
have their own meaning. The stages, evaluated as wholes, are shown to have exactly the results of
the query; the scheduler's rewriting of references into readers, the file names, the writers, the
reported locations and the readers are then put underneath, and every task evaluates the plan of its
stage on its own, fetching its files in an order of its own. What the cluster computes then is this:

- for operators that ignore row order, the rows of the query in each partition, whatever the
  executors and the orders of stages, tasks and fetches (`ResultBags.ClusterComputesTheSameBags`,
  `Repartitions.ClusterComputesTheHarmlessBags`);
- for all operators, a result of the query, if the partitions that different tasks compute fit
  together in every stage (`QueryExecution.ClusterComputesTheQuery`), as they do if the operators work
  partition by partition (`TaskIndependence.ClusterComputesLocalQueries`);
- otherwise not always: `LimitExample.LimitIsEvaluatedTwice` is a query with a limit that two tasks
  evaluate differently, and `TaskIndependence.ClusterComputesTheQueryIff` says for which queries this
  can happen.

`JobProgress.JobCanFinish` says that executions exist for every query whose operators have results,
and `Repartitions` says which of the repartitions that the planner drops can be dropped.

**Loading cache** (`LoadingCache`, `CacheProtocol`, `CacheHistory`, `CacheGetters`). The driver's
operations as classes; then a state machine over get, put, invalidate, load, delivery, cancellation and
eviction, with an invariant over every interleaving and theorems about whole runs: what is cached, what
a get returns and why it fails.

**Consistent hash ring** (`KeyOrder`, `ConsistentHash.dfy`, `RingLookup`). The ring as a map of
virtual nodes, the lookup as a scan of two chained ranges, and how additions and removals move keys.

**Scheduler state** (`JobState`, `TaskSlots`, `StageFetching`, `SlotBinding`). The in-memory and the
key-value job state as a simulation, the shared record of task slots under locks, and round-robin
binding of the tasks of a job's stages.

**Executor and display** (`DirectoryTtl`, `PlanDisplay`). Cleaning up old shuffle directories, and
printing a plan with the metrics of its operators.

## Modelling choices

- Rows are opaque. The hash of a row is a function of the engine; a batch is a sequence of rows and
  a file holds the rows written to it.
- Every work directory belongs to one executor, so paths are in one name space.
- The reader sorts and then shuffles its locations at random, anew in every task: the model lets each
  task fetch in an order of its own.
- `with_new_children_if_necessary` belongs to DataFusion. The model lets it consult the node, so an
  unresolved shuffle refuses it.
- The planner deletes repartitions other than by hash (`ballista/scheduler/src/planner.rs:146-149`).
  The theorems about results speak of the query without them (`Semantics.Stripped`).
  `Semantics.StrippedIsIdentityIff` says when that is the query itself,
  `Repartitions.StagesComputeTheHarmlessQuery` when it has the same results, and
  `Repartitions.DroppingKeepsResultsIff` when dropping one at the root changes them.
- Hashing rows to no partitions is undefined in the code (a remainder by zero), so a writer with such
  a partitioning is only run on inputs without rows.
- The documentation says that cancelling a `get` does not cancel the loader. The code keeps that
  promise exactly as long as no put and no invalidation has displaced the load: see
  `CacheHistory.CancelKillsIff` and `CacheHistory.DisplacedOwnerTakesLoadDown`.
- In the cache protocol, storing a loaded value and passing it on to waiting getters are two steps.
  The code does them in one poll, so the model has more interleavings than the code.
- A load looks at its side channel first whenever it is polled
  (`ballista/cache/src/loading_cache/driver.rs:251-269`), so a displaced load still submits a value only
  within a poll that began before it was displaced. The model lets it submit at any later time. What is
  proved of all runs holds of those of the code; `CacheHistory.WrappedTagPopulates` needs a poll during
  which 2^64 loads are started.
- The tag counter of the cache wraps at 2^64, as in the code. The invariant and the origin of cached
  values are proved without any assumption on tags; `CacheHistory.DisplacedStoresIff` says exactly
  when a wrapped tag lets a displaced load store its value. Theorems that need tags to be fresh say
  so, `CacheHistory.TagsSuffice` says when they are, and `CacheHistory.WrappedTagPopulates` shows that
  its bound is tight.
- Nothing is assumed of the hash of the ring. That additions fit, so that no id hashes to where
  another node's virtual node is, is a condition on the ids in use (`ConsistentHashing.AllFit`), and
  `ConsistentHashing.AlwaysCompleteIff` shows that it is the exact one.
- `get_position_key` computes the size of the ring minus one, so a lookup needs a virtual node as
  soon as there is a node. `ConsistentHashing.NotEmptyIff`, `ConsistentHashing.RemoveEmptiesIff` and
  `ConsistentHashing.AddEmptyIff` say when there is one.
- Each operation of the in-memory job state is one step, although it touches several maps.
- Jobs and stages are kept in hash maps. The lists of `StageFetching` and `SlotBinding` stand for the
  order in which a map happens to hold them; the theorems are about every such list.
- A bind of tasks is any function of the record it reads that takes as many slots of the admitted
  executors as there are tasks, or all of them (`TaskSlots.Valid`). A task list that is empty, or a filter
  that admits nobody, makes it one that never writes.
- Clocks and times are parameters.

## Model

| member | source | states |
|---|---|---|
| `Plans.FindsExactly` | ballista/scheduler/src/planner.rs:186-203 | the search finds exactly the unresolved shuffles that occur anywhere in the plan |
| `Plans.FindUnresolvedIn` | ballista/scheduler/src/planner.rs:186-203 | an unresolved shuffle is found in a forest if and only if it is found in one of its trees |
| `Planner.DistributedPlanner.constructor` | ballista/scheduler/src/planner.rs:40-54 | numbering starts at zero |
| `Planner.DistributedPlanner.NextStageId` | ballista/scheduler/src/planner.rs:166-169 | stage numbers count up by one |
| `Planner.DistributedPlanner.PlanQueryStagesInternal` | ballista/scheduler/src/planner.rs:80-163 | the recursive pass with its counter and its loop over children computes the cut of the plan, failures included, and leaves the counter at the number the cut ends with |
| `Planner.DistributedPlanner.PlanQueryStages` | ballista/scheduler/src/planner.rs:60-75 | the stages are those of the cut with the final writer last |
| `StageStructure.CutSucceedsIff` | ballista/scheduler/src/planner.rs:151-157 | cutting succeeds if and only if the plan has no window aggregate |
| `StageStructure.FailureNamesWindow` | ballista/scheduler/src/planner.rs:151-157 | the window aggregate that a failure names is one of the plan |
| `StageStructure.CutIsGood` | ballista/scheduler/src/planner.rs:80-163 | for every query the cut numbers its stages consecutively, one per exchange, links every reference to an earlier stage and reads each stage once |
| `StageStructure.StagesAreWellStructured` | ballista/scheduler/src/planner.rs:60-163 | planning succeeds if and only if there is no window aggregate; then there is one stage per exchange plus one, numbered in list order, each reference names an earlier stage with that stage's schema and partition count, every stage but the last is read exactly once and the last never, no stage holds a repartition and every coalesce or merge sits on a reference |
| `Semantics.StrippedIsIdentityIff` | ballista/scheduler/src/planner.rs:131-149 | dropping repartitions leaves a plan as it is if and only if it repartitions by hash only |
| `Semantics.ExchangeIsSound` | ballista/scheduler/src/planner.rs:99-145 | reference and pushed-out stage together do to the input what the exchange does |
| `Semantics.CutIsSound` | ballista/scheduler/src/planner.rs:80-163 | every result of what stays behind, given any run of the pushed-out stages, is a result of the query |
| `StageCorrectness.CutIsComplete` | ballista/scheduler/src/planner.rs:80-163 | every result of the query is reached by some run of the stages |
| `StageCorrectness.StagesComputeTheQuery` | ballista/scheduler/src/planner.rs:60-163 | a table is a possible result of the query, non-hash repartitions left aside, if and only if some run of its stages ends with it |
| `StageCorrectness.StagesComputeTheHashQuery` | ballista/scheduler/src/planner.rs:60-163 | for queries that repartition by hash only, running the stages and evaluating the query have the same possible results |
| `Shuffle.HashPathInjective` | ballista/core/src/execution_plans/shuffle_writer.rs:263-269 | two hash files of one stage directory have different paths unless output and input partition agree |
| `Shuffle.PlainPathInjective` | ballista/core/src/execution_plans/shuffle_writer.rs:192-197 | the same for writing without repartitioning |
| `Shuffle.StageDirInjective` | ballista/core/src/execution_plans/shuffle_writer.rs:179-181 | the directories of two stages of a job differ, and so do those of two jobs in one working directory |
| `Shuffle.FilesAreInJobDir` | ballista/executor/src/executor_server.rs:751-783 | all files of a job are in the directory that removing the job's data removes |
| `Shuffle.WriteStreamToDisk` | ballista/core/src/utils.rs:75-115 | succeeds if and only if the stream does, and then the file holds all rows in order and the statistics count them and their batches |
| `Shuffle.TrackerStep` | ballista/core/src/execution_plans/shuffle_writer.rs:251-297 | one more batch is one more entry of the writer's history, whether the writer exists or is opened for it |
| `Shuffle.WriteBatch` | ballista/core/src/execution_plans/shuffle_writer.rs:246-298 | after a batch the writer of every partition holds exactly the rows of all batches so far that hash to it |
| `Shuffle.FinishWriters` | ballista/core/src/execution_plans/shuffle_writer.rs:300-329 | exactly the partitions that got a row are reported, in ascending order, each with its row and batch counts and a file with its rows |
| `Shuffle.ExecuteShuffleWrite` | ballista/core/src/execution_plans/shuffle_writer.rs:174-336 | a task succeeds if and only if its input does and the partitioning is none or by hash; its files and its report then hold every input row once, in the partition it belongs to |
| `Shuffle.RowsToMultiplicity` | ballista/core/src/execution_plans/shuffle_writer.rs:241-253 | a partition has a row as often as the input if the row hashes to it, and not at all otherwise |
| `Shuffle.RowsGoByHash` | ballista/core/src/execution_plans/shuffle_writer.rs:241-252 | a row goes to the partition that the remainder of its hash by the number of partitions says, and to no other |
| `Shuffle.RowsToKeepsOrder` | ballista/core/src/execution_plans/shuffle_writer.rs:247-292 | the rows of a partition stand in its file in the order they came |
| `Shuffle.BatchesToCounts` | ballista/core/src/execution_plans/shuffle_writer.rs:247-292 | the reported number of batches is the number of batches with a row for the partition |
| `Exchange.AddAllAt` | ballista/scheduler/src/state/execution_graph/execution_stage.rs:1203-1215 | collecting a task's report adds one location to each partition it reports, with the task's input and executor and the reported path, rows and batches, and touches no other partition |
| `Exchange.CollectLocations` | ballista/scheduler/src/state/execution_graph.rs:1657-1683 | the loop over a report adds exactly these locations, one at the end of each reported partition |
| `Exchange.TaskPathInjective` | ballista/core/src/execution_plans/shuffle_writer.rs:179-269 | no two pairs of input and output partition of a stage share a file |
| `Exchange.RunTasks` | ballista/core/src/execution_plans/shuffle_writer.rs:174-336 | in whatever order the tasks of a stage finish, it succeeds if and only if every task does, and then every partition has one location, with its rows, for each task that wrote to it and none for the others; every location names the input and the executor of the task it comes from, that task's file for the partition, and how many rows and batches went there |
| `ShuffleReading.OfExecutorKeepsOrder` | ballista/core/src/execution_plans/shuffle_reader.rs:146-152 | the group of an executor keeps the order of its locations |
| `ShuffleReading.GroupByExecutor` | ballista/core/src/execution_plans/shuffle_reader.rs:146-153 | every location is in a group, and a group holds the locations of its executor in their order |
| `ShuffleReading.Ungroup` | ballista/core/src/execution_plans/shuffle_reader.rs:154-161 | taking the groups apart again gives back the locations, none lost and none twice |
| `ShuffleReading.SendFetchPartitions` | ballista/core/src/execution_plans/shuffle_reader.rs:279-324 | each location is fetched exactly once: the local ones by one task, every remote one by a task of its own |
| `ShuffleReading.SplitByLocality` | ballista/core/src/execution_plans/shuffle_reader.rs:286-288 | the two lists hold every location once, split by the test |
| `ShuffleReading.FetchedAll` | ballista/core/src/execution_plans/shuffle_reader.rs:136-171 | fetching one file per contributing input partition, in any order, gives exactly the rows of the output partition |
| `ShuffleReading.PlainReadBack` | ballista/core/src/execution_plans/shuffle_writer.rs:192-231 | without repartitioning each partition has one location and is read in the order it was written |
| `ShuffleReading.HashReadBack` | ballista/core/src/execution_plans/shuffle_writer.rs:233-329 | with hash partitioning a reader of partition q gets exactly the rows that hash to q, over all tasks |
| `ShuffleReading.WrittenIsReadable` | ballista/core/src/execution_plans/shuffle_reader.rs:136-171 | what readers get from a finished stage is what its exchange promises |
| `Resolution.CollectRelevant` | ballista/scheduler/src/planner.rs:225-231 | every partition of the input gets its list of locations, a partition nobody wrote an empty one |
| `Resolution.RemoveUnresolvedShuffles` | ballista/scheduler/src/planner.rs:205-255 | the loop computes the resolved plan, or the first failure |
| `Resolution.RollbackResolvedShuffles` | ballista/scheduler/src/planner.rs:260-283 | the loop computes the plan with readers turned back into references |
| `Resolution.ResolveSucceedsIff` | ballista/scheduler/src/planner.rs:205-255 | resolving succeeds if and only if the plan is not itself a reference and the location map has every stage it reads |
| `Resolution.RoundTrip` | ballista/scheduler/src/planner.rs:205-283 | resolving leaves no reference behind, and rolling back gives back the stage, whatever locations were used |
| `Resolution.ResolveKeepsShape` | ballista/scheduler/src/planner.rs:205-255 | resolving keeps schema and partition count |
| `QueryExecution.ResolvedMeansTheSame` | ballista/scheduler/src/planner.rs:205-255 | a resolved stage reading files produces only what the stage with references to those outputs produces |
| `QueryExecution.FileOfOneStage` | ballista/core/src/execution_plans/shuffle_writer.rs:179-181 | no path belongs to two stages of a job |
| `QueryExecution.ExecutionIsConsistent` | ballista/scheduler/src/state/execution_graph/execution_stage.rs:336-351 | in whatever order the stages of a query run, each task evaluating its stage on its own, after every stage the locations, files and outputs agree for all stages so far, and each output is what the tasks of the stage may write given the outputs it reads |
| `QueryExecution.AllHaveRun` | ballista/scheduler/src/state/execution_graph/execution_stage.rs:336-351 | when the last stage has run, all have, because a stage is resolved only after the stages it reads |
| `QueryExecution.NextStageResolves` | ballista/scheduler/src/state/execution_graph/execution_stage.rs:336-350 | a stage whose inputs have run can always be resolved |
| `QueryExecution.ClusterComputesTheQuery` | ballista/scheduler/src/planner.rs:60-255 | for every query without window aggregate whose stages each have at most one task or put together partitions of different results, what the last stage writes is a possible result of the query, whatever the executors, the orders of stages and tasks, and the order of fetches in each task |
| `JobProgress.RunStage` | ballista/core/src/execution_plans/shuffle_writer.rs:174-336 | running the tasks of a resolved stage, each on an evaluation of its own, is an execution of it in the sense of that theorem, and succeeds if and only if the input of every task does; every location comes from one of the tasks |
| `JobProgress.StageCanRun` | ballista/scheduler/src/state/execution_graph/execution_stage.rs:336-351 | every table that the tasks of a resolved stage may write has an execution that writes it |
| `JobProgress.JobCanFinish` | ballista/scheduler/src/planner.rs:60-255 | every query that can be planned, over operators that have results, has an execution to its last stage, which writes a result of the query |
| `ResultBags.ResultsAreUnique` | ballista/scheduler/src/planner.rs:60-163 | if operators ignore row order, all results of a query hold the same rows in each partition |
| `ResultBags.TasksKeepBags` | ballista/core/src/execution_plans/shuffle_writer.rs:174-189 | if operators ignore row order, what the tasks of a stage write, each from its own evaluation on inputs with the same rows, has the rows of the stage evaluated as a whole |
| `ResultBags.StagesKeepBags` | ballista/core/src/execution_plans/shuffle_reader.rs:136-171 | so do all stages of a query, one reading what another wrote |
| `ResultBags.ClusterComputesTheSameBags` | ballista/scheduler/src/planner.rs:60-255 | if operators ignore row order, the cluster's result has, partition by partition, the rows of the query evaluated in one process, whatever each task fetched in which order |
| `ResultBags.RoundRobinIsDropped` | ballista/scheduler/src/planner.rs:146-149 | a query with a round-robin repartition has a result that no run of its stages has |
| `Repartitions.SameEitherWay` | ballista/scheduler/src/planner.rs:146-149 | a query whose dropped repartitions are harmless (below a coalesce or a repartition, or from one bag of rows to one bag) and what the planner leaves of it have the same results |
| `Repartitions.StagesComputeTheHarmlessQuery` | ballista/scheduler/src/planner.rs:60-163 | for such queries, running the stages and evaluating the query have the same possible results |
| `Repartitions.DroppingKeepsResultsIff` | ballista/scheduler/src/planner.rs:146-149 | for a repartition other than by hash at the root of any query that otherwise repartitions by hash: the stages have the results of the query, for all operators, if and only if it is to one partition and its input is one bag of rows |
| `Repartitions.ClusterComputesTheHarmlessBags` | ballista/scheduler/src/planner.rs:60-255 | for queries with harmless repartitions, and operators that ignore row order, the cluster's result has, partition by partition, the rows of the query evaluated in one process |
| `TaskResults.Spliced` | ballista/core/src/execution_plans/shuffle_writer.rs:174-189 | if the operators of a stage are partition-local, one partition of a result may be replaced by that of another result |
| `TaskResults.TaskWiseIsResult` | ballista/core/src/execution_plans/shuffle_writer.rs:174-189 | then, or if there is at most one task, what the tasks write one by one is a result of the stage |
| `TaskIndependence.ClusterComputesLocalQueries` | ballista/scheduler/src/planner.rs:60-255 | for every query whose operators are partition-local, what the last stage writes is a possible result of the query |
| `TaskIndependence.TasksStayMixed` | ballista/core/src/execution_plans/shuffle_writer.rs:174-189 | with an engine that marks tables put together from different results, a stage that reads one writes one |
| `TaskIndependence.ClusterCanMix` | ballista/core/src/execution_plans/shuffle_reader.rs:136-171 | if a stage with two tasks or more is more than a reference, an execution of the query ends with such a table |
| `TaskIndependence.ClusterComputesTheQueryIff` | ballista/core/src/execution_plans/shuffle_reader.rs:136-171 | with at least one partition everywhere, the last stage always writes a result of the query, for all operators, if and only if every stage has at most one task or does nothing but read another stage |
| `LimitExample.LimitIsEvaluatedTwice` | ballista/core/src/execution_plans/shuffle_reader.rs:136-171 | an execution of a scan of two partitions, coalesced, limited to one row and copied to two partitions, that ends with two different rows, which is no result of the query |
| `ResultBags.CutKeepsShape` | ballista/scheduler/src/planner.rs:80-163 | what stays behind has the schema and partition count of the query, dropped repartitions aside |
| `StageSchemas.SchemaOfOrigin` | ballista/core/src/execution_plans/shuffle_writer.rs:362-364 | the schema of a query is the one of the first operator below its exchanges |
| `StageSchemas.ReferencesCarryCatalogSchemas` | ballista/scheduler/src/planner.rs:172-183 | every reference in the stages of a query carries the schema of the operator that the columns of some exchange of the query come from |
| `LoadingCache.TagAfter` | ballista/cache/src/loading_cache/driver.rs:317-325 | tags count up modulo 2^64 |
| `LoadingCache.CacheState.NextLoaderTag` | ballista/cache/src/loading_cache/driver.rs:317-325 | hands out the current tag and steps the counter with wrap-around, leaving cache and loaders alone |
| `LoadingCache.CacheState.LookupOrStart` | ballista/cache/src/loading_cache/driver.rs:87-137 | a hit changes nothing, a running loader is joined, otherwise a loader with a new tag is registered |
| `LoadingCache.CacheState.PutEntry` | ballista/cache/src/loading_cache/driver.rs:140-167 | stores the value and takes any loader for the key out of the map, touching no other key |
| `LoadingCache.CacheState.InvalidateEntry` | ballista/cache/src/loading_cache/driver.rs:169-177 | removes the value and the loader of the key, touching no other key |
| `LoadingCache.ResultSubmitter.Submit` | ballista/cache/src/loading_cache/driver.rs:403-410 | stores the value if and only if the submitter's tag is still the registered one |
| `LoadingCache.ResultSubmitter.Finalize` | ballista/cache/src/loading_cache/driver.rs:412-438 | takes effect once, and only while in charge |
| `LoadingCache.ResultSubmitter.Drop` | ballista/cache/src/loading_cache/driver.rs:440-450 | dropping a submitter that never submitted takes its loader out of the map, if it is still the registered one, and stores nothing; dropping any other does nothing |
| `LoadingCache.CancellationSafeFuture.Poll` | ballista/cache/src/loading_cache/cancellation_safe_future.rs:93-111 | the future counts as done exactly once the inner one is ready |
| `LoadingCache.CancellationSafeFuture.Drop` | ballista/cache/src/loading_cache/cancellation_safe_future.rs:52-73 | a dropped future goes on in the background if and only if it is not done and somebody else holds the handle |
| `CacheProtocol.InChargeIsRegistered` | ballista/cache/src/loading_cache/driver.rs:412-438 | with tags apart, a running load whose tag is in the map is the load that is registered |
| `CacheProtocol.InvNext` | ballista/cache/src/loading_cache/driver.rs:87-177 | every step of every getter, loader, put, invalidation, cancellation and eviction keeps the invariant |
| `CacheProtocol.InvAlways` | ballista/cache/src/loading_cache/driver.rs:87-177 | in every state of every run, whatever becomes of the tags, registered loads are running and reachable, drivers drive what they own and getters hold what their load produced |
| `CacheProtocol.SoundAlways` | ballista/cache/src/loading_cache/driver.rs:309-325 | if live tags do not clash, the tags of running loads of a key differ in every state |
| `CacheHistory.TagsSuffice` | ballista/cache/src/loading_cache/driver.rs:309-325 | tags cannot clash in a run with at most 2^64 loads |
| `CacheHistory.LatestWrite` | ballista/cache/src/loading_cache/driver.rs:140-177 | a cached value is that of the latest step that touched its key |
| `CacheGetters.CachedNext` | ballista/cache/src/loading_cache/driver.rs:140-177 | a step caches what it writes, drops what it displaces or evicts, and keeps the value of every other key |
| `CacheGetters.CachedIff` | ballista/cache/src/loading_cache/driver.rs:140-177 | in every run, a key is cached with a value if and only if a put or a registered load wrote that value and nothing touched or evicted the key since |
| `CacheHistory.DisplacedStoresIff` | ballista/cache/src/loading_cache/driver.rs:412-438 | in every run, a displaced load that finishes stores its value if and only if the load registered for its key then was started a multiple of 2^64 loads away from it |
| `CacheHistory.DisplacedNeverStores` | ballista/cache/src/loading_cache/driver.rs:412-438 | with tags that do not clash, a displaced load that finishes leaves the cache as it is |
| `CacheHistory.CachedValueOrigin` | ballista/cache/src/loading_cache/driver.rs:140-177 | in every run, a cached value comes from a put, from a load started after the last put and the last invalidation before it finished, or from a displaced load whose tag has been given out again; nothing has touched the key since |
| `CacheHistory.ResultOrigin` | ballista/cache/src/loading_cache/driver.rs:226-275 | the result of a load is the value it stored while registered, or the value of the put that displaced it |
| `CacheHistory.SharedLoadSharedValue` | ballista/cache/src/loading_cache/driver.rs:94-137 | all getters that share a load return the same value, with that origin |
| `CacheGetters.WaitsForItsKey` | ballista/cache/src/loading_cache/driver.rs:94-137 | in every run, a get that misses waits for the load that is registered for its key |
| `CacheGetters.KeepsItsLoad` | ballista/cache/src/loading_cache/driver.rs:94-137 | in every later state the load that the getter waits for, was served by or failed with is that load, of that key |
| `CacheGetters.MissReturns` | ballista/cache/src/loading_cache/driver.rs:94-137 | in every run, what a get that missed returns was put for its key, or was the result of a load of its key, after the get asked |
| `CacheGetters.HitReturns` | ballista/cache/src/loading_cache/driver.rs:87-103 | what a get that hit returns is what was cached for its key when it asked |
| `CacheGetters.SubmitsOnce` | ballista/cache/src/loading_cache/driver.rs:226-275 | in every run, the loader of a load finishes at most once |
| `CacheGetters.LoadGetsThrough` | ballista/cache/src/loading_cache/driver.rs:226-275 | a registered load can finish with any value, and every getter that waits for it can then return that value |
| `CacheGetters.PutGetsThrough` | ballista/cache/src/loading_cache/driver.rs:140-165 | a put can be delivered to the registered load of its key, and every getter that waits for it can then return the value of the put |
| `CacheHistory.GetterFailsOnlyIfDisplaced` | ballista/cache/src/loading_cache/driver.rs:94-137 | a getter fails only if a put or an invalidation displaced its load |
| `CacheHistory.DisplacedGetterResult` | ballista/cache/src/loading_cache/driver.rs:226-275 | a getter whose load was displaced while it waited returns the value of the put, unless it was an invalidation or the owner of the load was cancelled after that while the load was not over; then it fails |
| `CacheHistory.GetterFailsIff` | ballista/cache/src/loading_cache/driver.rs:94-137 | in every run, a getter that returns fails if and only if before that its load was displaced by an invalidation, or by a put after which the owner of the load was cancelled while the load was not over |
| `CacheHistory.CancellationIsSafe` | ballista/cache/src/loading_cache/cancellation_safe_future.rs:52-73 | in every run, cancelling any getter leaves a registered load registered, loading, and able to finish and store its value |
| `CacheHistory.RegisteredIff` | ballista/cache/src/loading_cache/driver.rs:140-177 | a load that is not over is registered if and only if no put and no invalidation of its key came after its start |
| `CacheHistory.CancelKillsIff` | ballista/cache/src/loading_cache/cancellation_safe_future.rs:57-72 | in every run, cancelling a getter kills a load if and only if the getter started it and a put or an invalidation of its key came in between |
| `CacheHistory.DisplacedOwnerTakesLoadDown` | ballista/cache/src/loading_cache/cancellation_safe_future.rs:57-72 | a run in which a put displaces a load, its owner is cancelled and the other getter fails |
| `CacheHistory.WrappedTagPopulates` | ballista/cache/src/loading_cache/driver.rs:317-325 | a run with 2^64 + 1 loads, one more than always suffices, in which a load that was invalidated populates the cache |
| `KeyOrder.LessIff` | ballista/core/src/consistent_hash/mod.rs:30-36 | keys are ordered by the first byte in which they differ, a prefix before what it is a prefix of |
| `KeyOrder.AscendingListsAll` | ballista/core/src/consistent_hash/mod.rs:30-36 | the ordered map lists every key once, in ascending order |
| `KeyOrder.ClockwiseVisitsAll` | ballista/core/src/consistent_hash/mod.rs:140-169 | going clockwise from any point visits every key exactly once |
| `KeyOrder.ClockwisePassed` | ballista/core/src/consistent_hash/mod.rs:140-169 | the keys before the j-th one clockwise are those that lie between the start and it |
| `ConsistentHashing.VnodeIdInjective` | ballista/core/src/consistent_hash/mod.rs:85-87 | the id of a virtual node determines name and replica, even if names contain colons |
| `ConsistentHashing.AlwaysRegistered` | ballista/core/src/consistent_hash/mod.rs:81-138 | for every hash function and every sequence of changes, each virtual node names a registered node and sits at the hash of one of its ids |
| `ConsistentHashing.RemovesItsOwnIff` | ballista/core/src/consistent_hash/mod.rs:95-106 | removing a node takes away its own virtual nodes and nothing else if and only if its ids fit |
| `ConsistentHashing.AddIsCompleteIff` | ballista/core/src/consistent_hash/mod.rs:81-93 | a ring with every replica in its place stays so with a node added if and only if the node's ids fit |
| `ConsistentHashing.AlwaysCompleteIff` | ballista/core/src/consistent_hash/mod.rs:81-106 | for every hash, every replica of every registered node is on the ring all along a sequence of changes if and only if every addition fits |
| `ConsistentHashing.ApartMeansAllFit` | ballista/core/src/consistent_hash/mod.rs:85-93 | additions fit if the hash tells the ids in use apart, whatever it does to other strings |
| `ConsistentHashing.SameNodesSameRing` | ballista/core/src/consistent_hash/mod.rs:81-106 | a ring with every replica in its place is determined by its nodes, however it came about |
| `ConsistentHashing.RemoveAddRestoresIff` | ballista/core/src/consistent_hash/mod.rs:81-106 | for every hash, removing a node and adding it back with its replicas restores the ring if and only if all its replicas were on it |
| `ConsistentHashing.AddRemoveRestoresIff` | ballista/core/src/consistent_hash/mod.rs:81-106 | for every hash, adding a new node and removing it again restores the ring if and only if its ids fit |
| `ConsistentHashing.NotEmptyIff` | ballista/core/src/consistent_hash/mod.rs:140-147 | a ring with every replica in its place has a virtual node if and only if some node has a replica |
| `ConsistentHashing.RemoveEmptiesIff` | ballista/core/src/consistent_hash/mod.rs:95-106 | for every hash, removing a node empties the ring if and only if every virtual node is at one of its ids |
| `ConsistentHashing.AddEmptyIff` | ballista/core/src/consistent_hash/mod.rs:81-93 | for every hash, a ring is empty after an addition if and only if nothing was added to an empty one |
| `ConsistentHashing.CollisionEmptiesRing` | ballista/core/src/consistent_hash/mod.rs:95-106 | for any two nodes whose only ids collide, adding both and removing the second leaves the first registered and the ring empty |
| `RingLookup.ScanFindsFirst` | ballista/core/src/consistent_hash/mod.rs:148-168 | a scan finds a virtual node if and only if it is the first valid one within the budget |
| `RingLookup.LookupIff` | ballista/core/src/consistent_hash/mod.rs:140-169 | a lookup answers with a virtual node if and only if it is valid, every virtual node between the hash of the key and it, going up and wrapping once, is invalid, and these are no more than the tolerance |
| `RingLookup.LookupFailsIff` | ballista/core/src/consistent_hash/mod.rs:140-169 | it answers with nothing if and only if no virtual node that the tolerance reaches from the hash of the key is valid |
| `RingLookup.ChainedScan` | ballista/core/src/consistent_hash/mod.rs:140-169 | scanning from the hash to the end and then from the start, up to the limit, is scanning clockwise with each virtual node visited at most once |
| `RingLookup.LookupIsStable` | ballista/core/src/consistent_hash/mod.rs:140-169 | a larger tolerance does not change an answer |
| `RingLookup.UnlimitedLookup` | ballista/core/src/consistent_hash/mod.rs:140-169 | tolerating the whole ring, a lookup finds a node if and only if some virtual node is valid |
| `RingLookup.RemovalMovesNoOtherKey` | ballista/core/src/consistent_hash/mod.rs:95-106 | for every hash, removing a node whose ids fit, valid or not, leaves every key on the node it was on unless that was the removed one |
| `RingLookup.RemovalFromCompleteRing` | ballista/core/src/consistent_hash/mod.rs:95-106 | after any changes whose additions fitted, this holds for every node |
| `RingLookup.AdditionMovesKeysOnlyToIt` | ballista/core/src/consistent_hash/mod.rs:81-93 | after adding a node that fits, a lookup that finds another node finds the one it finds without the new one |
| `RingLookup.AdditionToHealthyRing` | ballista/core/src/consistent_hash/mod.rs:81-93 | with all nodes valid and no tolerance, adding a node that fits keeps each key where it is or moves it to the new node |
| `RingLookup.ConsistentHash.constructor` | ballista/core/src/consistent_hash/mod.rs:39-65 | a ring built from a list of nodes is the empty ring with them added in order |
| `RingLookup.NewRingHolds` | ballista/core/src/consistent_hash/mod.rs:39-65 | it holds exactly the nodes of the list with their replicas, and of those with one name the last |
| `RingLookup.SetValidAt` | ballista/core/src/consistent_hash/mod.rs:74-79 | marking a node valid or invalid does so for all its virtual nodes and for no others |
| `RingLookup.ConsistentHash.AddNodeReplicas` | ballista/core/src/consistent_hash/mod.rs:81-93 | the loop over replicas turns the ring into the ring with the node added |
| `RingLookup.ConsistentHash.RemoveByName` | ballista/core/src/consistent_hash/mod.rs:95-106 | the loop turns the ring into the ring without the node, and returns what was registered |
| `RingLookup.ConsistentHash.GetPositionKey` | ballista/core/src/consistent_hash/mod.rs:140-169 | the virtual node it returns is valid, every one passed on the way up to it from the hash of the key, wrapping once, is invalid, and these are no more than the tolerance; it returns none if and only if none in reach is valid |
| `RingLookup.ConsistentHash.GetWithTolerance` | ballista/core/src/consistent_hash/mod.rs:112-119 | returns the registered node of that virtual node, and nothing if and only if no virtual node in reach is valid |
| `JobState.InMemoryJobState.AcceptJob` | ballista/scheduler/src/cluster/memory.rs:448-453 | queues the job |
| `JobState.InMemoryJobState.SubmitJob` | ballista/scheduler/src/cluster/memory.rs:311-328 | moves a queued job to the running ones and refuses any other |
| `JobState.InMemoryJobState.SaveJob` | ballista/scheduler/src/cluster/memory.rs:366-389 | a job that is over moves to the completed ones, any other status replaces the old one |
| `JobState.InMemoryJobState.FailUnscheduledJob` | ballista/scheduler/src/cluster/memory.rs:459-484 | a queued job becomes a failed one, any other is refused |
| `JobState.InMemoryJobState.RemoveJob` | ballista/scheduler/src/cluster/memory.rs:433-438 | removes a completed job and leaves queued and running ones |
| `JobState.InMemoryJobState.GetJobStatus` | ballista/scheduler/src/cluster/memory.rs:330-350 | reports queued before running before completed |
| `JobState.KeyValueJobState.AcceptJob` | ballista/scheduler/src/cluster/kv.rs:501-506 | queues the job |
| `JobState.KeyValueJobState.SubmitJob` | ballista/scheduler/src/cluster/kv.rs:512-541 | stores status and graph of a queued job, takes it off the queue and refuses any other |
| `JobState.KeyValueJobState.SaveJob` | ballista/scheduler/src/cluster/kv.rs:582-601 | overwrites status and graph |
| `JobState.KeyValueJobState.FailUnscheduledJob` | ballista/scheduler/src/cluster/kv.rs:603-624 | stores a failed status for a queued job and refuses any other |
| `JobState.KeyValueJobState.RemoveJob` | ballista/scheduler/src/cluster/kv.rs:626-641 | takes a queued job off the queue and forgets status and graph of any other |
| `JobState.KeyValueJobState.GetJobStatus` | ballista/scheduler/src/cluster/kv.rs:547-563 | reports queued before stored |
| `JobState.StepSimulates` | ballista/scheduler/src/cluster/kv.rs:501-641 | an operation that respects the guard keeps the two states in simulation and succeeds in both or in neither |
| `JobState.RunsReportTheSame` | ballista/scheduler/src/cluster/memory.rs:311-484 | over every guarded run both states report the same status for every job, up to the time a failed job ended |
| `JobState.GuardIsExact` | ballista/scheduler/src/cluster/memory.rs:433-484 | an operation keeps the reports the same if and only if it respects the guard |
| `JobState.LifeInOrderIsGuarded` | ballista/scheduler/src/cluster/memory.rs:311-484 | a run that accepts fresh ids, saves only running jobs and removes only completed ones is guarded |
| `JobState.InMemoryJobState.GetExecutionGraph` | ballista/scheduler/src/cluster/memory.rs:352-358 | returns the graph of a completed job |
| `JobState.KeyValueJobState.GetExecutionGraph` | ballista/scheduler/src/cluster/kv.rs:565-580 | returns the stored graph |
| `JobState.ReportsFollowTheLife` | ballista/scheduler/src/cluster/memory.rs:330-484 | over every run in order, both states report a job as its operations say: queued with its name and time, then with the status of its graph, or failed with the reason and the name and time it was queued with, until it is removed; only the in-memory state knows when an unscheduled job failed |
| `JobState.GraphsOfFinishedJobs` | ballista/scheduler/src/cluster/memory.rs:352-389 | over every run in order, both states return for a job that is over the graph it was last saved with, and the in-memory state for no other |
| `TaskSlots.SumIncrements` | ballista/scheduler/src/cluster/kv.rs:321-325 | the increment of an executor is the sum over its pairs |
| `TaskSlots.UnbindInRecord` | ballista/scheduler/src/cluster/kv.rs:320-350 | walking over the record gives every executor back what the pairs say |
| `TaskSlots.UnboundConcat` | ballista/scheduler/src/cluster/kv.rs:320-350 | freeing two lists of slots at once is freeing one and then the other |
| `TaskSlots.UnboundNone` | ballista/scheduler/src/cluster/kv.rs:320-350 | freeing nothing changes nothing |
| `TaskSlots.UnboundOne` | ballista/scheduler/src/cluster/kv.rs:320-350 | freeing n slots of one executor adds n to its entries and changes no other |
| `TaskSlots.UnbindInMap` | ballista/scheduler/src/cluster/memory.rs:177-193 | walking over the increments, in any order, gives every executor back the same |
| `TaskSlots.UnboundMapConcat` | ballista/scheduler/src/cluster/memory.rs:177-193 | in the map, too, freeing two lists at once is freeing one and then the other |
| `TaskSlots.UnboundMapOne` | ballista/scheduler/src/cluster/memory.rs:177-193 | in the map, freeing n slots of one executor adds n to its entry, if it has one, and changes no other |
| `TaskSlots.RegisterInRecord` | ballista/scheduler/src/cluster/kv.rs:379-405 | replaces the executor's entry or appends one |
| `TaskSlots.UnbindAgrees` | ballista/scheduler/src/cluster/memory.rs:177-193 | freeing slots keeps record and in-memory map in agreement |
| `TaskSlots.RegisterAgrees` | ballista/scheduler/src/cluster/memory.rs:213-221 | so does registering an executor |
| `TaskSlots.RegisterKeepsDistinct` | ballista/scheduler/src/cluster/kv.rs:384-396 | after registering, the executor occurs once and all others are unchanged |
| `TaskSlots.Exclusive` | ballista/scheduler/src/cluster/kv.rs:764-768 | in every run of any updates, two schedulers that lock the same key are never between lock and unlock at the same time |
| `TaskSlots.Serializable` | ballista/scheduler/src/cluster/kv.rs:320-405 | however the steps of any number of schedulers whose writes are under one lock interleave, the record ends as some serial order of the updates leaves it |
| `TaskSlots.NoIncrementLost` | ballista/scheduler/src/cluster/kv.rs:320-405 | at every moment of every run of unbinds and registrations, an executor that no update registers anew has the slots it started with plus all that has been given back |
| `TaskSlots.EmptyingIsValid` | ballista/scheduler/src/cluster/mod.rs:430-439 | taking all slots of one executor after the other is a way of choosing executors from the record that was read |
| `TaskSlots.LostUpdate` | ballista/scheduler/src/cluster/kv.rs:223-314 | for every bind that can take slots, in whatever way it chooses them, against any unbind or registration there is a record and an order of writes that no serial order explains |
| `TaskSlots.SerializableIff` | ballista/scheduler/src/cluster/kv.rs:223-405 | two updates always leave a serial result if and only if both are binds, neither is, or one of them is a bind with no tasks or no admitted executors |
| `SlotBinding.RoundRobinIsFair` | ballista/scheduler/src/cluster/mod.rs:468-557 | round robin takes only slots that are free, binds the tasks in order, and gives nobody two tasks more than somebody who still has a slot left |
| `SlotBinding.AlwaysHasNext` | ballista/scheduler/src/cluster/mod.rs:518-527 | as long as slots are left, the executor the index moves to has one |
| `SlotBinding.SortedIsSorted` | ballista/scheduler/src/cluster/mod.rs:482-483 | sorting lists the same executors, most slots first |
| `StageFetching.Revive` | ballista/scheduler/src/state/execution_graph.rs:241-265 | exactly the stages that wait are started, with all their tasks to be bound |
| `StageFetching.FreeTasksAre` | ballista/scheduler/src/cluster/mod.rs:510-516 | the runnable tasks of a stage are its free partitions, each once, in ascending order |
| `StageFetching.TasksOfStagesAre` | ballista/scheduler/src/state/execution_graph.rs:934-990 | the tasks of a job are the free partitions of its admitted running stages and then all partitions of its admitted waiting ones, each once, by stage and partition |
| `StageFetching.FetchRunningStage` | ballista/scheduler/src/state/execution_graph.rs:934-990 | the first stage that has tasks to bind is found, waiting stages being started when no running one outside the black list has any; what is left to bind and its order stay the same, and no stage is found only if nothing is left |
| `SlotBinding.BindRoundRobin` | ballista/scheduler/src/cluster/mod.rs:468-557 | every bound task is a free partition of an admitted running or waiting stage of a running job, none is bound twice, and unless all slots are used every such partition is bound; slots are taken only where they are free, and evenly; afterwards exactly the partitions that were not bound are left to bind, and nothing else about jobs and stages changes but that waiting stages are started |
| `DirectoryTtl.TimeBefore` | ballista/core/src/utils.rs:380-388 | whole seconds before now, and the epoch if the interval is longer |
| `DirectoryTtl.NewerIff` | ballista/executor/src/executor_process.rs:572-608 | a tree is newer if and only if some entry at any depth was modified after the cutoff |
| `DirectoryTtl.ReadableIff` | ballista/executor/src/executor_process.rs:572-608 | a tree is readable if and only if the metadata of every entry and the listing of every directory in it can be read |
| `DirectoryTtl.SatisfyDirTtl` | ballista/executor/src/executor_process.rs:572-608 | ends on every tree; answers no if and only if everything could be looked at and nothing is newer, yes only if something is newer, and fails only if something could not be looked at |
| `DirectoryTtl.CleanShuffleData` | ballista/executor/src/executor_process.rs:509-544 | deletes nothing if the listing fails, and otherwise exactly the directories that can be looked at in full and hold nothing newer; never a plain file |
| `PlanDisplay.CollectPlanMetrics` | ballista/core/src/utils.rs:366-377 | the list holds the metrics of the operators that have some, parents before children |
| `PlanDisplay.IndentVisitor.PreVisit` | ballista/scheduler/src/display.rs:124-145 | prints one line with the current indent and list entry and moves both on |
| `PlanDisplay.IndentVisitor.PostVisit` | ballista/scheduler/src/display.rs:147-150 | takes one indent back |
| `PlanDisplay.IndentVisitor.Accept` | ballista/scheduler/src/display.rs:124-151 | a visit prints the lines of the plan, advances the index by its size and restores the indent |
| `PlanDisplay.PrintedInPlace` | ballista/scheduler/src/display.rs:124-151 | the line of the operator at any path stands at its position in the plan, is indented by its depth and shows the list entry at its position |
| `PlanDisplay.PositionsInOrder` | ballista/scheduler/src/display.rs:124-151 | positions follow the plan: parents before their children, and children from left to right |
| `PlanDisplay.OwnMetricsIff` | ballista/scheduler/src/display.rs:124-151 | every operator is printed with its own metrics if and only if no operator without metrics precedes one with metrics |
| `PlanDisplay.MetricsShift` | ballista/scheduler/src/display.rs:132-143 | an operator without metrics above one with metrics is printed with the metrics of the other |
| `PlanDisplay.CombineMetrics` | ballista/scheduler/src/display.rs:40-47 | every set of the plan is extended by the set of the stage at the same place |
| `PlanDisplay.PrintStageMetrics` | ballista/scheduler/src/display.rs:31-59 | prints if and only if the two lists have the same length; if every operator reports metrics, the operator at any path is printed with its own and the stage's metrics for it |

## Left out

- Encoding, compression and transport of batches, retries of fetches and the number of bytes in statistics: a file is the rows written to it.
- Join selection and aggregate statistics, which DataFusion applies to a resolved stage (ballista/scheduler/src/state/execution_graph/execution_stage.rs:353-358).
- Failures, retries and lost executors in the execution graph; rolling back is proved as a rewrite only.
- TaskSlots.NoIncrementLost: slots are unbounded naturals, not 32-bit integers.
- TaskSlots.SerializableIff: a bind keeps the executors of the record in their order; the consistent-hash policy writes them back in the order of a hash map.
- DirectoryTtl.SatisfyDirTtl: modification times before the epoch, on which the code panics.
- The ids that bound tasks get, the order in which bias and consistent hash bind tasks, and the choice of topology nodes among executors on one host.
- The listener and metrics wrappers of the cache, and the removal policy of the cache beyond arbitrary eviction.
- Shutting down the cache driver, panics in loaders, wakers and liveness.
- MD5: the hash of the ring is an arbitrary function.
- The protobuf codec, command line, REST, Flight SQL, configuration and Python bindings: field copying and plumbing.
