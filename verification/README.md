# Sirius query execution, modelled and proved in Dafny

Sirius runs DuckDB plans on a GPU. This project models the parts of it whose correctness depends on
orchestration, indexing, aliasing and layout, and proves what they are for.

**Pipelines** (`Plans`, `Pipelines`, `Compiler`, `PlanJobs`, `Scheduler`, `Evaluation`,
`Execution`, `BlockExecution`, `QueryFacts`, `QueryRefinement`, `QueryRuns`, `Denotation`,
`Restarting`). A plan of scans, streaming operators, breakers, joins of every type, CTEs and delim
joins is cut into meta-pipelines by the recursive `BuildPipelines` methods, ordered by the
round-robin loop, and run pipeline by pipeline. The main theorem is the contract of
`QueryRuns.RunQuery`: compile, make ready, schedule and run, and the result collector holds exactly
the batches that direct recursive evaluation of the plan gives, for every well-formed plan and every
meaning of the operators. It fails if and only if, on those batches, an operator or sink throws by itself, a
join is of a type that is not implemented, or a join uses what it freed on an earlier batch; nothing is ever
read before it is written. The way there:

- `Pipelines.Compiled` is a closed form of the arena of meta-pipelines that does not mention the
  compiler; the imperative compiler is proved to produce it, CTE and DELIM scans never missing in
  the scan tables on the way.
- Build-finish order is a strictly decreasing rank of all dependencies, so the scheduling loop always
  finds a ready meta-pipeline and ends within n*n rounds.
- Each meta-pipeline is one job. Its block of pipelines, with any number of right joins that restart
  it, runs if and only if every operator of its spine gets its batches through and the sink takes those
  that come out, and then sinks exactly these (`BlockExecution.BlockRuns`); every table is complete after
  its writer's block and empty before it (`QueryRuns.Progress`).
- Over the whole query this is a condition on the plan and its data, stated beside direct evaluation and
  without the compiler's notions (`Evaluation.Runs`), and on all data a condition on the plan alone, with
  the join types written out (`QueryFacts.RunsOnAllDataIff`).
- Batches are then related to relations: without joins that rescan there is one batch and it is the
  relation the plan stands for; with right semi and right anti joins the batches before the last are
  empty.

**Columns** (`LateMaterialization`, `JoinConditions`, `HashJoins`, `NestedLoopJoins`, `Flows`, `LateFlows`,
`JoinFlags`). Columns share arrays of row ids, and filters and joins compose row ids through a memo. Any
tree of tables, filters, hash inner, semi and mark joins and nested-loop inner joins, run this way through
the joins' column-index maps, stands for the rows of eager evaluation, although arrays of row ids are freed
as soon as they have been composed: none is read or freed again. It returns the hash tables that its joins
free to the pool. Flags of the columns that come out are right when every hash inner join that hands a
flagged column on because of a flagged key has such a key on an equality; for one join that condition is
exact.

**Memory and layout** (`CacheAllocator`, `BufferManager`, `StringColumns`, `ValidityMasks`). A
two-region bump allocator under every interleaving of its atomic steps, with the exact steps after which
blocks can overlap; a ledger of pool blocks with locking and reset; the chunked string encoder and TopN's
in-place slice of its result; validity masks appended chunk by chunk.

**Expressions** (`Expressions`, `Filters`, `Aggregates`, `Comparisons`). Column-at-a-time evaluation
against row-by-row evaluation, filters that keep exactly the rows that satisfy their expression, and the
extraction of aggregate arguments into a projection.

Relations, and what an operator computes on them, are parameters (`Evaluation.Semantics`). Pool
pointers and the row-id pairs of join kernels are parameters too, with the properties that those
libraries promise. `Options` holds the option type.

Some statements that one might expect do not hold of the code; the model keeps the code and states the
exact condition:

- A hash INNER, SEMI or MARK join frees its hash table at the end of every Execute, but builds it once. A
  nested-loop INNER join keeps the row ids of its build side without locking them, and an Execute with
  matches composes and frees them. A join below that restarts the pipeline sends a second batch, and the
  query fails. A query runs whatever its data, unless an operator throws by itself, if and only if no such
  join stands above a restarting one and all joins are of implemented types
  (`QueryFacts.RunsOnAllDataIff`, `Denotation.ReprobedExample`, `NestedLoopJoins.NestedLoopJoin.Execute`).
- A CTE table is overwritten by every batch, so its scans see the last one only. That is all of it
  if and only if the topmost join that restarts the pipeline filling it, if there is one, is a right semi or
  right anti join (`Denotation.LastBatchIsAllIff`).
- A column-data scan hands on stored columns without their row ids, which is right if and only if these list
  every row in place (`LateMaterialization.CopyKeepsRowsIff`); in the pipeline theorems what such a scan
  keeps is a parameter (`Evaluation.Semantics.copied`).
- A uniqueness flag on a key of a non-equality condition lets rows repeat. The flags of the columns that a
  hash inner join hands on are right if and only if each side that has a flagged column among them meets
  no flagged key on the other side, or one on an equality (`JoinFlags.FlagsRightIff`).
- A build column that is a key twice overflows the hash table's slots (`HashJoins.SinkFitsIff`).
- NOT IN over constants only is not negated (`Expressions.InIsRightIff`), and BETWEEN keeps the rows on
  bounds that it excludes (`Expressions.BetweenIsRightIff`).
- A filter on an earlier aggregate shifts the column that an ungrouped aggregate reads, and the argument
  of a distinct aggregate goes to the aggregate whose index is that of its column
  (`Aggregates.ReadsItsArgumentIff`).
- Chunks that end within a 64-bit word break the mask of the column (`ValidityMasks.MasksAgreeIff`),
  and TopN's byte count includes the rows it cuts off at the end (`StringColumns.TopNBytesIff`).
- A cache request that fits, begun while one that has to be undone is in flight, can be followed by
  granted blocks that overlap, and nothing else can (`CacheAllocator.OverlapFollowsIff`).

## Model

| member | source | states |
|---|---|---|
| QueryRuns.RunQuery | src/gpu_executor.cpp:59-283 | for any well-formed plan: compiling, scheduling and running it leaves in the result collector exactly the batches of direct recursive evaluation, or stops if and only if, on those batches, some operator or sink throws by itself, a join is of a type other than hash INNER, SEMI, MARK, RIGHT, RIGHT SEMI, RIGHT ANTI and nested-loop INNER, or it uses a hash table or row ids that it freed on an earlier batch |
| QueryRuns.ScheduleRuns | src/gpu_executor.cpp:66-184 | any dependency-respecting order of meta-pipelines runs to the end if and only if all their operators and sinks get the evaluated batches through; it then fills exactly the tables of the meta-pipelines in it with their final contents, and leaves all others empty |
| QueryRuns.JobRuns | src/gpu_executor.cpp:129-182 | one meta-pipeline whose dependencies are done runs if and only if its operators and its sink get the evaluated batches through; it then completes its own tables and touches no other |
| QueryRuns.CompiledRunnable | src/gpu_meta_pipeline.cpp:117-141 | every meta-pipeline of a compiled plan runs one subplan into one sink, and every table has exactly one writing meta-pipeline |
| QueryRuns.QueryResult | src/gpu_executor.cpp:230-273 | whichever topological order schedules all meta-pipelines, the collector ends with the evaluated plan, or no order runs to the end |
| QueryRefinement.SpineComputes | src/gpu_physical_operator.cpp:112-140 | the source and operators of a meta-pipeline's base compute what its subplan evaluates to, and all they read is filled by recorded dependencies |
| QueryRefinement.PartsKnown | src/operator/gpu_physical_delim_join.cpp:165-205 | CTE, delim and cached-input scopes hand each part of a plan exactly the tables that its scans will read |
| QueryRefinement.CompletesIff | src/operator/gpu_physical_hash_join.cpp:602-608 | the condition on a plan's operators, their build sides and the evaluated batches holds if and only if it holds for its spine and every meta-pipeline below it; what a join freed comes back only when it is built |
| QueryFacts.FactsWithin | src/gpu_meta_pipeline.cpp:133-141 | distinct operators have separate tables, so what is known of every part is known of the whole plan |
| QueryFacts.RunsOnAllDataIff | src/operator/gpu_physical_hash_join.cpp:564-565 | a query runs whatever the operators compute, unless one throws by itself, if and only if its joins are hash INNER, SEMI, MARK, RIGHT, RIGHT SEMI, RIGHT ANTI or nested-loop INNER joins, and no hash INNER, SEMI or MARK and no nested-loop INNER join stands above a hash RIGHT, RIGHT SEMI or RIGHT ANTI join in the same pipeline |
| QueryFacts.ImplementedIff | src/operator/gpu_physical_hash_join.cpp:601-608 | where no join is probed again that frees what it holds and nothing throws by itself, a query gives its evaluated batches if and only if all its joins are of the seven implemented types, written out |
| Denotation.ReprobedExample | src/operator/gpu_physical_hash_join.cpp:564-565 | a semi join above a right semi join, whose second batch finds the hash table freed, and a nested-loop inner join above a full right join, whose second batch finds the build side's row ids freed |
| BlockExecution.BlockRuns | src/gpu_executor.cpp:256-268 | a meta-pipeline's kept pipelines in their order run if and only if every operator gets the batches that reach it through, having lost nothing that a later one needs, and the sink takes the batches that come out; they sink exactly the batches of its spine, with any number of joins that restart it, and probe and free only its own joins |
| BlockExecution.RestartRuns | src/operator/gpu_physical_hash_join.cpp:328-383 | the pipeline that restarts at a right join reads what the join was probed with so far, frees its table, and runs if and only if every operator above, after the batches it got so far, gets one more through and the sink takes it; it adds one batch to the sink and to every join above |
| BlockExecution.ExecuteReversed | src/gpu_pipeline.cpp:188-194 | running the reversed operator list pushes a batch through the operators from the source up |
| Execution.Executor.RunPipeline | src/gpu_executor.cpp:75-183 | passing relations through numbered slots, the last one being the sunk relation, is source, operators in order, then sink |
| Execution.Executor.Execute | src/gpu_executor.cpp:59-185 | running the scheduled list one by one is running its pipelines in sequence |
| Execution.RunReadsWritten | src/gpu_executor.cpp:75-130 | a pipeline that runs reads a leaf or an operator that has received a batch, and every join in it has been built |
| Execution.HashTableLife | src/operator/gpu_physical_hash_join.cpp:564-565 | probing an inner, semi or mark join frees its hash table, and so does scanning that of a right join; neither works again until the join is built again |
| Denotation.QueryIsOneRelation | src/gpu_executor.cpp:59-185 | without joins that rescan, for any meaning of the operators, a query that runs leaves one batch, the relation the plan denotes, and it runs if all joins are of implemented types and no operator throws by itself |
| Denotation.QuerySettles | src/operator/gpu_physical_hash_join.cpp:554-562 | with right semi and right anti joins a query that runs leaves empty batches and then the denoted relation, if sinks ignore leading empty batches; it runs if no join is probed again that can free what it holds, all are of implemented types and no operator throws by itself |
| QueryFacts.BatchCount | src/gpu_executor.cpp:256-268 | a plan yields one batch plus one per restarting join of its spine |
| Denotation.LastBatchIsAllIff | src/operator/gpu_physical_cte.cpp:88-106 | the last batch is all of a query's rows, for all lawful meanings of the operators, if and only if its topmost restarting join, if it has one, gives build-side rows only; a full right join there loses a batch with rows |
| Denotation.CteScanSeesRelation | src/operator/gpu_physical_cte.cpp:88-106 | a scan of a CTE sees a copy of the relation that the CTE denotes, if each of its joins hands over one batch or is a right semi or right anti join |
| Compiler.PipelineCompiler.Compile | src/gpu_executor.cpp:198-202 | building a plan under a result collector gives exactly the arena that `Pipelines.Compiled` describes |
| Compiler.PipelineCompiler.BuildPipelines | src/gpu_physical_operator.cpp:112-140 | building any subplan grows the current base pipeline by the subplan's spine and appends its meta-pipelines, and changes nothing else |
| Compiler.PipelineCompiler.BuildSource | src/gpu_physical_operator.cpp:116-131 | a leaf becomes the source; a sink becomes the source and gets a child meta-pipeline |
| Compiler.PipelineCompiler.BuildStreaming | src/gpu_physical_operator.cpp:133-137 | a streaming operator joins the pipeline and building goes on below it |
| Compiler.PipelineCompiler.BuildColumnDataScan | src/operator/gpu_physical_column_data_scan.cpp:64-110 | the scan's entry is in its table, and the pipeline waits for the meta-pipeline that fills what is scanned |
| Compiler.PipelineCompiler.BuildCte | src/operator/gpu_physical_cte.cpp:119-134 | the CTE is built first, its recorded scans are registered, then the body |
| Compiler.PipelineCompiler.BuildLeftDelim | src/operator/gpu_physical_delim_join.cpp:164-183 | the duplicate-eliminated side is built, its scans registered, then the join |
| Compiler.PipelineCompiler.BuildRightDelim | src/operator/gpu_physical_delim_join.cpp:185-205 | as on the left, and the join's build side, fed by the delim join, is not built again |
| Compiler.PipelineCompiler.BuildJoinPipelines | src/operator/gpu_physical_hash_join.cpp:657-703 | the probe pipeline, the build side's meta-pipeline, and one restarting pipeline if the join is a source |
| Compiler.PipelineCompiler.CreateChildMetaPipeline | src/gpu_meta_pipeline.cpp:133-141 | a child with its own base pipeline, on which the current pipeline depends |
| Compiler.PipelineCompiler.CreateChildPipeline | src/gpu_meta_pipeline.cpp:218-232 | the new pipeline has the operators before the join and waits for the base and all pipelines created since |
| Compiler.PipelineCompiler.AddDependenciesFrom | src/gpu_meta_pipeline.cpp:149-172 | exactly the pipelines created since the start, without the dependant, go in front of its dependencies |
| Compiler.NothingClaimed | src/plan/gpu_plan_delim_join.cpp:34-51 | a well-formed plan has no scan of duplicate-eliminated data outside a delim join, so building starts with empty tables |
| PlanJobs.SpineRanks | src/gpu_meta_pipeline.cpp:133-141 | every recorded dependency, CTE and DELIM back-edges included, finished its Build before the dependent meta-pipeline does; no base pipeline reads from a join |
| PlanJobs.SpineTiles | src/gpu_meta_pipeline.cpp:54-63 | child lists tile the arena in preorder |
| Scheduler.CompiledSchedulable | src/gpu_executor.cpp:230-273 | compiled plans form a forest whose dependency graph is acyclic and points at base pipelines only |
| Scheduler.SomeCanGo | src/gpu_executor.cpp:247-254 | as long as a meta-pipeline is unscheduled, one is ready |
| Scheduler.RoundsGoOn | src/gpu_executor.cpp:230-272 | a full round without progress cannot happen |
| Scheduler.QueryScheduler.ScheduleAll | src/gpu_executor.cpp:221-273 | the loop ends within n*n rounds, schedules every meta-pipeline exactly once, behind all its dependencies, and pushes each one's kept pipelines as one contiguous block |
| Scheduler.QueryScheduler.ShouldSchedule | src/gpu_executor.cpp:231-254 | the check accepts exactly the unscheduled meta-pipelines whose dependencies are all scheduled; the children check adds nothing |
| Scheduler.QueryScheduler.GetMetaPipelines | src/gpu_meta_pipeline.cpp:54-63 | recursion lists the whole subtree in creation order; without recursion and with skip it lists nothing |
| Scheduler.QueryScheduler.PushPipelines | src/gpu_executor.cpp:255-268 | exactly the pipelines that do not read from a non-right hash join are pushed, in order |
| Scheduler.QueryScheduler.ReadyMetaPipeline | src/gpu_meta_pipeline.cpp:124-131 | exactly the pipelines of the subtree are made ready |
| Restarting.RestartIsSuffix | src/gpu_executor.cpp:310-329 | made ready any number of times, a restarting pipeline runs exactly what follows its join in the base pipeline, into the same sink |
| Restarting.ReadyOnce | src/gpu_pipeline.cpp:188-194 | Ready takes effect once |
| Restarting.CompiledWaitsForProbers | src/gpu_meta_pipeline.cpp:218-232 | a restarting pipeline waits for exactly the pipelines of its meta-pipeline that probe its join, and those are exactly the ones before it |
| LateMaterialization.Device.HandleMaterializeRowIDsRHS | src/operator/gpu_materialize.cpp:166-212 | every written column stands for the selected rows of its input column, the rest of the output is untouched, one array is composed for each distinct array of row ids, and each of these is freed once, unless it is locked, after its last read |
| LateMaterialization.Device.HandleMaterializeRowIDsLHS | src/operator/gpu_materialize.cpp:214-261 | the same at the front of the output |
| LateMaterialization.Device.HandleMaterializeRowIDs | src/operator/gpu_materialize.cpp:119-164 | the same for all columns in place |
| LateMaterialization.ComposedSelects | src/operator/gpu_materialize.cpp:144-162 | composing row ids stands for gathering the gathered rows |
| LateMaterialization.MaterializeKeepsRows | src/operator/gpu_materialize.cpp:22-76 | a materialized column has the same rows, no row ids, is valid whatever arrays follow, and materializing it again changes nothing |
| LateMaterialization.CopyKeepsRowsIff | src/operator/gpu_physical_cte.cpp:94-105 | the working table of a CTE, and the column-data scan over it, drop row ids: the rows of all columns read through an array survive if and only if the array lists every row in place; columns without row ids survive |
| JoinConditions.ReorderConditions | src/operator/gpu_physical_hash_join.cpp:208-247 | equalities first, both parts in their order, early return included |
| JoinConditions.LeadingIsPartitioned | src/operator/gpu_physical_hash_join.cpp:211-227 | the early return is taken only when the order is right already |
| JoinConditions.PlaceConditions | src/operator/gpu_physical_nested_loop_join.cpp:100-113 | the two indices fill equalities in order and the other conditions reversed, the last one first |
| JoinConditions.OrdersAgree | src/operator/gpu_physical_nested_loop_join.cpp:100-113 | neither order changes which pairs of rows satisfy all conditions |
| JoinConditions.OppositeConditions | src/operator/gpu_physical_hash_join.cpp:44-52 | a pair of rows satisfies a join condition exactly if it does not satisfy the opposite one |
| Comparisons.EqualityIff | src/operator/gpu_physical_hash_join.cpp:211-227 | the operators treated as equalities are those that hold of equal values and of no others |
| JoinConditions.UniqueBuildKey | src/operator/gpu_physical_hash_join.cpp:479-483 | a duplicate-free build key on an equality matches each probe row at most once |
| JoinConditions.FlagsSufficeIff | src/operator/gpu_physical_hash_join.cpp:590-595 | setting `unique_build_keys` for any flagged key is right on all data if and only if some flagged key is on an equality |
| JoinConditions.ProbeFlagsSufficeIff | src/operator/gpu_physical_hash_join.cpp:429-437 | the same for `unique_probe_keys` and repeated build rows |
| JoinFlags.FlagsRightIff | src/operator/gpu_physical_hash_join.cpp:429-437 | for a hash inner join with any projections, over relations whose conditions may share columns: the flags of the output columns are right on all data if and only if, for each side, a flagged projected column and a flagged key of the other side come only with a flagged key of the other side on an equality |
| HashJoins.SinkFitsIff | src/operator/gpu_physical_hash_join.cpp:324-325 | Sink stays within the reserved slots if and only if no build column is a key twice |
| HashJoins.HashJoin.PlaceRight | src/operator/gpu_physical_hash_join.cpp:307-322 | every output slot is in range and is the slot of the projected build column |
| HashJoins.HashJoin.constructor | src/operator/gpu_physical_hash_join.cpp:249-326 | for any projection: an empty map stands for all columns, each at its own place, any other for its columns in order; the right ones by the slot that holds them; SEMI, ANTI and MARK joins keep no right columns; and the reserved slots |
| HashJoins.HashJoin.Sink | src/operator/gpu_physical_hash_join.cpp:574-651 | every slot holds the build column that the maps assign to it, the keys are materialized, the flag is set if some key was flagged, and the hash table is a new pool block, or null for an empty build side; join types and comparisons that are not built fail |
| HashJoins.HashJoin.Execute | src/operator/gpu_physical_hash_join.cpp:385-572 | for every join type: which output sizes and comparisons are accepted, the projected probe columns at the left row ids, then the slots of the output map at the right ones, marks, and the flags handed on; the old row ids of the probe side are freed and those of the build side locked before; the hash table of an inner, semi or mark join goes back to the pool, and Execute fails if it is not there any more |
| HashJoins.AcceptsIff | src/operator/gpu_physical_hash_join.cpp:385-408 | type by type, which number of output columns and which comparisons get through |
| HashJoins.BuildsIff | src/operator/gpu_physical_hash_join.cpp:145-178 | Sink builds inner joins over any conditions, and SEMI, MARK and right joins over equalities, or an equality and then an inequality |
| HashJoins.TypesOverEquality | src/operator/gpu_physical_hash_join.cpp:157-176 | over an equality, exactly the hash INNER, SEMI, MARK, RIGHT, RIGHT SEMI and RIGHT ANTI joins are built and probed; the pipelines count the same types as implemented |
| HashJoins.HashJoin.GetData | src/operator/gpu_physical_hash_join.cpp:328-383 | a restarting right join outputs the slots of its output map at the scanned build rows, behind null columns for a full right join, and frees its hash table |
| NestedLoopJoins.NestedLoopJoin.constructor | src/operator/gpu_physical_nested_loop_join.cpp:94-126 | the conditions, equalities in order and the others reversed behind them, and room for every build column |
| NestedLoopJoins.NestedLoopJoin.Sink | src/operator/gpu_physical_nested_loop_join.cpp:156-183 | every build column is kept with its row ids, which are not locked, and without its flag |
| NestedLoopJoins.NestedLoopJoin.Execute | src/operator/gpu_physical_nested_loop_join.cpp:185-346 | both sides' columns at the pairs of the kernel; only inner joins and the kernel's comparisons are accepted; it fails if and only if it reads a late column of the build side whose row ids were freed; after matches the unlocked row ids of both sides are freed, so that none of the build side's late columns can be read again |
| NestedLoopJoins.LostIff | src/operator/gpu_physical_nested_loop_join.cpp:274-339 | when it fails so: a key column, or, after matches, any column of the build side is read through an array that was freed, possibly with those of the probe side just before |
| LateFlows.Run | src/operator/gpu_physical_hash_join.cpp:385-572 | any tree of tables, filters, hash inner, semi and mark joins and nested-loop inner joins run late stands, column by column, for its eager evaluation, uniqueness flags included; it reads no array of row ids that was freed and frees only its own, each once; all hash tables are back in the pool; it fails if a kernel does not know some conditions, and otherwise only when the pool is full |
| Flows.FlagsAreSound | src/operator/gpu_physical_hash_join.cpp:429-437 | in any such tree, a flagged column has no duplicates if every hash inner join that hands on a flagged column because of a flagged key of the other side has such a key on an equality |
| Flows.JoinedRowsAre | src/operator/gpu_physical_hash_join.cpp:277-305 | value by value, what a join hands on in a flow: the probe columns of its map, or all of them in their order when the map is empty, at the left row ids, then the build columns likewise at the right ones, or the marks |
| LateFlows.RunMaterializes | src/operator/gpu_materialize.cpp:78-117 | materializing a column at the end of a flow gives the eager rows |
| CacheAllocator.RunsCount | src/gpu_buffer_manager.cpp:313-326 | in every interleaving both counters equal granted plus in-flight bytes, and all blocks are 256-aligned |
| CacheAllocator.RunsStayApart | src/gpu_buffer_manager.cpp:313-326 | granted blocks are in bounds and pairwise apart as long as no fitting request begins while an overflowing one is in flight |
| CacheAllocator.OverlapFollowsIff | src/gpu_buffer_manager.cpp:313-326 | after a disciplined run, a step in either region can be followed, with requests served one by one, by two granted blocks that overlap if and only if it begins a fitting request while an overflowing one is in flight |
| CacheAllocator.OverlapExample | src/gpu_buffer_manager.cpp:319-322 | an interleaving with two overflowing requests whose granted blocks overlap |
| CacheAllocator.Padded | src/gpu_buffer_manager.cpp:308-312 | sizes grow to a multiple of 256 by at least one and at most 256 bytes |
| BufferManager.GrantedBlocksApart | src/gpu_buffer_manager.cpp:316-325 | no byte belongs to two granted blocks, within or across the regions |
| BufferManager.BufferManager.MallocCached | src/gpu_buffer_manager.cpp:305-330 | the GPU region serves a request that fits, else the CPU region, else both counters are as before and the call fails; every byte that is handed out lies in the cache |
| BufferManager.InCacheIff | src/gpu_buffer_manager.cpp:373-380 | the pointers that freeing takes for cached ones are those to the bytes of the two regions |
| BufferManager.BufferManager.MallocProcessing | src/gpu_buffer_manager.cpp:331-353 | a pool block enters the allocation table with its padded size; a null pointer changes nothing |
| BufferManager.BufferManager.StoreBuffer | src/operator/gpu_physical_top_n.cpp:192-196 | a buffer that a library took from the pool is live and kept apart from both tables |
| BufferManager.BufferManager.LockAllocation | src/gpu_buffer_manager.cpp:356-365 | an allocated block moves to the locked table with its size; anything else changes nothing |
| BufferManager.BufferManager.CustomCudaFree | src/gpu_buffer_manager.cpp:367-402 | exactly the unlocked ledger blocks go back to the pool, with their size; cached, locked, stored and null pointers are ignored and change nothing; unknown ones fail |
| BufferManager.BufferManager.ResetBuffer | src/gpu_buffer_manager.cpp:236-287 | every live block goes back exactly once: afterwards all that was granted was released, and no cached column has row ids left |
| BufferManager.BufferManager.ResetCache | src/gpu_buffer_manager.cpp:289-303 | both counters start over with no blocks, and the cached tables have neither columns nor names |
| StringColumns.ColumnSize | src/operator/gpu_physical_table_scan.cpp:508-515 | the first pass counts exactly the bytes of all rows |
| StringColumns.EncodeColumn | src/operator/gpu_physical_table_scan.cpp:597-642 | over the same rows in any chunks, the second pass fills the column exactly and the size check succeeds |
| StringColumns.RoundTrip | src/operator/gpu_physical_table_scan.cpp:610-616 | decoding by offsets returns every row in order |
| StringColumns.TopNStrings | src/operator/gpu_physical_top_n.cpp:161-201 | at most limit rows from the offset on, and fewer only if the column ends: the shifted pointers and rebased offsets decode row k as original row offset + k, without underflow, and other offsets are untouched |
| StringColumns.TopNBytesIff | src/operator/gpu_physical_top_n.cpp:178-184 | the byte count handed on is that of the kept rows if and only if the rows cut off at the end are empty strings |
| ValidityMasks.WriteMasks | src/operator/gpu_physical_table_scan.cpp:581-629 | the region holds the chunks' masks one after the other, absent ones as ones, and zeros behind |
| ValidityMasks.MasksAgreeIff | src/operator/gpu_physical_table_scan.cpp:621-629 | chunk-wise masks equal the column's mask for all data if and only if every chunk but the last non-empty one has a multiple of 64 rows |
| ValidityMasks.FullMaskSize | src/gpu_columns.cpp:24-29 | with such chunks the rounded total is the size that the column asks for |
| ValidityMasks.SecondPassFits | src/operator/gpu_physical_table_scan.cpp:519-529 | a region sized by any chunks of the first pass is large enough for full chunks of the second |
| Expressions.Execute | src/expression_executor/gpu_expression_executor.cpp:273-302 | whole-column evaluation gives on every row the row-wise value of what is executed, and throws exactly if some row does |
| Expressions.ExecuteCase | src/expression_executor/specializations/gpu_execute_case.cpp:60-107 | the backward loop gives the THEN of the first true WHEN; a true WHEN before an error() throws |
| Expressions.ExecuteConjunction | src/expression_executor/specializations/gpu_execute_conjunction.cpp:41-87 | the accumulated column is the AND or OR of all children |
| Expressions.ExecuteIn | src/expression_executor/specializations/gpu_execute_operator.cpp:146-231 | the OR chain, the lookup in constants, and the missing negation there |
| Expressions.ExecuteBetween | src/expression_executor/specializations/gpu_execute_between.cpp:39-66 | both bounds inclusive, whatever the expression says |
| Expressions.CompareMeans | src/expression_executor/specializations/gpu_execute_comparison.cpp:147-187 | each comparison gives 1 or 0 by the order of the two values; DISTINCT FROM and its negation throw |
| Expressions.ComparisonsAreOpposites | src/expression_executor/specializations/gpu_execute_comparison.cpp:147-187 | every comparison is the negation of its opposite, and equality is both bounds |
| Expressions.ConjunctionMeans | src/expression_executor/specializations/gpu_execute_conjunction.cpp:41-87 | AND is true if all children are, and OR by De Morgan's law |
| Expressions.BetweenIsConjunction | src/expression_executor/specializations/gpu_execute_between.cpp:39-66 | a BETWEEN as written is the AND of two comparisons, strict ones where it excludes the bound |
| Expressions.InIsDisjunction | src/expression_executor/specializations/gpu_execute_operator.cpp:146-231 | IN is the OR of equalities and NOT IN its negation; with one operand it throws |
| Expressions.CaseUnfolds | src/expression_executor/specializations/gpu_execute_case.cpp:60-107 | a CASE is the THEN of its first WHEN if that is true, else the CASE of the rest |
| Filters.Select | src/expression_executor/gpu_expression_executor.cpp:229-264 | the output stands for exactly the rows that satisfy the expression, in order; nothing is kept if there are no rows or the expression reads a column without data and some column shows that it has none; it throws exactly if some row does |
| Filters.SetInputColumns | src/expression_executor/gpu_expression_executor.cpp:72-104 | the row count is that of some column with rows, and columns without rows are noticed |
| Filters.RowCountIsRows | src/expression_executor/gpu_expression_executor.cpp:72-104 | the count of a column with data, late or not, is the number of its rows, and columns of one relation agree on it |
| Filters.NoNullLeaf | src/expression_executor/gpu_expression_executor.cpp:120-173 | when columns without data have no row ids, an expression over one makes the executor look for such references |
| Filters.NullLeafIff | src/expression_executor/gpu_expression_executor.cpp:120-173 | the search for a reference to a column without data finds one if and only if the expression reads one |
| Filters.ReadsDecide | src/expression_executor/gpu_expression_executor.cpp:120-173 | value and errors of an expression depend on the columns that it reads only |
| Filters.TrueRowsAre | src/expression_executor/gpu_expression_executor.cpp:254-255 | the selection holds each true row once, in order |
| Expressions.ExecutedAsWritten | src/expression_executor/specializations/gpu_execute_operator.cpp:158-185 | without a NOT IN over constants and without excluded bounds, what is executed is the expression itself |
| Expressions.InIsRightIff | src/expression_executor/specializations/gpu_execute_operator.cpp:158-185 | an IN is right on a row if and only if it is not a NOT IN over constants only |
| Expressions.BetweenIsRightIff | src/expression_executor/specializations/gpu_execute_between.cpp:48-59 | a BETWEEN is right on a row if and only if the input there is not, within the bounds, equal to a bound that it excludes; such a row is kept |
| Expressions.InitializeState | src/expression_executor/gpu_expression_executor.cpp:304-332 | the state tree has a child for every subexpression at the index where evaluation looks for it |
| Aggregates.ExtractAggregateExpressions | src/plan/gpu_plan_aggregate.cpp:415-460 | sorted aggregates are bound, then groups, arguments and filters become references to the expressions they were, numbered in order; nothing to move, nothing changed |
| Aggregates.ExtractionMeansSame | src/plan/gpu_plan_aggregate.cpp:431-452 | on the projected row, all rewritten groups, arguments and filters have the values of the originals on the input row |
| Aggregates.ReadArguments | src/operator/gpu_physical_ungrouped_aggregate.cpp:232-348 | where every argument goes: distinct ones to the index of their column, the others by a running payload index that counts the arguments of all earlier aggregates, row counts last; several arguments and indices out of range fail |
| Aggregates.ReadsItsArgumentIff | src/operator/gpu_physical_ungrouped_aggregate.cpp:236-264 | an aggregate gets the column its argument refers to if and only if no earlier aggregate has a filter; a distinct one, if and only if as many expressions as aggregates come before its own |

## Left out

- Objects: meta-pipelines and pipelines live in one arena and pointers are indices into it; an operator is its identifier. Batch indices, parents, union pipelines, finish events, progress and logging are not modelled.
- Exceptions by themselves: in the pipeline modules whether Sink or Execute of an operator throws on a batch is a parameter (`passes` and `takes` of `Evaluation.Semantics`), as are the batches on which a nested-loop join reads and frees row ids (`needs` and `spends`); GetData throws only on what was freed or never written. A hash join of a type that is not implemented fails in its first probe instead of in Sink. Whether one throws depends on the operator, what it holds and the batch alone: that two scans of the same duplicate-eliminated input share uncached column data, which the first to materialize them frees, is not followed. An ungrouped COUNT refuses a second non-empty batch, so it does not meet `Denotation.Lawful`.
- Full right joins in the relation-level theorem: their two batches are modelled exactly, but grouped results are only concatenated, so there is no single relation to compare with.
- What operators compute: group-by, sort, join matching and the duplicate elimination of a delim join are parameters.
- Tables filled from storage, their catalog and the result collection's conversion to DuckDB chunks.
- HashJoins.HashJoin.Execute: does not model what is in the hash table; the pairs of row ids and the marks are the kernel's. A freed table counts as a failure even where the pool has handed out its address again, which would free a stranger's block instead.
- NestedLoopJoins.NestedLoopJoin.Execute: does not model casts in conditions or the string offsets that Sink drops; of the key types it knows only whether all are 64-bit numbers.
- Filters.Select: does not model what the column library does when an expression reads a column without data that has row ids (a null column of a full right join that was filtered before) and no other column shows that data are missing; that outcome has a name of its own.
- LateMaterialization.Device.HandleMaterializeRowIDs: column data are values, so only row-id arrays can be shared, locked and freed; the data, offsets and masks that materializing an uncached column frees are not followed, and neither are types.
- LateFlows.Run: has no right, right semi and right anti joins, since these hand over two batches, which `HashJoins.HashJoin.GetData` and the pipeline theorems cover, and does not send columns through a CTE or a column-data scan; the data of its tables are cached, so materializing them frees nothing.
- BufferManager.BufferManager.MallocCached: does not model 64-bit wrap-around of sizes, or several GPUs.
- Expressions.Execute: does not model NULLs, casts, or arithmetic and string functions.
- Perfect-hash and partitioned aggregate checks, whose branches all build the same operator; recursive CTEs; fixed-width columns in TopN.
