# The Skyrise query engine: operators and the plans built from them

This project models the in-memory operators of Skyrise (hash join, sorted merge join, hash partitioning, multi-column
sort, limit, hash aggregation), the TPC-H plans that the generator composes from them, and some of the machinery around
them: the doubly linked plan graph and its rewrites, the breadth-first plan visitor, the lock-free maximum, the batching
of metrics and two JSON round trips. A table is a sequence of chunks, a chunk a sequence of equally long segments, and a
row position a pair of chunk and offset. Operators that keep state in fields are classes, loops are loops with
invariants, and each is proved against a plain specification: a nested-loop join, a lexicographic order, a plain
`GROUP BY`.

`dafny verify dfyconfig.toml` checks everything.

## How the modules fit together

| modules | subject |
|---|---|
| `Sequences`, `Storage`, `Ordering` | lists, bags, values with their order, tables, positions, reading with and without NULL flags; the order in numbers and bytes |
| `JoinMatching`, `SortedMerge`, `JoinReference`, `JoinOperator` | both join algorithms, the nested loop, the output with padded rows |
| `Partitioning`, `PartitionOperator` | hashes, the position cursor, partitions and the sort within them |
| `SortOperator`, `LimitOperator`, `TopRows` | passes, chunk slicing, the first n rows, the best k of the best k |
| `Aggregates`, `GroupKeys`, `AggregateHash`, `AggregatePasses`, `OrderedStringAgg`, `AggregateOperator`, `AggregateOutput`, `AggregateExecution` | accumulators, key schemes, result lookup with its cache, the passes, ordered strings, the output and what fails |
| `Arithmetic`, `PlainGroupBy` | aggregates as arithmetic on plain numbers and strings, the aggregation without its own vocabulary |
| `Shuffle`, `FileAssignment`, `RowGroups`, `TwoStages`, `QueryOne`, `QueryThree` | plans spread over workers, on rows |
| `QueryOneAnswer`, `QueryThreeAnswer` | what these plans compute from line items, customers and orders with plain numbers |
| `Gather`, `Pipelines`, `DistributedJoins`, `QueryPlans` | the same plans run by the operators |
| `Surprises` | operators on concrete inputs |
| `PlanGraph`, `PlanTraversal` | plan nodes, rewrites, visits |
| `AtomicMax`, `MetricsBatching`, `FragmentDefinition`, `ExpressionSerialization` | the rest |

## Where the code does not do what one would expect

Each of these is proved, with the exact condition where there is one.

- Joins and partitions read payload columns through `Values()`, which skips the NULL flags, so a NULL becomes 0 or the
  empty string in the output (`JoinReference.MatchedRowExact`, `Surprises.NullBecomesZero`,
  `PartitionOperator.PartitionRows`).
- The merge join reads the first value of every left chunk: it throws exactly when some left chunk is empty and some
  right chunk is not (`JoinOperator.JoinOperator.Execute`, `SortedMerge.MergeFill`, `Surprises.EmptyLeftChunk`).
- The partition cursor compares with `size - 1` on an unsigned type. It is right exactly when no chunk with rows follows
  an empty chunk; otherwise some partition gets a position that does not exist (`Partitioning.CursorExact`,
  `Partitioning.CursorLost`, `Surprises.LostCursor`).
- Sorting within partitions divides by zero as soon as one partition is empty (`PartitionOperator.Execute`,
  `Surprises.EmptyPartition`), and the *last* partition column becomes the most significant sort column. A distributed
  merge join therefore succeeds exactly when every producer has rows for every worker (`DistributedJoins.Run`).
- The sort operator throws when any cell of the table is NULL, although its passes order NULLs
  (`SortOperator.Execute`, `Surprises.NullInSort`).
- A negative `LIMIT` is converted to an unsigned number: the limit is at least 2'147'483'648, so smaller tables keep all
  their rows (`LimitOperator.Execute`).
- `STRING_AGG` of a column that does not hold strings is not refused beforehand like `SUM` of strings; it fails on the
  first value that is not NULL, and succeeds with NULL when there is none (`AggregateOutput.TakesExact`,
  `Surprises.StringsOfInts`).
- `STRING_AGG` loses the comma after leading empty strings; it equals the plain join with commas exactly when there is one
  string or the first one is not empty (`Aggregates.StringAggExact`). With `ORDER BY` the sort keys are read without NULL
  flags, and an empty list of sort columns yields the empty string (`OrderedStringAgg.Concatenate`).
- `GetInputSides` reports the left side twice for a parent that holds a node on both sides. A replaced or removed node
  therefore keeps a parent exactly when there is such a parent, while `InsertPlanNodeAbove` asks for the side anew each
  time and moves both (`PlanGraph.ReplacedNodeParents`, `PlanGraph.RemovedNodeParents`, `PlanGraph.InsertedAbove`).
- `FromJson(ToJson(d))` is `d` exactly when each import identity has objects, all with the bucket, partitions and prefix
  of the first and at least two `/` in each identifier (`FragmentDefinition.RoundTrip`).
- A `StringAggAggregateExpression` comes back from JSON as a plain `AggregateExpression`, without its order if it had
  one; the repository's equality compares neither (`ExpressionSerialization.RoundTripEquals`,
  `ExpressionSerialization.OrderLost`), while the aggregation casts every `STRING_AGG` down to that class
  (`src/lib/operator/aggregate_hash_operator.cpp:333-335`).

## Model

| member | source | states |
|---|---|---|
| JoinMatching.BuildHashTable | src/lib/operator/hash_join_operator.cpp:130-141 | the build table lists, for every value, exactly the positions that hold it, each once |
| JoinMatching.TakeMatches | src/lib/operator/hash_join_operator.cpp:170-177 | all partners of one probe row are appended once, their dangling bits are cleared and the counter stays the number of set bits |
| JoinMatching.ProbeChunk | src/lib/operator/hash_join_operator.cpp:152-182 | a probe chunk's list holds each matching pair exactly once, and its dangling offsets are exactly the rows without a partner, ascending |
| JoinMatching.HashFill | src/lib/operator/hash_join_operator.cpp:123-182 | after the probe the position lists, both dangling structures and both counters are those of the equal-key relation |
| SortedMerge.MergeChunkPair | src/lib/operator/sorted_merge_join_operator.cpp:119-163 | the three-index merge of two sorted chunks emits every pair with equal keys exactly once, runs of duplicates included, clears exactly the matched bits, and fails exactly on an empty left chunk with a non-empty right one |
| SortedMerge.MergeLeftChunk | src/lib/operator/sorted_merge_join_operator.cpp:104-165 | one left chunk against all right chunks extends the lists by its pairs and keeps both dangling bitmaps and counters exact |
| SortedMerge.MergeFill | src/lib/operator/sorted_merge_join_operator.cpp:87-175 | on chunk-wise sorted inputs the merge join leaves the same bookkeeping as specified for the hash join, or fails exactly when an empty left chunk meets a row on the right |
| Storage.NullReads | src/lib/storage/table/value_segment.cpp:58-66 | where the NULL flags are skipped, a NULL reads as 0, 0.0 or the empty string |
| Storage.ValidTableExact | src/lib/storage/table/value_segment.cpp:58-66 | a valid table has equally long segments in a chunk and NULLs in nullable columns only |
| JoinReference.NestedLoopExact | src/lib/operator/abstract_join_operator.cpp:63-97 | the reference nested loop lists each pair of positions with equal keys exactly once |
| JoinReference.FilledPairs | src/lib/operator/abstract_join_operator.cpp:114-186 | any correctly filled position lists are the nested loop up to order, also with the two sides switched |
| JoinReference.AlgorithmsAgree | src/lib/operator/sorted_merge_join_operator.cpp:104-175 | hash join and merge join agree chunk by chunk on the bag of matches and exactly on all dangling bookkeeping |
| JoinReference.DanglingRowsAreUnmatched | src/lib/operator/abstract_join_operator.cpp:206-281 | the dangling offsets list exactly the rows without a partner, in input order, and the counter is their number |
| JoinReference.UnpartneredExact | src/lib/operator/hash_join_operator.cpp:163-168 | a row is treated as unmatched exactly when no row of the other side has its key |
| JoinReference.MatchedRowExact | src/lib/storage/table/value_segment.cpp:58-66 | an output row is its two input rows exactly when neither holds a NULL |
| JoinReference.ReferenceByMode | src/lib/operator/abstract_join_operator.cpp:63-97 | mode by mode: the pairs of rows with equal key cells in all four modes; every left row without a partner exactly once in LeftOuter and FullOuter and in no other mode, the right ones likewise in RightOuter and FullOuter |
| JoinOperator.SchemaByMode | src/lib/operator/abstract_join_operator.cpp:63-82 | mode by mode which side's columns become nullable |
| JoinOperator.JoinOperator.FillPositionLists | src/lib/operator/hash_join_operator.cpp:107-128 | the sides are switched exactly for inner hash joins with a larger left input, and the fields are filled correctly for the chosen sides |
| JoinOperator.JoinOperator.MaterializeMatches | src/lib/operator/abstract_join_operator.cpp:99-186 | the chunk of matches has aligned columns, left columns first, and is the bag of joined rows whichever input is table A |
| JoinOperator.JoinOperator.MaterializeDanglingTuplesOfLeftTable | src/lib/operator/abstract_join_operator.cpp:206-244 | each unmatched left row once, in order, padded with NULL |
| JoinOperator.JoinOperator.MaterializeDanglingTuplesOfRightTable | src/lib/operator/abstract_join_operator.cpp:246-281 | each unmatched right row once, in order, padded with NULL |
| JoinOperator.JoinOperator.Execute | src/lib/operator/abstract_join_operator.cpp:63-97 | for both algorithms the output rows are the bag of the reference join, and mode by mode the equal-key pairs with each side's unmatched rows exactly where the mode asks for them, with the nullability of both sides; fails exactly on nullable or differently typed join columns, or where the merge join meets an empty left chunk and a right row |
| Partitioning.EqualValuesEqualHash | src/lib/operator/partitioning_function.cpp:53-72 | rows that agree on the partition columns, of one or of two tables, get the same hash |
| Partitioning.CombineColumn | src/lib/operator/partitioning_function.cpp:57-71 | the running row index combines each row's value into that row's hash and no other |
| Partitioning.CursorExact | src/lib/operator/partitioning_function.cpp:84-93 | without an empty chunk before a row the k-th cursor position is the k-th row position |
| Partitioning.CursorLost | src/lib/operator/partitioning_function.cpp:87-92 | otherwise the cursor hands out a position that does not exist |
| Partitioning.Partition | src/lib/operator/partitioning_function.cpp:47-96 | the lists are the rows of each partition in input order exactly when the cursor can be right; fails exactly when a partition column is missing or nullable |
| Partitioning.PartitionsComplete | src/lib/operator/partitioning_function.cpp:84-95 | all partitions together hold every row position exactly once |
| Partitioning.PartitionsOrdered | src/lib/operator/partitioning_function.cpp:84-95 | each partition keeps the input order, and rows with equal partition columns share a partition |
| PartitionOperator.SortPartition | src/lib/operator/partition_operator.cpp:80-95 | the passes over the partition columns leave the lexicographic order with the last column most significant, ties in input order |
| PartitionOperator.Execute | src/lib/operator/partition_operator.cpp:28-111 | chunk i holds partition i, sorted on request; all failures exactly, division by zero exactly when a partition to sort is empty |
| PartitionOperator.PartitionRows | src/lib/operator/partition_operator.cpp:43-108 | sorted or not, chunk i has exactly the rows of partition i, read without NULL flags |
| PartitionOperator.SortedForMerge | src/lib/operator/sorted_merge_join_operator.hpp:10-11 | a partition sorted within on one column meets the sortedness the merge join needs |
| Ordering.LessExact | src/lib/operator/sort_operator.hpp:59-69 | the order on values is `<` on numbers; on strings a proper prefix comes first, otherwise the smaller byte at the first difference |
| Ordering.BytesLessExact | src/lib/operator/sort_operator.hpp:59-69 | the same for the byte-wise recursion |
| SortOperator.LexOrderedUnique | src/lib/operator/sort_operator.cpp:42-56 | the promised order determines the result |
| SortOperator.StableSortOrders | src/lib/operator/sort_operator.hpp:59-69 | a stable sort by value keeps the previous order among equal values |
| SortOperator.PassOrders | src/lib/operator/sort_operator.hpp:55-83 | one pass puts its column in front of the columns sorted before: NULLs first in both modes, ties in the previous order |
| SortOperator.PassPermutes | src/lib/operator/sort_operator.hpp:55-83 | a pass loses and invents no row |
| SortOperator.SortImplementation.Sort | src/lib/operator/sort_operator.hpp:55-128 | the class with its two buffers computes that pass from the previous positions |
| SortOperator.SortPositions | src/lib/operator/sort_operator.cpp:40-53 | the reverse loop yields a permutation of all positions in lexicographic order |
| SortOperator.MaterializeOutputTable | src/lib/operator/sort_operator.cpp:59-120 | the chunks concatenate to the rows in the given order, their number is the rounded-up quotient, and the three failures happen exactly as stated |
| SortOperator.Execute | src/lib/operator/sort_operator.cpp:27-57 | the output rows are the rows in the promised order, in (n + 65534) / 65535 chunks of which all but the last hold 65535 rows; throws exactly when a sort column is missing or a cell is NULL |
| Ordering.LexBeforeExact | src/lib/operator/sort_operator.cpp:40-56 | that order in plain terms: the first column that tells two rows apart decides, by `<` or `>` on its numbers or bytes with NULL first; rows equal on all columns keep their input order |
| Ordering.SortInts | src/lib/operator/sort_operator.hpp:59-69 | running the operator on an int column leaves the same rows with the integers non-decreasing when ascending and non-increasing when descending |
| LimitOperator.Execute | src/lib/operator/limit_operator.cpp:24-89 | exactly the first n rows in order, across chunks, or all when there are fewer; a negative count counts as n + 2^32 |
| Aggregates.WelfordInvariant | src/lib/operator/abstract_aggregate_operator.hpp:114-118 | after n values the count is n, the mean sum/n and the squared distance the sum of (x - mean)^2 |
| Aggregates.WelfordIsSampleVariance | src/lib/operator/abstract_aggregate_operator.hpp:120-124 | for n > 1 the value under the root is the two-pass sample variance |
| Aggregates.StringAggExact | src/lib/operator/aggregate_hash_operator.cpp:376-394 | STRING_AGG is the join with commas exactly when there is one string or the first is not empty |
| Aggregates.FoldIsAggregate | src/lib/operator/aggregate_hash_operator.cpp:144-440 | accumulating and writing gives the mathematical aggregate of the values for every function, an integer for SUM over integers; for STRING_AGG when all values are strings |
| Arithmetic.RealAggregates | src/lib/operator/aggregate_hash_operator.cpp:144-440 | over fractions, without any reading function in between: SUM and AVG are the real sum and the sum over the count, MIN and MAX are values that are numerically at most and at least all others, STDDEV_SAMP has the two-pass variance, COUNT counts |
| Arithmetic.IntAggregates | src/lib/operator/aggregate_hash_operator.cpp:144-440 | over integers: SUM is the integer sum, AVG that sum over the count as a real, MIN and MAX by integer comparison |
| Arithmetic.TextAggregates | src/lib/operator/aggregate_hash_operator.cpp:358-394 | over strings: MIN and MAX by byte order, STRING_AGG the bytes with byte 44 in between from the first string that is not empty |
| Arithmetic.TwoTexts | src/lib/operator/aggregate_hash_operator.cpp:376-394 | STRING_AGG of two strings: the second one alone if the first is empty, both with a comma otherwise |
| GroupKeys.PackInjective | src/lib/operator/aggregate_hash_operator.cpp:736-771 | two strings of up to four bytes get the same packed key exactly when they are equal, lengths included |
| GroupKeys.CodeExact | src/lib/operator/aggregate_hash_operator.cpp:614-628 | direct codes of int32 values and short strings are equal exactly for equal values, never 0, and in the stated ranges |
| GroupKeys.EncodeColumn | src/lib/operator/aggregate_hash_operator.cpp:683-799 | the whole column is encoded by shift, packing or id map, and the id map stays injective and above all codes of short strings |
| GroupKeys.EncodedDistinguishes | src/lib/operator/aggregate_hash_operator.cpp:600-802 | two rows get the same entry exactly when their values agree, NULL equal to NULL, and bit 63 is clear |
| GroupKeys.ImmediateExact | src/lib/operator/aggregate_hash_operator.cpp:669-680 | the rewritten keys are equal exactly when the keys were, carry the cache bit, and their index is below the reserved size |
| GroupKeys.KeyBounds | src/lib/operator/aggregate_hash_operator.cpp:604-634 | the loop finds the smallest and the largest non-NULL key, both of which occur |
| GroupKeys.DenseExact | src/lib/operator/aggregate_hash_operator.cpp:648-660 | the test on the shifted keys holds exactly when the column has a value and its values spread over less than 1.2 times the row count |
| AggregateHash.GetOrAddResult | src/lib/operator/aggregate_hash_operator.cpp:45-121 | whatever mix of cached indexes, map hits and new entries, the row ends up at the result of its group; over-allocated entries stay blank and other groups are untouched |
| AggregateHash.ProcessRow | src/lib/operator/aggregate_hash_operator.cpp:501-519 | one row updates the result of its group with its non-NULL value, so the results keep standing for the rows so far; fails exactly on a value that the aggregator refuses |
| AggregatePasses.AggregateSegment | src/lib/operator/aggregate_hash_operator.cpp:484-534 | a segment's rows are all accounted for, and keys cached by an earlier context select the same groups; fails exactly when a value of the segment is refused |
| AggregatePasses.AggregateTable | src/lib/operator/aggregate_hash_operator.cpp:888-1037 | after all chunks and contexts every context stands for all rows under one common numbering of the groups; fails exactly when some context meets a value that its aggregator refuses |
| AggregatePasses.SameLive | src/lib/operator/aggregate_hash_operator.cpp:1256-1266 | all contexts have live results at the same indexes, so all columns list the same groups in the same order |
| AggregateOperator.WriteGroupByOutput | src/lib/operator/aggregate_hash_operator.cpp:1116-1183 | the GROUP BY columns are the cells of the witness rows |
| AggregateOperator.WriteOutput | src/lib/operator/aggregate_hash_operator.cpp:1219-1289 | the written columns are the plain GROUP BY: the restored values are the group's own and each cell is the aggregate of its group, joined in its own order for an ordered STRING_AGG |
| AggregateOperator.CellIsAggregate | src/lib/operator/aggregate_hash_operator.cpp:322-394 | what a context holds for a group are the group's non-NULL values with their rows: finished, they are its aggregate, and the rows handed to an ordered STRING_AGG are exactly those |
| AggregateOperator.GroupByUnique | src/lib/operator/aggregate_hash_operator.cpp:1040-1114 | the plain GROUP BY determines the output rows up to order |
| AggregateExecution.KeysTellGroups | src/lib/operator/aggregate_hash_operator.cpp:584-830 | composite keys are equal exactly when all GROUP BY values agree |
| AggregateExecution.ImmediateInjective | src/lib/operator/aggregate_hash_operator.cpp:659-681 | under the shortcut group and result index correspond one to one |
| AggregateExecution.AggregateHashOperator.PartitionByGroupByKeys | src/lib/operator/aggregate_hash_operator.cpp:540-831 | the keys tell the groups apart under every scheme, and the shortcut is taken exactly for a single, dense int column |
| AggregateExecution.AggregateHashOperator.Execute | src/lib/operator/aggregate_hash_operator.cpp:832-1114 | the output table is the plain GROUP BY, or one row over everything without GROUP BY columns: every group of the input once, each cell in plain arithmetic on the group's numbers or bytes, each column with the type and nullability written out, every cell of its column's type; fails exactly when an aggregate is SUM, AVG or STDDEV_SAMP of a string column, has an asterisk without being COUNT, or is STRING_AGG of a non-string column that holds a value |
| AggregateOutput.ValidateAggregates | src/lib/operator/abstract_aggregate_operator.cpp:60-84 | accepts exactly the lists without SUM, AVG or STDDEV_SAMP of a string column and without an asterisk outside COUNT |
| AggregateOutput.TakesExact | src/lib/operator/abstract_aggregate_operator.hpp:60-72 | an aggregate that passed validation meets a value it refuses exactly when it is STRING_AGG of a non-string column that holds a value |
| AggregateOutput.AggregateAll | src/lib/operator/aggregate_hash_operator.cpp:48-56 | with the empty key a single result aggregates all rows, ordered STRING_AGG included, NULL or 0 without values; fails exactly when a value is refused |
| AggregateOutput.AggregateCellFits | src/lib/operator/aggregate_hash_operator.cpp:1262-1279 | every aggregate has the type of its output column, and is NULL only in a nullable one |
| PlainGroupBy.AcceptedExact | src/lib/operator/abstract_aggregate_operator.cpp:60-84 | which aggregates are accepted, per function and column type: an asterisk for COUNT only, no sums, averages or deviations of strings, STRING_AGG of strings or of NULLs only |
| PlainGroupBy.DefinitionsExact | src/lib/operator/aggregate_hash_operator.cpp:1219-1279 | the output columns one by one: counts long and never NULL, sums of integers long and other sums double, averages and deviations double, STRING_AGG a string, minimum and maximum of their column's type |
| PlainGroupBy.CellExact | src/lib/operator/aggregate_hash_operator.cpp:1262-1289 | COUNT(*) is the number of the group's rows; every other cell is the aggregate of the plain numbers or strings in the group's non-NULL cells; an ordered STRING_AGG joins them in the order that `<` on the sort cells gives |
| PlainGroupBy.GroupsExact | src/lib/operator/aggregate_hash_operator.cpp:1040-1114 | every row of the input belongs to exactly one listed group, no group is empty, and each has its cells |
| OrderedStringAgg.SortGroup | src/lib/operator/aggregate_hash_operator.cpp:335-355 | the passes order the group's rows lexicographically by the stored sort cells, ties in input order |
| OrderedStringAgg.Concatenate | src/lib/operator/aggregate_hash_operator.cpp:332-394 | the cell joins the strings of the given rows in that order without the commas after leading empty strings; NULL exactly without rows, the empty string without sort columns |
| OrderedStringAgg.OrderedTextUnique | src/lib/operator/aggregate_hash_operator.cpp:335-355 | the order determines the text |
| Shuffle.PartitionWiseJoin | src/lib/compiler/pqp_generator/tpch_pqp_generator.cpp:435-443 | joining partition i with partition i over all i is the join of everything, for any hash and count |
| Shuffle.ReferenceIsRowJoin | src/lib/operator/abstract_join_operator.cpp:84-94 | the join over positions is the join over rows |
| Shuffle.PartitionIsShare | src/lib/operator/partitioning_function.cpp:84-93 | a partition's rows are the rows whose key hashes to it |
| Shuffle.DistributedJoin | src/lib/compiler/pqp_generator/tpch_pqp_generator.cpp:560-569 | workers that read partition i of all producers and run the join operator produce together the bag of the global join |
| DistributedJoins.PartitionOne | src/lib/operator/partition_operator.cpp:28-111 | partitioning one producer by one column succeeds exactly when the column is not nullable and, for a sort, no partition is empty |
| DistributedJoins.ReadsDelivered | src/lib/compiler/pqp_generator/tpch_pqp_generator.cpp:511-531 | the table with chunk i of every producer holds the rows of partition i of all producers |
| DistributedJoins.ReadsSorted | src/lib/operator/sorted_merge_join_operator.hpp:10-11 | partitioned with the sort, all chunks that a worker reads are sorted by the join column and none is empty, so the merge join may run on them |
| DistributedJoins.Run | src/lib/compiler/pqp_generator/tpch_pqp_generator.cpp:435-443 | partition operator on every producer, join operator on every worker, with either algorithm: the workers' tables together are the join of everything; succeeds exactly when the join columns agree and all producers can be partitioned |
| FileAssignment.GeneratePipeline | src/lib/compiler/pqp_generator/tpch_pqp_generator.cpp:103-126 | the round robin fills the workers' lists; fails exactly with fewer inputs than outputs, divides by zero exactly with inputs and no output |
| FileAssignment.AssignmentComplete | src/lib/compiler/pqp_generator/tpch_pqp_generator.cpp:115-117 | every file goes to exactly one worker |
| FileAssignment.AssignedExact | src/lib/compiler/pqp_generator/tpch_pqp_generator.cpp:115-117 | worker w gets files w, w + n, ... in order, so loads differ by at most one |
| FileAssignment.NobodyIdle | src/lib/compiler/pqp_generator/tpch_pqp_generator.cpp:109-110 | the assertion on the sizes ensures that every worker has a file |
| FileAssignment.WorkersReadEverything | src/lib/compiler/pqp_generator/tpch_pqp_generator.cpp:113-123 | the workers together read the rows of all files exactly once |
| FileAssignment.WorkersPrepareEverything | src/lib/compiler/pqp_generator/tpch_pqp_generator.cpp:113-123 | filtered and projected by the workers, the rows are those of one worker that reads all files |
| RowGroups.GroupByOfTable | src/lib/operator/aggregate_hash_operator.cpp:1040-1114 | the operator's GROUP BY of a table is the GROUP BY of its bag of rows, for aggregates without an order of their own |
| RowGroups.GroupByPermuted | src/lib/compiler/pqp_generator/tpch_pqp_generator.cpp:206-215 | sums, counts and averages per group do not depend on the order of the rows |
| RowGroups.GroupByApart | src/lib/compiler/pqp_generator/tpch_pqp_generator.cpp:582-587 | when no group is spread over two workers, aggregating per worker is aggregating everything |
| TwoStages.TwoStageAggregation | src/lib/compiler/pqp_generator/tpch_pqp_generator.cpp:239-250 | summing partial sums and counts gives the groups of all rows with their sums and counts, for any number of workers |
| Pipelines.RunAggregate | src/lib/operator/aggregate_hash_operator.cpp:832-1114 | run on a table of rows, the operator succeeds for counts and numeric sums and leaves the GROUP BY of those rows, in columns that can be summed again |
| Pipelines.RunAggregates | src/lib/compiler/pqp_generator/tpch_pqp_generator.cpp:206-215 | every worker does so for its table |
| QueryOne.AverageAgrees | src/lib/compiler/pqp_generator/tpch_pqp_generator.cpp:252-263 | re-summed sum divided by re-summed COUNT(*) is the average of a column without NULL |
| QueryOne.QueryOneCorrect | src/lib/compiler/pqp_generator/tpch_pqp_generator.cpp:165-263 | for all files and every worker count the generated two pipelines give exactly the rows of the single-stage query, integer counts included |
| QueryOne.QueryOneSorted | src/lib/compiler/pqp_generator/tpch_pqp_generator.cpp:266-270 | after the final sort the generated plan and the single-stage query give the same rows in the same order |
| QueryOneAnswer.ShippedExact | src/lib/compiler/pqp_generator/tpch_pqp_generator.cpp:177-183 | the filter keeps a line item exactly when 1998-09-02 does not come before its ship date in byte order |
| QueryOneAnswer.ProjectedExact | src/lib/compiler/pqp_generator/tpch_pqp_generator.cpp:185-202 | for every line item with quantity q, price p, discount d and tax t the projection gives p(1 - d), q, p, d, flag, status and p(1 - d)(1 + t) |
| QueryOneAnswer.QueryOneInReals | src/lib/compiler/pqp_generator/tpch_pqp_generator.cpp:165-263 | for all files of line items and any number of workers the generated plan ends with one row for each flag and status among the line items shipped in time: the real sums of p(1 - d), q, p and p(1 - d)(1 + t), their number, and the averages of q, p and d |
| QueryOneAnswer.AnswersInOrder | src/lib/compiler/pqp_generator/tpch_pqp_generator.cpp:267-270 | the final sort leaves that answer going up by flag, then by status, in byte order |
| QueryPlans.RunQueryOne | src/lib/compiler/pqp_generator/tpch_pqp_generator.cpp:206-263 | two stages of the aggregation operator, run on the workers' projected line items, end with the rows of the single-stage query over all files |
| QueryPlans.RunQueryOneInReals | src/lib/compiler/pqp_generator/tpch_pqp_generator.cpp:206-263 | two stages of the aggregation operator, run on the workers' line items, end with that answer |
| QueryThree.WorkersApart | src/lib/compiler/pqp_generator/tpch_pqp_generator.cpp:435-443 | partitioning by order key keeps each group on one worker |
| QueryThree.WorkersGroupEverything | src/lib/compiler/pqp_generator/tpch_pqp_generator.cpp:560-587 | the workers' groups are the groups of the global join with the same revenue |
| QueryThree.QueryThreeCorrect | src/lib/compiler/pqp_generator/tpch_pqp_generator.cpp:320-652 | from the files of customers, orders and line items through both filters and both partitioned joins: the ten best of the workers' ten best are ten best groups of the query over everything, with exactly its sort keys |
| QueryThree.BothJoins | src/lib/compiler/pqp_generator/tpch_pqp_generator.cpp:477-569 | two partitioned joins in a row, projected in between, yield the rows of the two global joins |
| QueryThreeAnswer.CustomersKept | src/lib/compiler/pqp_generator/tpch_pqp_generator.cpp:368-382 | pipeline 2 keeps the keys of exactly the customers of the segment BUILDING |
| QueryThreeAnswer.OrdersKept | src/lib/compiler/pqp_generator/tpch_pqp_generator.cpp:327-336 | pipeline 1 keeps exactly the orders dated before 1995-03-15 in byte order |
| QueryThreeAnswer.SoldsKept | src/lib/compiler/pqp_generator/tpch_pqp_generator.cpp:414-430 | pipeline 3 keeps exactly the line items shipped after 1995-03-15 |
| QueryThreeAnswer.PricedExact | src/lib/compiler/pqp_generator/tpch_pqp_generator.cpp:571-580 | the projection behind the last join gives key, date, priority and p(1 - d) |
| QueryThreeAnswer.QueryRowsExact | src/lib/compiler/pqp_generator/tpch_pqp_generator.cpp:320-580 | filters, joins and projections leave one row for every late line item of every early order of every customer of the segment |
| QueryThreeAnswer.QueryThreeInReals | src/lib/compiler/pqp_generator/tpch_pqp_generator.cpp:320-652 | for all files, any hash and any numbers of workers: the workers' groups are the orders with the real sum of p(1 - d) over their sales, each once, and the plan ends with ten of them, or all when there are fewer, most revenue first and earlier dates first among equals, none left out being better |
| QueryPlans.RunIsJoin | src/lib/compiler/pqp_generator/tpch_pqp_generator.cpp:435-443 | the distributed join as run by the operators gives each worker what the query expects of it |
| QueryPlans.RunQueryThree | src/lib/compiler/pqp_generator/tpch_pqp_generator.cpp:571-652 | aggregation, sort and limit per worker, then sort and limit over what they kept, run by the operators, end with ten best groups of the query over everything |
| QueryPlans.RunQueryThreeInReals | src/lib/compiler/pqp_generator/tpch_pqp_generator.cpp:571-652 | aggregation, sort and limit, run by the operators, end with those ten orders |
| TopRows.TopOfTops | src/lib/compiler/pqp_generator/tpch_pqp_generator.cpp:589-597 | the first k keys of the parts' first k keys are the first k keys of everything |
| TopRows.SortedKeys | src/lib/operator/sort_operator.cpp:42-56 | the sort operator's output has the keys of the sorted bag of input keys |
| TopRows.TopExact | src/lib/compiler/pqp_generator/tpch_pqp_generator.cpp:589-597 | the top has min(k, n) rows in order, and no row that is left out comes before any of them |
| TopRows.SortedRowsUnique | src/lib/operator/sort_operator.cpp:42-56 | tables with the same bag of rows and distinct sort keys come out of the sort operator row by row the same |
| TopRows.SortLimit | src/lib/compiler/pqp_generator/tpch_pqp_generator.cpp:589-597 | running sort and limit leaves rows of the input with its first k keys; succeeds exactly without NULL and with existing columns |
| TopRows.DistributedTop | src/lib/compiler/pqp_generator/tpch_pqp_generator.cpp:645-652 | sort-limit per worker, then over the union, is sort-limit over all rows |
| PlanGraph.PlanNode.SetInput | src/lib/compiler/abstract_plan_node.hpp:105-123 | changes the input on the given side, keeps the other one, and keeps every link recorded on both ends as often as it exists |
| PlanGraph.PlanNode.Retie | src/lib/compiler/abstract_plan_node.hpp:114-122 | one occurrence leaves the old input's outputs, one is appended to the new input's, all others stay as they are |
| PlanGraph.PlanNode.RemoveOutputPointer | src/lib/compiler/abstract_plan_node.hpp:198-218 | removes the first occurrence; the links guarantee that it is found |
| PlanGraph.PlanNode.GetInputSide | src/lib/compiler/abstract_plan_node.hpp:129-136 | the reported side of a parent does hold the node, and is the left one exactly when the left input is the node |
| PlanGraph.GetInputSides | src/lib/compiler/abstract_plan_node.hpp:141-152 | one side per output, the left one for a parent on both sides |
| PlanGraph.ReplacePlanNode | src/lib/compiler/plan_utils.hpp:11-32 | the new inputs of every node, links intact; refuses exactly a replacement that is tied already |
| PlanGraph.RelinkParents | src/lib/compiler/plan_utils.hpp:43-48 | the loop asks for the side anew each time and so replaces the node on both sides of every parent |
| PlanGraph.InsertPlanNodeAbove | src/lib/compiler/plan_utils.hpp:35-52 | all parents hold the inserted node on the sides where they held the node |
| PlanGraph.InsertPlanNodeBelow | src/lib/compiler/plan_utils.hpp:55-67 | the parent holds the inserted node, which holds the parent's old input |
| PlanGraph.RemovePlanNode | src/lib/compiler/plan_utils.hpp:74-92 | parents get the node's left input on the reported sides, links intact |
| PlanGraph.ReplacedNodeParents | src/lib/compiler/plan_utils.hpp:18-31 | a replaced node keeps a parent exactly when one held it on both sides |
| PlanGraph.RemovedNodeParents | src/lib/compiler/plan_utils.hpp:80-91 | a removed node keeps a parent exactly when one held it on both sides |
| PlanGraph.InsertedAbove | src/lib/compiler/plan_utils.hpp:43-51 | the inserted node becomes the only parent, and old parents hold it on the same sides |
| PlanGraph.InsertAboveThenRemove | src/lib/compiler/plan_utils.hpp:35-92 | removing what was inserted above restores the plan exactly when no parent held the node twice |
| PlanGraph.InsertBelowThenRemove | src/lib/compiler/plan_utils.hpp:55-92 | removing what was inserted below restores the plan |
| PlanGraph.ReplaceBack | src/lib/compiler/plan_utils.hpp:11-32 | replacing back restores the plan |
| PlanGraph.InsertAboveKeepsAcyclic | src/lib/compiler/plan_utils.hpp:35-52 | an insertion above keeps the plan acyclic |
| PlanGraph.InsertBelowKeepsAcyclic | src/lib/compiler/plan_utils.hpp:55-67 | an insertion below keeps the plan acyclic |
| PlanGraph.ReplaceKeepsAcyclic | src/lib/compiler/plan_utils.hpp:11-32 | a replacement keeps the plan acyclic |
| PlanGraph.RemoveKeepsAcyclic | src/lib/compiler/plan_utils.hpp:74-92 | a removal keeps the plan acyclic |
| PlanTraversal.BreadthFirst | src/lib/compiler/physical_query_plan/pqp_utils.hpp:27-53 | terminates on finite graphs, cycles included, and visits exactly the reachable nodes, each once, in the order of their shortest distance; the order is that of the queue without repetitions |
| PlanTraversal.InputsReach | src/lib/compiler/physical_query_plan/pqp_utils.hpp:44-51 | a node is pushed from another exactly when that one is expanded and it is its left or its right input; what the traversal reaches is what paths of such steps reach |
| PlanTraversal.OutputsReach | src/lib/compiler/physical_query_plan/pqp_utils.hpp:81-85 | the same upwards, for every member of the outputs |
| PlanTraversal.VisitPqp | src/lib/compiler/physical_query_plan/pqp_utils.hpp:27-53 | the visitor is called once on each node that a path of left and right inputs of expanded nodes reaches, and on no other, left inputs before right ones |
| PlanTraversal.VisitPqpUpwards | src/lib/compiler/physical_query_plan/pqp_utils.hpp:66-87 | the same along paths of outputs |
| PlanTraversal.PqpFindLeaves | src/lib/compiler/physical_query_plan/pqp_utils.cpp:7-19 | every node without left input at the end of a path of left and right inputs of nodes that have a left input, exactly once; the assertion fails exactly when there is none |
| PlanTraversal.LeafBelow | src/lib/compiler/physical_query_plan/pqp_utils.cpp:17 | in an acyclic plan there always is a leaf, so the assertion never fails |
| PlanTraversal.PrefixIdentities | src/lib/compiler/physical_query_plan/pqp_utils.cpp:21-26 | every identity that a path of left and right inputs reaches is prefixed exactly once, the others stay; refuses exactly the empty prefix |
| AtomicMax.RunKeeps | src/lib/operator/aggregate_hash_operator.cpp:813-821 | in every interleaving the value never falls, and a job that is done left a value at least its own size |
| AtomicMax.MaximumReached | src/lib/operator/aggregate_hash_operator.cpp:813-821 | when all jobs are done the value is the maximum of the initial value and all sizes |
| AtomicMax.RunsEnd | src/lib/operator/aggregate_hash_operator.cpp:814-821 | no interleaving lets the jobs spin forever: n jobs take at most n(n + 2) steps |
| MetricsBatching.Spread | src/lib/monitoring/metrics_collector.cpp:72-90 | every message in exactly one of (n + 9) / 10 batches, each with one to ten messages, and no index out of range |
| MetricsBatching.MetricsCollector.CollectMetrics | src/lib/monitoring/metrics_collector.cpp:49-56 | metrics are accepted exactly when an operator and a stage are set |
| MetricsBatching.MetricsCollector.EnterOperator | src/lib/monitoring/metrics_collector.cpp:27-34 | nothing collected before is lost or relabelled when the operator changes |
| MetricsBatching.MetricsCollector.EnterStage | src/lib/monitoring/metrics_collector.cpp:36-47 | the same for the stage; without an operator nothing happens |
| MetricsBatching.MetricsCollector.Destroy | src/lib/monitoring/metrics_collector.cpp:21-25 | in the end every accepted metric was sent exactly once, with the operator and stage it was collected in |
| FragmentDefinition.SplitExact | src/lib/compiler/physical_query_plan/pipeline_fragment_template.cpp:72-83 | a/b/c with b and c free of / is split into the prefix a and the suffix b/c, for any a |
| FragmentDefinition.NothingSplit | src/lib/compiler/physical_query_plan/pipeline_fragment_template.cpp:72-83 | prefix and suffix are both the whole identifier exactly when it has fewer than two / |
| FragmentDefinition.RebuiltExact | src/lib/compiler/physical_query_plan/pipeline_fragment_template.cpp:72-83 | prefix and suffix rebuild an identifier exactly when it has two separators and the same prefix |
| FragmentDefinition.InputRoundTrip | src/lib/compiler/physical_query_plan/pipeline_fragment_template.cpp:69-92 | the objects of one identity survive exactly when they share bucket, partitions and prefix |
| FragmentDefinition.ToJson | src/lib/compiler/physical_query_plan/pipeline_fragment_template.cpp:63-101 | every identity with objects is written as specified, in any traversal order of the map |
| FragmentDefinition.FromJson | src/lib/compiler/physical_query_plan/pipeline_fragment_template.cpp:42-61 | reads back one entry per identity with objects |
| FragmentDefinition.RoundTrip | src/lib/compiler/physical_query_plan/pipeline_fragment_template.cpp:37-101 | FromJson(ToJson(d)) is d if and only if every identity has objects that can be shortened alike |
| ExpressionSerialization.FieldsExact | src/lib/expression/expression_serialization.cpp:41-111 | the names and values written for each class of expression and each type of literal |
| ExpressionSerialization.NamesExact | src/lib/expression/expression_serialization.cpp:135-262 | the enumerator names that each class may hold |
| ExpressionSerialization.SerializeArguments | src/lib/expression/expression_serialization.cpp:33-39 | the loop serialises the arguments one by one, in order |
| ExpressionSerialization.DeserializeArguments | src/lib/expression/expression_serialization.cpp:117-133 | the loop reads them back in order; the first failure is the result |
| ExpressionSerialization.NodeRoundTrip | src/lib/expression/expression_serialization.cpp:135-262 | every class comes back with its members exactly when the argument count is the one its constructor takes, the subclass for STRING_AGG as its base class |
| ExpressionSerialization.RoundTrip | src/lib/expression/expression_serialization.cpp:266-361 | the round trip succeeds exactly for well-formed trees and then only puts the base class in place of each StringAggAggregateExpression; otherwise an arity assertion fires |
| ExpressionSerialization.RoundTripEquals | src/lib/expression/abstract_expression.cpp:21-37 | the result equals the expression under the repository's equality, and is the same expression exactly when no node is a StringAggAggregateExpression |
| ExpressionSerialization.EqualsReduced | src/lib/expression/abstract_expression.cpp:21-37 | two expressions are equal exactly when they are the same tree up to the subclass for STRING_AGG, hence unequal in every other case |
| ExpressionSerialization.EqualsExact | src/lib/expression/abstract_expression.cpp:21-37 | well-formed expressions are equal exactly when they are written as the same JSON |
| ExpressionSerialization.ReadReadable | src/lib/expression/expression_serialization.cpp:330-361 | whatever JSON is read without a failure gives a properly typed, well-formed expression |
| ExpressionSerialization.ReadStays | src/lib/expression/expression_serialization.cpp:266-361 | such an expression comes back as itself when it is written and read once more |
| ExpressionSerialization.UnknownExact | src/lib/expression/expression_serialization.cpp:135-258 | the empty optional is read exactly for an unknown name, where aggregates, casts and columns check their arguments first |
| ExpressionSerialization.OrderLost | src/lib/expression/string_agg_aggregate_expression.cpp:5-16 | STRING_AGG of a column comes back as the same plain aggregate whether it had no order, an empty one or a proper one |
| Surprises.NullBecomesZero | src/lib/operator/abstract_join_operator.cpp:142-155 | the inner join of (7, NULL) with (7) is the one row (7, 0, 7), with either algorithm |
| Surprises.EmptyLeftChunk | src/lib/operator/sorted_merge_join_operator.cpp:119-127 | one empty left chunk and one right row: the merge join throws and the hash join does not, in every mode |
| Surprises.LostCursor | src/lib/operator/partitioning_function.cpp:84-93 | an empty chunk followed by one row: the single partition gets a position that does not exist |
| Surprises.EmptyPartition | src/lib/operator/partition_operator.cpp:80-95 | one row in two sorted partitions divides by zero, whatever the hash |
| Surprises.NullInSort | src/lib/operator/sort_operator.cpp:59-120 | one row with a NULL cannot be sorted, by whichever column |
| Surprises.StringsOfInts | src/lib/operator/abstract_aggregate_operator.hpp:60-72 | STRING_AGG over an int column with one value fails, with and without GROUP BY |

## Left out

- Floating-point rounding, NaN and int64 overflow: numbers are exact integers and reals.
- Aggregates.FoldIsAggregate: STDDEV_SAMP is stated as the variance under the root; the root itself is not modelled.
- Arithmetic.RealAggregates: the same for STDDEV_SAMP; Arithmetic.IntAggregates and PlainGroupBy.CellExact likewise.
- The ANY pseudo-aggregate; GROUP BY output is written only from aggregate 0, and ANY does not get there.
- PartitionOperator.Execute: expects that no chunk with rows follows an empty chunk; elsewhere the partitioning itself
  yields positions that do not exist (Partitioning.CursorLost) and what is read there is undefined.
- AggregateExecution.AggregateHashOperator.Execute: expects cells of their column's type, fewer rows than 2^62 and
  existing columns, which the storage layer and debug assertions guarantee, and a STRING_AGG that is of the class for it,
  so not one that was read from JSON.
- RowGroups.GroupByOfTable: leaves out STRING_AGG with an order of its own, whose ties depend on where the rows stand.
- Type dispatch: one value type with a total order per column type stands for the instantiated templates; the hash is an
  arbitrary function.
- The traversal order of `unordered_multimap` and `unordered_map`: joins are stated as bags, JSON for every order.
- Job scheduling and threads, apart from the compare-exchange loop, which takes loads and exchanges as atomic steps.
- The distribution of partitions to workers (`BuildPipelineFragmentsInputsMap`) is not part of this model: worker i reads
  chunk i of every producer's table in DistributedJoins.Run.
- QueryThree.QueryThreeCorrect: covers the partitioned joins; broadcast joins before the per-worker limit may split groups.
- QueryPlans.RunQueryOneInReals: starts from the filtered and projected line items of the workers; evaluating the filter
  and the projection inside the operators is not part of this model.
- QueryPlans.RunQueryThree: starts from the priced rows of the last join; the projections in between evaluate
  expressions, which is not part of this model, so tables with the projected rows are premises.
- QueryPlans.RunQueryThreeInReals: the same premises as QueryPlans.RunQueryThree.
- QueryThreeAnswer.QueryThreeInReals: the files hold no NULL, as the generated columns are not nullable; rows with NULL are
  covered by QueryThree.QueryThreeCorrect.
- Queries 5, 6 and 12 and the other generators, which use the same steps.
- The debug-only assertion that a node accepts a right input, destructors, weak pointers and reference counts of plan
  nodes.
- PlanGraph.RemovePlanNode: expects a node that is not its own input, as plans are acyclic.
- Timestamps and identifiers of metric messages, the queue client and its errors.
- JSON text: JSON values are records of named fields; parsing, printing and digits of doubles are outside.
- Storage formats, S3, Lambda, SQS, Glue, catalogues, expression evaluation and filters other than those of queries 1 and 3.
