# External merge sort of 8-byte records, modelled in Dafny

This project models the sorting engine of a small external-sort web service.
The engine is the `ExternalMergeSorter` class of `sorter/external_merge_sort.py`.
It sorts a binary file of 8-byte records in four stages:

- `generate_runs` cuts the input into blocks of `block_size` records, sorts each block and writes it as a run file. Run `r` goes into bucket `r % k`.
- `merge_k_runs` merges up to `k` runs with a heap keyed on `(value, source index)`.
- `merge_pass` merges consecutive groups of `k` runs.
- `multi_pass_merge` flattens the buckets and runs passes until one run is left.

`sort` then moves that run to the destination and always removes the work directory.
The `external_merge_sort` wrapper takes `block_size` and `k` from the tuner of `sorter/auto_config.py`.
The tuner has two parts:

- `choose_k` picks the fan-in from the file size.
- `auto_tune_params` picks the block size from the memory budget and the file size.

The model also covers the event log of `VisualizeSort._merge_with_steps`, which is the same merge with a step appended for every heap push, pop and written record.

How the model represents the system:

- A record is the order key of a double: an unsigned 64-bit integer (`Records.Record`) obtained from the double's bit pattern by flipping the sign bit of a non-negative pattern and every bit of a negative one (`Codec.KeyOfBits`). Comparing keys compares the doubles, negative values included (`Codec.KeyOrderIsValueOrder`, `Codec.NegativeBeforePositive`).
- `struct.pack`/`struct.unpack` are a little-endian 8-byte codec between records and bit patterns (`Codec`). Its round trips are proved. A byte string whose length is not a multiple of 8 is the `struct.error` case.
- The machine's files are the `files` map of `Sorter.FileSystem`, from path to bytes.
- The temporary work directory is a map from run name to the records of that run. `Passes.RunName` is the file name `run<id>.bin` or `pass<p>_run<g>.bin`.
- `heapq` is an abstract priority queue: a sequence of `(value, source)` entries from which a least entry is removed. `KMerge.HeapPop` finds it by a linear scan.
- Reading a run record by record is modelled by the run's remaining records (`KMerge.NextRecord`, `KMerge.Advance`).
- The memory budget that the tuner reads from `psutil`, and the file size, are parameters.
- How `sort` ends is a datatype, `Sorter.SortOutcome`: done, an exception, or divergence.

Each loop of the modelled operations is a `while`/`for` loop of a Dafny method. Each loop is proved against a specification function or a direct postcondition:
- the read loop, the heap loop, the pass loop and the step log each against a recursive specification function;
- `heappop` against a least-entry and multiset postcondition;
- the seeding loop against the heap invariant `KMerge.HeapOf`.

The properties are then proved about the specification functions.

Four behaviours of the code are worth stating outright, each with the lemma that states it:

- **Empty input.** An empty input makes `multi_pass_merge` raise `IndexError` at `current_runs[0]`. So `sort` fails without writing or removing the destination, instead of producing an empty output file (`Sorter.SortSpecCases`, `Sorter.TunedSortOutcome`).
- **Memory budget.** At the 4096-record floor, the k + 1 buffers the tuner allows for can exceed the memory budget (`AutoConfig.AutoTuneFloorExceedsBudget`). Above the floor they always fit (`AutoConfig.AutoTuneFitsMemory`).
- **Consumed runs.** A pass deletes none of the runs it consumes. Every generation stays in the work directory until `cleanup` (`Passes.MergeAllFrame`).
- **Merge order.** The runs are merged in bucket-major order, not in the order they were read (`Passes.BucketMajorOrder`).

Parameter independence follows from `Sorter.MultiPassResult` and `Sorter.ExternalMergeSorter.Sort`: whenever the sort succeeds, the destination holds the sorted input, whatever the block size and fan-in.

## Model

| member | source | states |
|---|---|---|
| Records.Sorted | sorter/check.py:12 | defines the sortedness the output must have: every earlier record is at most every later one (equivalent to the checking script's adjacent test by `Records.AdjacentCheckIsSorted`) |
| Records.SortRecords | sorter/external_merge_sort.py:46 | defines `nums.sort()` on one block; its meaning, a non-decreasing permutation, is stated by `Records.SortRecordsSpec` |
| Records.AdjacentCheckIsSorted | sorter/check.py:12 | the adjacent-pair test of the checking script accepts a sequence exactly when every earlier record is at most every later one |
| Records.SortRecordsSpec | sorter/external_merge_sort.py:46 | sorting a block gives a non-decreasing permutation of it |
| Records.SortedPermutationIsSortRecords | sorter/external_merge_sort.py:46 | any non-decreasing permutation of a block is its sorted form, so the sorted output is unique |
| Records.SortRecordsOfSorted | sorter/external_merge_sort.py:46 | sorting an already sorted sequence leaves it unchanged |
| Records.FlattenAppend | sorter/external_merge_sort.py:82-84 | extending a list by several lists is the concatenation of their contents |
| Codec.KeyOfBits | sorter/external_merge_sort.py:30 | maps a double's 64-bit pattern to its order key; the key is in the upper half exactly when the sign bit is clear |
| Codec.BitsOfKey | sorter/external_merge_sort.py:49 | maps an order key back to the bit pattern it came from, so the key map is one-to-one |
| Codec.KeyOrderIsValueOrder | sorter/external_merge_sort.py:46 | comparing keys compares the doubles: a smaller sign-magnitude value has a smaller key, a smaller key never has a larger value, and equal keys mean equal bit patterns |
| Codec.NegativeBeforePositive | sorter/external_merge_sort.py:46 | -1.0 sorts before 1.0 although its bit pattern is the larger unsigned number |
| Codec.EncodeRecord | sorter/external_merge_sort.py:63 | `struct.pack("d", value)` gives 8 bytes: the record's bit pattern, little-endian |
| Codec.DecodeRecord | sorter/external_merge_sort.py:36 | `struct.unpack("d", data)` on 8 bytes gives the record those bytes pack from |
| Codec.EncodeAll | sorter/external_merge_sort.py:49 | `struct.pack` of n records is 8·n bytes |
| Codec.DecodeAll | sorter/external_merge_sort.py:30 | `struct.unpack` of a whole-record byte string gives one record per 8 bytes |
| Codec.DecodeOfEncodeRecord | sorter/external_merge_sort.py:63 | unpacking one packed record gives the record back |
| Codec.DecodeAllOfEncodeAll | sorter/external_merge_sort.py:49 | a run written with `struct.pack` reads back as the same records |
| Codec.EncodeAllOfDecodeAll | sorter/external_merge_sort.py:30 | a whole-record byte string is exactly the packing of what it unpacks to |
| Codec.DecodeAllAppend | sorter/external_merge_sort.py:27-30 | unpacking two whole-record byte strings one after the other is unpacking their concatenation |
| Codec.Unpack | sorter/external_merge_sort.py:30 | unpacking succeeds exactly on a whole number of records and otherwise raises `struct.error`; on success the bytes are the packing of the result |
| Codec.ReadSize | sorter/external_merge_sort.py:27 | `f.read(8 * block_size)` takes at most what is left, everything that is left when the size is negative, and `8 * block_size` bytes otherwise |
| Codec.ReadBlock | sorter/external_merge_sort.py:26-30 | `_read_block` gives None exactly at end of file (or for a zero size), raises `struct.error` exactly on a partial record, and otherwise gives a non-empty block of at most `block_size` records whose packing is the bytes read |
| Codec.ReadDouble | sorter/external_merge_sort.py:32-36 | `_read_double` gives None exactly at end of file, raises exactly when 1 to 7 bytes are left, and otherwise gives the record packed in the next 8 bytes |
| Codec.ReadDoubleOfPacked | sorter/external_merge_sort.py:32-36 | reading a packed run at record j gives record j, and None just past the last record |
| Codec.ByteChunks | sorter/external_merge_sort.py:27 | defines the successive `f.read(8 * block_size)` chunks of the input; `Codec.ByteChunksPartition` states that they split it |
| Codec.ByteChunksPartition | sorter/external_merge_sort.py:42-45 | the blocks the read loop takes are non-empty; for a non-zero size they concatenate to the input, and for a positive size each holds at most `8 * block_size` bytes and every block but the last exactly that many |
| Codec.ByteChunksWhole | sorter/external_merge_sort.py:27-30 | every block is whole records exactly when the input is (or the size is zero) |
| Codec.ByteChunksCount | sorter/external_merge_sort.py:42-51 | for a positive size, the number of blocks is the input length divided by the block's byte size, rounded up |
| Codec.InputBlocks | sorter/external_merge_sort.py:38-51 | on a whole-record input the decoded blocks concatenate to the input's records, each has 1 to `block_size` records, and every block but the last has exactly `block_size` |
| KMerge.EntryLe | sorter/external_merge_sort.py:59-62 | defines heapq's order on `(value, idx)` tuples: by value, then by source index |
| KMerge.MergeTrace | sorter/external_merge_sort.py:61-66 | defines the entries the heap loop pops: at every step the least `(value, idx)` among the sources' next unread records |
| KMerge.Merge | sorter/external_merge_sort.py:53-68 | defines the run `merge_k_runs` writes as the values of `KMerge.MergeTrace`; its properties are `KMerge.MergeSortedPermutation` and `KMerge.MergeTieBreak` |
| KMerge.MinLive | sorter/external_merge_sort.py:62 | the heap's minimum is a source whose next record is least by (value, source index), and there is none exactly when every source is exhausted |
| KMerge.MergeTracePermutation | sorter/external_merge_sort.py:53-68 | the merge emits every record of the inputs once: its output is a permutation of their concatenation |
| KMerge.MergeTraceLexSorted | sorter/external_merge_sort.py:61-66 | on sorted inputs the popped entries come out in (value, source index) order |
| KMerge.MergeSortedPermutation | sorter/external_merge_sort.py:53-68 | on sorted inputs the merged run is non-decreasing, a permutation of the input runs, and as long as all of them together |
| KMerge.MergePermutation | sorter/external_merge_sort.py:53-68 | whatever the inputs, the merged run is a permutation of their concatenation |
| KMerge.MergeTieBreak | sorter/external_merge_sort.py:59-62 | among equal values the merge emits the lower source index first |
| KMerge.MergeOfOne | sorter/external_merge_sort.py:53-68 | merging a single run copies it |
| KMerge.NextRecord | sorter/external_merge_sort.py:57 | reading the next record of a run gives None exactly at its end, and otherwise its first unread record |
| KMerge.Advance | sorter/external_merge_sort.py:57 | after a read, what is left of the run is the run without the record read |
| KMerge.HeapPop | sorter/external_merge_sort.py:62 | `heappop` removes an entry no greater than any in the heap; the rest together with it is the old heap |
| KMerge.SeedStep | sorter/external_merge_sort.py:56-59 | one turn of the first loop reads source n's first record and keeps the seeding invariant for the next source |
| KMerge.SeedHeap | sorter/external_merge_sort.py:56-59 | after the first loop every source has had its first record read, and the heap holds exactly one entry, the head, per non-empty source |
| KMerge.MergeLoopStep | sorter/external_merge_sort.py:61-66 | one turn of the `while heap` loop keeps the invariant that the heap holds, once, the next unread record of each unfinished source, and it strictly shrinks what is left |
| KMerge.PoppedIsMinLive | sorter/external_merge_sort.py:62 | under that invariant the popped entry is the head of the source `KMerge.MinLive` picks next |
| KMerge.PushKeepsHeapOf | sorter/external_merge_sort.py:64-66 | pushing the popped source's next record, if any, restores one head per unfinished source |
| KMerge.KWayMerge | sorter/external_merge_sort.py:53-68 | the heap-based merge writes exactly the merge of its input runs |
| Passes.Bucket | sorter/external_merge_sort.py:50 | defines bucket b after n runs: the run names whose id is b modulo k, in read order (`Passes.BucketContents`) |
| Passes.Buckets | sorter/external_merge_sort.py:39 | there are k buckets |
| Passes.BucketsStep | sorter/external_merge_sort.py:50 | writing run n appends its name to bucket `n % k` and changes no other bucket |
| Passes.BucketContents | sorter/external_merge_sort.py:50 | bucket b holds exactly the runs whose id is `b` mod k, in increasing id order |
| Passes.BucketsFlattenPermutation | sorter/external_merge_sort.py:82-84 | the flattened buckets name every generated run exactly once |
| Passes.BucketMajorOrder | sorter/external_merge_sort.py:82-84 | the flattened list is in bucket-major order, not read order: three runs with k = 2 give run0, run2, run1 |
| Passes.Groups | sorter/external_merge_sort.py:73 | defines the slices `runs[i:i + k]` for i = 0, k, 2k, …; `Passes.GroupsPartition` states that they partition the list |
| Passes.GroupsPartition | sorter/external_merge_sort.py:72-73 | the groups of a pass concatenate to the run list, are non-empty, hold at most k runs, and all but the last hold exactly k |
| Passes.GroupsCount | sorter/external_merge_sort.py:70-79 | the number of groups is the run count divided by k, rounded up |
| Passes.GroupsCountDiv | sorter/external_merge_sort.py:70-79 | a pass returns `ceil(len(runs) / k)` runs |
| Passes.GroupsShrink | sorter/external_merge_sort.py:86-87 | with k at least 2, a pass over more than one run leaves fewer runs, but at least one |
| Passes.GroupsOfOne | sorter/external_merge_sort.py:86-87 | with k = 1 a pass leaves as many runs as it had, so the pass loop never ends |
| Passes.GroupsAt | sorter/external_merge_sort.py:73 | the group taken at index i is `runs[i:i + k]`, followed by the groups of the rest |
| Passes.ContentsPermutation | sorter/external_merge_sort.py:82-84 | reordering a list of run names does not change the records the runs hold together |
| Passes.MapGroups | sorter/external_merge_sort.py:72-78 | one merged run per group, as many as there are groups |
| Passes.PassSpec | sorter/external_merge_sort.py:70-79 | a pass produces one run per group, in group order, each the merge of its group |
| Passes.PassPermutation | sorter/external_merge_sort.py:70-79 | a pass keeps the records of its input runs, as a multiset |
| Passes.PassSorted | sorter/external_merge_sort.py:70-79 | a pass over sorted runs produces sorted runs |
| Passes.PassNames | sorter/external_merge_sort.py:74-76 | pass p names its outputs `pass<p>_run<g>.bin` for g = 0, 1, ... |
| Passes.PassOutputsContents | sorter/external_merge_sort.py:74-76 | after the pass, its output names hold exactly the merged groups, in order |
| Passes.PassLoop | sorter/external_merge_sort.py:72-78 | defines the `while i < len(runs)` loop of `merge_pass` turn by turn; `Passes.PassLoopFromStart` states what it computes |
| Passes.PassLoopNext | sorter/external_merge_sort.py:72-78 | one turn of the pass loop merges the next group into the next output name and continues at index i + k |
| Passes.PassLoopSpec | sorter/external_merge_sort.py:72-78 | the pass loop from any group boundary ends with the outputs of the remaining groups written and named |
| Passes.PassLoopFromStart | sorter/external_merge_sort.py:70-79 | `merge_pass` adds the pass's merged groups to the work directory and returns their names, one per group |
| Passes.MergeAll | sorter/external_merge_sort.py:85-88 | the pass loop ends with at most one run, and with one exactly when it started with at least one, and that run exists |
| Passes.MergeAllSpec | sorter/external_merge_sort.py:85-88 | the passes keep the records of the runs as a multiset, and keep them sorted when they were |
| Passes.MergeAllFrame | sorter/external_merge_sort.py:85-88 | the passes delete no run and change no run written before them, so consumed runs stay on disk |
| RunGeneration.RunGenError | sorter/external_merge_sort.py:38-51 | run generation can only raise on a non-empty input, and it raises `struct.error` only when some block is a partial record |
| RunGeneration.RunGenErrorPositiveK | sorter/external_merge_sort.py:38-51 | with k positive, run generation raises exactly when some block is not whole records, and then raises `struct.error` |
| RunGeneration.RunGenErrorCases | sorter/external_merge_sort.py:38-51 | on the input: no exception exactly for an empty input, a zero block size, or a positive k with whole records; `struct.error` on a partial record; ZeroDivisionError from `run_id % k` when k = 0; IndexError from the empty bucket list when k < 0 |
| RunGeneration.RunsWritten | sorter/external_merge_sort.py:38-51 | the runs written before an exception are whole-record blocks, all blocks are written when nothing is raised, and at most one is written when k is not positive |
| RunGeneration.RunGenSuffix | sorter/external_merge_sort.py:42-51 | after j good blocks, what is raised and how many runs follow depend only on the remaining blocks |
| RunGeneration.SortedBlocksSpec | sorter/external_merge_sort.py:46 | every run is a sorted permutation of its block |
| RunGeneration.WrittenRuns | sorter/external_merge_sort.py:46-49 | defines the work directory after the first n chunks became runs: run i holds chunk i's records, sorted (`RunGeneration.WrittenStep`) |
| RunGeneration.InitialRunsStep | sorter/external_merge_sort.py:47-49 | writing run n adds `run<n>.bin` to the runs written so far |
| RunGeneration.WrittenStep | sorter/external_merge_sort.py:46-49 | the run written for block n holds that block's records, sorted |
| RunGeneration.ReadStopsAtEnd | sorter/external_merge_sort.py:43-45 | the loop stops without error at end of file, and by then every block has been written |
| RunGeneration.ReadStopsOnPartial | sorter/external_merge_sort.py:43 | the loop raises the error of the first partial block, having written the runs before it |
| RunGeneration.ReadChunk | sorter/external_merge_sort.py:43 | a block read is the next block of the input, and the read position moves past it |
| RunGeneration.ReadLoop | sorter/external_merge_sort.py:42-51 | defines the `while True` loop of `generate_runs` turn by turn, with its exits on end of file, on a partial record and on `run_id % k` |
| RunGeneration.GenerateRunsSpec | sorter/external_merge_sort.py:38-51 | defines the state `generate_runs` leaves in closed form: the exception, the runs of the chunks read before it, and their buckets (`RunGeneration.ReadLoopFromStart`) |
| RunGeneration.ReadLoopNext | sorter/external_merge_sort.py:42-51 | one turn writes the sorted block as the next run, files it in its bucket and advances the read position |
| RunGeneration.ReadLoopSpec | sorter/external_merge_sort.py:42-51 | from any point of the loop, it ends with the exception of the blocks left, their runs written, and their names in the buckets |
| RunGeneration.ReadLoopFromStart | sorter/external_merge_sort.py:38-51 | `generate_runs` from the start of the file ends in the state `RunGeneration.GenerateRunsSpec` gives |
| RunGeneration.FlattenOfPermuted | sorter/external_merge_sort.py:46 | sorting every block keeps the records of all blocks together |
| RunGeneration.GeneratedNames | sorter/external_merge_sort.py:82-84 | the flattened buckets list n names, each a generated run, each once |
| RunGeneration.BucketOrderContents | sorter/external_merge_sort.py:82-84 | the runs in bucket-major order hold the records of all runs, and are sorted when the runs are |
| RunGeneration.GeneratedRuns | sorter/external_merge_sort.py:38-51 | on a whole-record input the runs listed for merging exist, are sorted, together hold the input's records, and there are none exactly when the input is empty |
| AutoConfig.ChooseK | sorter/auto_config.py:7-22 | `choose_k` returns one of 6, 8, 12, 16, 24 |
| AutoConfig.ChooseKMonotone | sorter/auto_config.py:13-22 | a bigger file never gets a smaller fan-in |
| AutoConfig.ChooseKThresholds | sorter/auto_config.py:11-22 | the fan-in steps up exactly at 50, 200, 500 and 2048 MiB |
| AutoConfig.CeilDiv | sorter/auto_config.py:49 | the least integer at least `N / (k * k)`, which is what `math.ceil` of the quotient gives |
| AutoConfig.MaxBlock | sorter/auto_config.py:45 | `max_block` is the largest block size whose k + 1 buffers fit in the memory budget, or 1 when not even one-record buffers fit |
| AutoConfig.TargetBlock | sorter/auto_config.py:49 | `target_block` is at least 1, and k·k blocks of that size cover all records |
| AutoConfig.AutoTuneParams | sorter/auto_config.py:25-62 | the returned fan-in is `choose_k` of the file size |
| AutoConfig.AutoTuneBounds | sorter/auto_config.py:52-56 | the block size is always at least 4096 records and the fan-in at least 6 |
| AutoConfig.AutoTuneFitsMemory | sorter/auto_config.py:44-56 | above the 4096 floor, the k + 1 buffers fit in the memory budget |
| AutoConfig.AutoTuneFloorExceedsBudget | sorter/auto_config.py:52-56 | at the floor they need not fit: a budget of 1000 bytes and an empty file still give 4096-record blocks |
| AutoConfig.AutoTuneBelowTarget | sorter/auto_config.py:47-56 | the block size is at most the larger of the two-pass target and the floor |
| AutoConfig.AutoTuneKIgnoresMemory | sorter/auto_config.py:41 | the fan-in does not depend on the memory budget |
| AutoConfig.VizParams | sorter/external_merge_sort.py:149-150 | the visualiser never uses a bigger block or fan-in than it is given, nor a fan-in above 4 |
| AutoConfig.VisualizerParamsFixed | sorter/external_merge_sort.py:145-150 | whatever the memory and file size, the visualiser runs with 75-record blocks and a fan-in of 4 |
| Sorter.FreshBuckets | sorter/external_merge_sort.py:21 | the sorter starts with k buckets, every one empty, and with no bucket when k is not positive |
| Sorter.SortSpec | sorter/external_merge_sort.py:91-102 | defines how `sort` ends: FileNotFoundError, the exception of run generation, IndexError when no run was generated, divergence for several runs with k < 2, otherwise success (`Sorter.SortSpecCases`) |
| Sorter.SortedOutput | sorter/external_merge_sort.py:91-102 | defines the bytes a successful `sort` leaves at the destination: the packing of the input's records, sorted |
| Sorter.MultiPassSpec | sorter/external_merge_sort.py:81-89 | when `multi_pass_merge` returns a run, that run exists in the work directory |
| Sorter.MultiPassResult | sorter/external_merge_sort.py:81-89 | on sorted runs it never ends exactly when several runs meet k < 2, raises IndexError exactly when there is no run, and otherwise returns a run that holds all the records, sorted |
| Sorter.GeneratedForMerge | sorter/external_merge_sort.py:38-51 | after run generation without exception the merge's list names each generated run once, and when it is not empty the runs are sorted and hold the input's records |
| Sorter.MergeAfterGenerate | sorter/external_merge_sort.py:93-94 | generation then merging diverges, fails or succeeds exactly as `Sorter.SortSpec` says, and on success the final run is the sorted input |
| Sorter.SortSpecCases | sorter/external_merge_sort.py:91-102 | `sort` succeeds exactly on a non-empty whole-record input with non-zero block size and positive k, unless k = 1 and there are several blocks; an empty input or a zero block size raises IndexError |
| Sorter.ExternalMergeSorter.constructor | sorter/external_merge_sort.py:16-21 | a new sorter keeps its parameters, has an empty work directory and k empty buckets |
| Sorter.ExternalMergeSorter.Cleanup | sorter/external_merge_sort.py:23-24 | `cleanup` empties the work directory |
| Sorter.ExternalMergeSorter.GenerateRuns | sorter/external_merge_sort.py:38-51 | a missing input raises FileNotFoundError with the buckets reset; otherwise the new work directory, buckets and exception are those `RunGeneration.GenerateRunsSpec` gives |
| Sorter.ExternalMergeSorter.ReadRuns | sorter/external_merge_sort.py:40-51 | the `while True` read loop ends in the state `RunGeneration.ReadLoop` gives from the start of the file |
| Sorter.ExternalMergeSorter.MergeKRuns | sorter/external_merge_sort.py:53-68 | the output run holds the merge of the input runs, and nothing else in the work directory changes |
| Sorter.ExternalMergeSorter.MergePass | sorter/external_merge_sort.py:70-79 | `merge_pass` adds one merged run per group of k under this pass's names and returns those names in group order |
| Sorter.ExternalMergeSorter.FlattenRuns | sorter/external_merge_sort.py:82-84 | the first loop lists the buckets' runs one bucket after the other |
| Sorter.ExternalMergeSorter.MultiPassMerge | sorter/external_merge_sort.py:81-89 | `multi_pass_merge` ends as `Sorter.MultiPassSpec` gives for the flattened buckets |
| Sorter.ExternalMergeSorter.Sort | sorter/external_merge_sort.py:91-102 | on success the destination holds the input's records sorted and no other file changes; on an exception the destination and every other file are untouched; on every path that ends the work directory is removed |
| Sorter.ExternalMergeSort | sorter/external_merge_sort.py:347-351 | a missing input raises FileNotFoundError; otherwise the sort runs with the tuned parameters, writes the sorted input on success, and leaves the files alone otherwise |
| Sorter.TunedSortOutcome | sorter/external_merge_sort.py:347-351 | with the tuned parameters the sort always ends: it succeeds exactly on a non-empty whole-record input, raises IndexError on an empty one and `struct.error` on a partial record |
| Visualize.SeedSteps | sorter/external_merge_sort.py:264-275 | defines the `heap_push` steps of the first loop: one per source with a first record, in source order |
| Visualize.TurnSteps | sorter/external_merge_sort.py:298-330 | defines one turn's steps: `heap_pop`, `output_emit` with the incremented count, and a `heap_push` when the source has a next record |
| Visualize.PopSteps | sorter/external_merge_sort.py:297-330 | defines the steps of the `while heap` loop, turn by turn in merge order |
| Visualize.MergeSteps | sorter/external_merge_sort.py:258-340 | defines everything one call appends: the seeding pushes, `merge_start`, the loop's steps and `merge_end` with the number of records written |
| Visualize.SeedStepsNext | sorter/external_merge_sort.py:264-275 | the first loop logs a `heap_push` for source n exactly when that source has a first record |
| Visualize.SeedCounts | sorter/external_merge_sort.py:264-275 | the first loop logs one push per non-empty source and no pop or emit |
| Visualize.TurnCounts | sorter/external_merge_sort.py:298-330 | one turn logs one pop and then one emit of the popped value with the incremented count, and at most one push |
| Visualize.PopStepsCons | sorter/external_merge_sort.py:297-330 | the second loop's log is the log of popping the least head followed by the log of the rest |
| Visualize.PopStepsValues | sorter/external_merge_sort.py:297-318 | the popped values, and also the emitted values, are the merge of what is left, one per record |
| Visualize.PopStepsEmitCounts | sorter/external_merge_sort.py:310-317 | the emit counts run consecutively from the count so far |
| Visualize.PopStepsPushes | sorter/external_merge_sort.py:320-330 | the loop pushes each record left except the heads already in the heap |
| Visualize.PopStepsAdjacent | sorter/external_merge_sort.py:298-318 | every `heap_pop` is immediately followed by an `output_emit` of the same value |
| Visualize.MergeStepsValues | sorter/external_merge_sort.py:258-340 | one call pops, and emits, exactly the merge of its inputs: one pop and one emit per input record |
| Visualize.MergeStepsEnd | sorter/external_merge_sort.py:335-340 | the last step logged is `merge_end`, whose `merged_count` is the number of records of the inputs |
| Visualize.MergeStepsEmitCounts | sorter/external_merge_sort.py:310-317 | the `emitted_count`s of one call are 1, 2, ..., n, where n is the number of input records |
| Visualize.MergeStepsPushes | sorter/external_merge_sort.py:264-330 | one call logs exactly one `heap_push` per input record |
| Visualize.MergeStepsAdjacent | sorter/external_merge_sort.py:297-318 | in the log of one call every pop is directly followed by the emit of the same value |
| Visualize.MergeCount | sorter/external_merge_sort.py:310 | the number of records merged is the number of input records |
| Visualize.VisualizeSort.constructor | sorter/external_merge_sort.py:121-123 | a new visualiser has an empty step list |
| Visualize.VisualizeSort.SeedWithSteps | sorter/external_merge_sort.py:263-275 | the first loop seeds the heap with one head per non-empty source and appends its pushes to the steps |
| Visualize.VisualizeSort.PopWithSteps | sorter/external_merge_sort.py:297-330 | one turn keeps the heap invariant, counts the record written, and appends exactly the steps that turn contributes |
| Visualize.VisualizeSort.MergeWithSteps | sorter/external_merge_sort.py:258-340 | `_merge_with_steps` writes the merge of its inputs and appends exactly the step log of that merge to the steps |

## Left out

- IEEE-754 arithmetic is not modelled. A record is the order key of the double's bit pattern, which orders every non-NaN double as Python compares them, except that -0.0 sorts before 0.0 where Python treats them as equal and keeps their input order. NaN, which Python's comparisons leave unordered, sorts by its key: after +inf when the sign bit is clear, before -inf when it is set. The monotone map from magnitude bits to magnitude, which `Codec.SignMagnitude` takes as given, is not proved.
- The temporary work directory is a map from run name to records. `tempfile.mkdtemp`, `os.path.join`, `os.makedirs`, `os.remove` and `shutil.move` are not modelled beyond their effect on the map and on the destination file. Their own I/O errors are not modelled.
- Open file handles and closing them are not modelled. This includes the handles `merge_k_runs` leaves open when an exception is raised.
- Sorter.ExternalMergeSorter.MergeKRuns: reads its inputs as whole runs before writing its output. An output name equal to one of its inputs would behave differently, but pass output names never collide with their inputs (`Passes.NotOfPass`).
- The heap's array layout inside `heapq` is not modelled. The heap is an abstract priority queue with the same pop order: the least `(value, source index)` first.
- Python's float `math.ceil(N / (k * k))` is modelled as the exact integer ceiling. The two differ only when the float quotient rounds, far above realistic file sizes.
- The estimate of passes at sorter/auto_config.py:59-60 is not modelled, because it only computes an unused value with float logarithms. The `ram_ratio` multiplication at line 34 is not modelled either. The budget after that multiplication is the `availableMem` parameter.
- The `psutil` memory read and `os.path.getsize` are parameters, not calls.
- Sorter.ExternalMergeSorter.MergePass: requires k > 0. `multi_pass_merge` only reaches a pass with k of at least 2. With k < 2 and several runs the model returns the divergence outcome instead of looping.
- Sorter.ExternalMergeSorter.MultiPassMerge: the endless pass loop for k < 2 is modelled as the `MergeDiverges` outcome, not as a loop that fails to terminate.
- Sorter.ExternalMergeSorter.Sort: requires that the sorter has not been cleaned up yet. A second `sort` on the same object, after its work directory was removed, is not modelled.
- The visualiser's payloads are not modelled: heap snapshots, input-buffer previews, file base names, the 18-value samples, the 120-value final preview and the `meta` step. Its `run`/`_run_inner` driver is also left out, apart from the block size and fan-in it chooses (`AutoConfig.VizParams`). That includes its sampling of 300 numbers and its own file handling.
- The service layer of main.py is not part of this model: the web endpoints, threads and job registries. main.py:69 calls `external_merge_sort` with keywords the wrapper does not accept and expects steps back, while the wrapper at sorter/external_merge_sort.py:347 returns nothing. The model follows the wrapper.
- sorter/create_real_number.py only generates random test data and is not part of this model. sorter/check.py is used only for its sortedness test.
