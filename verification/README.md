# Verified models of vLLM components

This project models eleven components of the vLLM overlay in Dafny and proves what they are for. Each component has a
specification in values (what a run means) and, where the original updates things in place, a class, an array or a
loop that is proved against it.

- **Graph partitions** (`GraphPartition`, `GraphPartitionCorrect`, `GraphPartitionLiveness`). A backward pass gives
  every partition of a compiled graph its inputs, outputs and deallocations. Names stand for storages, with mutation
  aliases and buffers that are never allocated. Nodes run arbitrary kernels. The main result: running the partitions
  one after the other means the same as running the whole graph, and the unmet names of the pass are liveness. What
  the proofs ask of a graph is what the scheduler guarantees: single assignment, uses after definitions, `last_usage`
  that is really last, and aliases of storages that exist.
- **Selective scan** (`SelectiveScan`, `SelectiveScanGrid`, `SelectiveScanTurns`, `MambaChunks`, `PromptLaunches`,
  `ServedPrompts`, with `Scaling` and `Common`). The kernel scans in chunks, writes outputs over its inputs and saves
  states in cache blocks. A step of the recurrence is an arbitrary function. Main results: the in-place chunked kernel
  computes the functional scan; any interleaving of program instances computes what each sequence computes alone; a
  prompt scheduled in any pieces, over launches with tables of their own that scan other prompts and channels beside
  it in any interleaving, is one scan. The builder of the chunk metadata (`mamba_attn.py`) is modelled because the
  checkpoints are right only for chunks cut as it cuts them.
- **Breakable CUDA graphs** (`BreakableCudagraph`). Capture cuts a program into graph and eager segments; a wrapper
  caches captures per batch descriptor. A graph is the list of kernels it recorded. Main results: replay means the
  program; every stored capture stays faithful over every run of calls.
- **Module printer** (`ModelInspection`, `ModelText`, `ModelPrinter`, `ModelPrinterCorrect`, `PrintedAlike`,
  `ModelGroups`, `PrintedText`, with `Text` and `Integers`). Identical numbered children are collapsed. Main result:
  the printed text determines the model. What the proofs ask of a model: siblings have different, non-empty names
  without dots, colons and line breaks, and an info is one line that starts with a letter or an underscore, as class
  names do.
- **Scalar types** (`ScalarTypes`, `ScalarTypeIds`, with `Bits`). The largest finite value of a small float format as
  the bits of a binary64 number (section 3.4 of IEEE 754-2019), and bit-packed ids with their registry.
- **Logprobs and request outputs** (`Logprobs`, `FlatLogprobs`, `ReverseSlices`, `Outputs`, `MergedLogprobs`,
  `RequestOutputs`). The flat parallel lists read like a list of dictionaries under appends, slices and extension;
  every grouping of a stream that can be merged gives one result, and when a grouping can be merged is stated exactly.
- **Bad words** (`BadWords`). A logit is a finite number, an infinity or not a number. Safety and its converse over
  whole generation runs.
- **Request batching** (`Throughput`), **artifact store** (`ArtifactStore`, `CompiledArtifacts`), **concurrency
  buckets** (`ServeMetrics`). Optimality of the greedy loop, agreement with a plain map over every run, and bounds for
  all instants.

Where the code does not do what it seems to promise, the model keeps the code and states the exact condition:

- a partition that frees a buffer without layout from outside takes it as an input although it is never allocated
  (`FreeingUnallocatedSticks`, and the condition in `PartitionedRunIsWholeRun`);
- the largest finite value is wrong for IEEE formats with one exponent bit (`MaxIsLargestFinite`, `SubnormalTop`);
- ids wrap around field widths, so a bias of 8 + 2^32 collides with a bias of 8 (`CollidingBiases`, `IdLeadsBack`);
- merging later outputs first can fail an assertion that merging in order does not (`RightGroupingCanFail`, and
  exactly when in `GroupingGoesThrough`);
- a shape with an underscore can share a key with another pair (`SharedKeyExists`; exactly which pairs in `SharedKey`,
  and what get then returns in `LookupIsLastForPair`);
- an infinite logit of a forbidden token becomes not a number instead of minus infinity
  (`InfiniteLogitIsNotForbidden`, `ChangedWhenCompleting`, and for a whole row `ForbidsExactly`);
- a slice of flat logprobs with a negative step can not be read unless it picks one position or only empty ones
  (`ReverseSliceReads`);
- a child whose name spells its number in another way is printed under the number, so the text does not determine the
  spelling (`SpellingIsLost`; which models are printed alike, exactly, in `PrintedAlikeExactly`).

`dafny verify dfyconfig.toml` checks the project.

## Model

| member | source | states |
|---|---|---|
| GraphPartition.CollectPartition | overlay/vllm/env_override.py:236-269 | the three name sets a partition contributes: every buffer defined in it, every name read or written in it, every buffer freed after one of its nodes |
| GraphPartition.SignPartition | overlay/vllm/env_override.py:233-334 | one turn of the reverse loop: the signature of a partition given what is owed after it, with the flag handed in and exactly the frees of its nodes, the names owed before it, and a missing output node reported exactly when a returned name with a layout is unknown |
| GraphPartition.GetGraphPartitionSignatures | overlay/vllm/env_override.py:205-336 | the whole reverse pass over partitions and flags zipped from the back: it succeeds exactly when every signed partition resolves, and then gives each partition, in forward order, its own flag and the signature that belongs to what is owed after it, with exactly the buffers freed that some node of it uses last |
| GraphPartition.SignatureSays | overlay/vllm/env_override.py:233-334 | a signature said name by name: a buffer is an input exactly when a node defines, frees or uses it, with what the pass maps it to and drops, an output exactly when it is owed and defined here, and freed exactly when a node of the partition is its last user; the flag is the one handed in |
| GraphPartition.TurnSays | overlay/vllm/env_override.py:233-313 | a name is owed before a partition exactly when the partition takes it in or it is owed after it and not handed back by it, and the pass fails at a partition exactly when a name with a layout that it would hand back is unknown |
| GraphPartition.OwedSays | overlay/vllm/env_override.py:229-334 | the same from any partition to the end, where the outputs of the graph are owed |
| GraphPartitionCorrect.PartitionedRunIsWholeRun | overlay/vllm/env_override.py:205-336 | calling the partitions in order, each seeing only its inputs and constants, dropping what it is told to free and handing on its outputs, leaves every graph output with a layout exactly as one run of all nodes against one store does, with mutation aliases and buffers without layout; it gets stuck exactly when some partition frees a buffer without layout from outside it, and nothing freed is left over |
| GraphPartitionLiveness.UnmetIsLiveness | overlay/vllm/env_override.py:233-334 | which names are owed before a partition, for every name: an alias exactly when it is an output of the graph, a storage exactly when it is wanted from there on and not defined from there on; a buffer without a layout drops out too when an alias of it is handed on; no other name ever |
| GraphPartitionCorrect.PassResolves | overlay/vllm/env_override.py:305-313 | on a graph the scheduler produces the pass never misses an output node |
| GraphPartitionCorrect.FreeingUnallocatedSticks | overlay/vllm/env_override.py:268-294 | a well-formed graph on which whole execution succeeds and partitioned execution gets stuck, because a partition is made to take in a buffer that is never allocated |
| GraphPartitionCorrect.ChainRuns | overlay/vllm/env_override.py:205-336 | two partitions that hand a buffer on and free it: the pass and the calls go through and the output is the composition of the two kernels |
| GraphPartitionCorrect.PartitionRuns | overlay/vllm/env_override.py:242-294 | the nodes of a partition, freeing as they go, run on what the signature hands in, agree with the whole run on everything they hold, and hold everything not freed yet |
| GraphPartitionCorrect.CallRuns | overlay/vllm/env_override.py:282-319 | when the inputs of a partition are in the store its nodes go through on them and the constants alone, agree with the whole run, and leave everything the signature must hand back |
| GraphPartitionCorrect.CallSticks | overlay/vllm/env_override.py:268-294 | a partition that frees an unallocated buffer from outside it can not be called |
| GraphPartitionCorrect.MutatedStorageIsInput | overlay/vllm/env_override.py:253-266 | when a node of a partition defines a name whose storage existed before the partition, that storage is a partition input under its real name |
| GraphPartitionCorrect.FreedInputIsDefined | overlay/vllm/env_override.py:268-282 | a known buffer that a partition frees and does not define was defined before it, and is its own storage |
| GraphPartitionCorrect.KeepsNothingFreed | overlay/vllm/env_override.py:287-319 | what the caller keeps or is handed back after a partition was freed by no node so far |
| SelectiveScan.ResumeContinuesScan | overlay/vllm/_xpu_ops.py:543-558 | loading the state saved after a prefix and scanning the suffix gives the states, outputs and gated outputs of one scan of the whole |
| SelectiveScan.ScanChunk | overlay/vllm/_xpu_ops.py:624-678 | the token loop writes every output over the delta and every gated output over the z it came from, and still computes the scan over the original delta and z |
| MambaChunks.ResumesWhereSaved | overlay/vllm/_xpu_ops.py:508-522 | when two block tables agree in the one column of the last computed token, a scheduled piece loads its initial state from the slot the piece before it stored its final state in |
| SelectiveScan.ChunkBounds | overlay/vllm/_xpu_ops.py:590-610 | the number of chunks, the first chunk and the position the first token is taken to have |
| SelectiveScan.ChunkTokens | overlay/vllm/_xpu_ops.py:614-622 | the length of a chunk |
| SelectiveScan.StoreCell | overlay/vllm/_xpu_ops.py:680-703 | the cell a checkpoint goes to: the last block after the last chunk, otherwise the block of the last position reached |
| SelectiveScan.StepChunk | overlay/vllm/_xpu_ops.py:614-704 | one turn of the chunk loop: outputs in place, then exactly one checkpoint, of the scan state at the end of the chunk |
| SelectiveScan.RunChunks | overlay/vllm/_xpu_ops.py:612-704 | over all chunks: all outputs in place, and the state buffer with one checkpoint per chunk |
| SelectiveScan.ScanKernel | overlay/vllm/_xpu_ops.py:495-715 | a program instance: padding changes nothing; otherwise delta and z hold the outputs of one functional scan over what they held before, nothing else in them changes, and the state buffer holds the checkpoints (with prefix caching) or the final state (without) |
| SelectiveScan.KernelLeaves | overlay/vllm/_xpu_ops.py:543-715 | what a call leaves, said without plan and scan: for the tokens the tensors hold for the channel and sequence, and any states that follow the recurrence over them from the initial state, the output of every token lies where its delta was and its gated output where its z was, at addresses from the strides, and nothing else changes |
| SelectiveScan.LaneIsTokens | overlay/vllm/_xpu_ops.py:560-588 | the tokens an instance scans: token n has the u, delta and z of the row of its channel and the B and C of the row of its group, in the stretch of its own sequence, packed or batched |
| SelectiveScan.SkipSays | overlay/vllm/_xpu_ops.py:508-527 | a sequence is left alone exactly when the slot it would load from is the null block |
| SelectiveScan.PlanSays | overlay/vllm/_xpu_ops.py:495-610 | what an instance reads off the launch: how its sequence is cut, whether it loads a state, and the cells it loads from and stores to, with the slot and channel strides |
| SelectiveScan.ScanIsRecurrence | overlay/vllm/_xpu_ops.py:624-678 | any states that follow the recurrence from the start, token by token, are those of the scan, and give its outputs |
| SelectiveScanGrid.EveryScheduleOnTrack | overlay/vllm/_xpu_ops.py:612-715 | whatever a scheduler interleaves, every program instance is at every moment where it would be alone |
| SelectiveScanGrid.EveryScheduleIsAlone | overlay/vllm/_xpu_ops.py:495-715 | when all instances are done, memory is determined: each part holds what its instance computes alone, the rest is untouched |
| SelectiveScanTurns.SchedulesAgree | overlay/vllm/_xpu_ops.py:966-967 | any two schedules that run independent instances to their end leave the same memory |
| SelectiveScanTurns.SomeScheduleFinishes | overlay/vllm/_xpu_ops.py:966-967 | some schedule runs all instances to their end |
| SelectiveScanTurns.CallKernel | overlay/vllm/_xpu_ops.py:495-715 | a call of the kernel method is a turn: it leaves the outputs and checkpoints of its instance |
| SelectiveScanTurns.TurnsAreAnySchedule | overlay/vllm/_xpu_ops.py:966-967 | calling the kernel for one instance after the other leaves the memory that any finished schedule of the instances leaves |
| SelectiveScanTurns.SeparatedLaunchExists | overlay/vllm/_xpu_ops.py:887-967 | there is a launch with separate rows and slots whose two sequences were set up by the scheduler |
| SelectiveScanGrid.InstancesApart | overlay/vllm/_xpu_ops.py:495-588 | in a launch with monotone query starts, separate rows and separate slots, no instance writes what another reads or writes |
| SelectiveScanGrid.GridIsIndependent | overlay/vllm/_xpu_ops.py:887-967 | so any set of different instances of such a launch may run in any interleaving |
| SelectiveScanGrid.RangesApart | overlay/vllm/_xpu_ops.py:560-588 | token ranges of different instances do not overlap, packed or batched |
| SelectiveScanGrid.CellsApart | overlay/vllm/_xpu_ops.py:551-558 | different slots and channels are different state cells |
| SelectiveScanGrid.GroupsExist | overlay/vllm/_xpu_ops.py:895-897 | every channel reads a row of B and C that exists exactly when the number of groups divides the number of channels |
| MambaChunks.ComputeChunkMetadata | overlay/vllm/v1/attention/backends/mamba_attn.py:227-287 | the builder returns where every chunk starts, the request every chunk belongs to and the last chunk of every request |
| MambaChunks.MetadataSays | overlay/vllm/v1/attention/backends/mamba_attn.py:227-287 | the metadata of a request from where the requests start: its chunks hold its own tokens and no others, there is one for every block it reaches, and none or one empty one when it has no new tokens |
| MambaChunks.MetadataCutsBlocks | overlay/vllm/v1/attention/backends/mamba_attn.py:235-283 | inside a request, chunks are cut where its blocks end, one block after the other |
| MambaChunks.CutRequest | overlay/vllm/v1/attention/backends/mamba_attn.py:254-283 | one request is cut by first finishing the block begun before and then taking whole blocks |
| MambaChunks.CutBlocks | overlay/vllm/v1/attention/backends/mamba_attn.py:274-280 | the loop over whole blocks |
| MambaChunks.PieceEnds | overlay/vllm/v1/attention/backends/mamba_attn.py:235-246 | every chunk ends at a block boundary or at the last token |
| MambaChunks.CheckpointsOnBoundaries | overlay/vllm/_xpu_ops.py:591-607 | every checkpoint of a launch but the last is the state at the end of a block, block after block, exactly when the first chunk fits a block and every middle chunk fills one; the column chunk k is stored in is then the first block plus k |
| MambaChunks.CheckpointBlocks | overlay/vllm/_xpu_ops.py:680-704 | chunk k of a scheduled request is filed under block first + k, and holds the state at the end of that block or after the last token |
| MambaChunks.BlockFirstIs | overlay/vllm/v1/attention/backends/mamba_attn.py:345-348 | the first scheduled block is the block of the first new token |
| MambaChunks.MetadataCuts | overlay/vllm/v1/attention/backends/mamba_attn.py:227-287 | the chunks of every request can be read off the metadata, also those of a request without new tokens |
| MambaChunks.LaunchCuts | overlay/vllm/v1/attention/backends/mamba_attn.py:227-287 | a launch carrying the metadata of a batch cuts every request as the builder did |
| MambaChunks.CheckpointIsReached | overlay/vllm/_xpu_ops.py:680-704 | the state stored after a chunk is the one the recurrence has reached after the tokens of the chunks so far |
| MambaChunks.ScheduledContinues | overlay/vllm/v1/attention/backends/mamba_attn.py:337-366 | the plan the kernel reads off a scheduled launch loads the block of the last computed token and files block after block from that of the first new one, each in the slot its own table holds for it |
| MambaChunks.PieceContinues | overlay/vllm/_xpu_ops.py:543-715 | a piece that starts from the state after everything before it outputs its part of one scan of the prompt; every chunk leaves the state of its block unless a later chunk of the piece stores in the same cell, the last chunk leaves the state after all tokens so far, and no other cell changes |
| MambaChunks.PromptInPieces | overlay/vllm/_xpu_ops.py:543-715 | however a prompt is cut into scheduled pieces, and whatever happens to the cache and to the block tables in between except for the one state that is handed on, the outputs and checkpoints of every piece are those of one scan of the whole prompt |
| PromptLaunches.PromptOverLaunches | overlay/vllm/_xpu_ops.py:495-715 | a prompt served in a row of launches, each of which has its own block table and runs all channels of many prompts in any interleaving on one state buffer; between two launches tables may grow, blocks may be given away and memory may change, as long as the next launch finds the state the one before it stored last: every launch leaves over the inputs of its piece that part of one scan of the whole prompt, and files the states of that scan, with prefix caching and without |
| PromptLaunches.TablesHandOn | overlay/vllm/_xpu_ops.py:508-522 | that state is found when the two block tables agree in the one column of the last computed token and its one cell keeps what it holds |
| PromptLaunches.BlockStays | overlay/vllm/_xpu_ops.py:680-704 | what a launch files for a block stays filed, launch after launch, as long as nothing writes that one cell; the cells of other blocks may be reused |
| PromptLaunches.BlocksStayFiled | overlay/vllm/_xpu_ops.py:680-704 | when all blocks from some block on keep cells of their own that no other instance stores in, as in a table that only grows, then after every launch every block begun is filed: with the state at its end, and the last one with the state after all tokens so far |
| PromptLaunches.OthersSpare | overlay/vllm/_xpu_ops.py:551-558 | a cell of one channel of a slot is written by no other instance of the launch when no other sequence stores in that slot: the cells of other channels are different ones |
| PromptLaunches.PromptInOneCell | overlay/vllm/_xpu_ops.py:706-715 | without prefix caching the one cell of a prompt holds after every launch the state after all tokens so far |
| ServedPrompts.ServedExists | overlay/vllm/_xpu_ops.py:887-967 | without prefix caching, two launches that scan two prompts side by side run one after the other on any cache and serve the first prompt |
| ServedPrompts.GrowingIsServed | overlay/vllm/v1/core/single_type_kv_cache_manager.py:1015-1020 | a prefix hit of two blocks, of which the first is a null block, is continued in two launches; the table grows in between and the block of the hit is given to another prompt, and the prompt is served and its new blocks stay filed |
| MambaChunks.PlainLaunchContinues | overlay/vllm/_xpu_ops.py:516-522 | without prefix caching a launch gives a sequence one chunk, and one cell that it resumes from and stores to |
| MambaChunks.SchedulesExist | overlay/vllm/v1/attention/backends/mamba_attn.py:227-287 | every increasing cutting of a prompt, with any block table that reaches its end, can be scheduled in pieces and scanned from any cache |
| BreakableCudagraph.BreakableCapture.BeginSegment | overlay/vllm/compilation/breakable_cudagraph.py:179-187 | opens an empty graph |
| BreakableCudagraph.BreakableCapture.EndSegment | overlay/vllm/compilation/breakable_cudagraph.py:189-197 | closes the open graph into a segment, and does nothing when none is open |
| BreakableCudagraph.Thread.AddEager | overlay/vllm/compilation/breakable_cudagraph.py:199-212 | closes the graph, runs the op eagerly, records it and opens a new graph; a failing op leaves the graph closed |
| BreakableCudagraph.Thread.CallDecorated | overlay/vllm/compilation/breakable_cudagraph.py:97-119 | the decorated op runs directly outside a capture, inside another break and in FULL mode, and breaks the graph otherwise |
| BreakableCudagraph.Thread.Enter | overlay/vllm/compilation/breakable_cudagraph.py:164-169 | entering a capture; a nested one fails and changes nothing |
| BreakableCudagraph.Thread.Exit | overlay/vllm/compilation/breakable_cudagraph.py:171-175 | leaving closes the open graph and deactivates the capture |
| BreakableCudagraph.Thread.CaptureOps | overlay/vllm/compilation/breakable_cudagraph.py:396-409 | capturing a program, whether or not it raises; a nested capture fails and changes nothing |
| BreakableCudagraph.Thread.ReplayCapture | overlay/vllm/compilation/breakable_cudagraph.py:216-218 | replay runs the segments in order and stops at a function that raises, with memory as that function left it; a capture in progress stays as it is |
| BreakableCudagraph.CaptureRun | overlay/vllm/compilation/breakable_cudagraph.py:97-119 | while a program runs under capture the recording grows by exactly its kernels, graphs and breaks alternate, and nested breaks add no segment |
| BreakableCudagraph.CaptureIsProgram | overlay/vllm/compilation/breakable_cudagraph.py:164-218 | the recording of a program that does not raise flattens to the kernels of the program, with one break per decorated op it calls itself, one graph more than breaks, and a single graph in FULL mode |
| BreakableCudagraph.ReplayIsRun | overlay/vllm/compilation/breakable_cudagraph.py:216-218 | replaying any recording runs the kernels it flattens to, on any memory |
| BreakableCudagraph.ReplayIsProgram | overlay/vllm/compilation/breakable_cudagraph.py:164-218 | replaying the capture of a program does to any memory what running the program would do |
| BreakableCudagraph.BreakableWrapper.ClearGraphs | overlay/vllm/compilation/breakable_cudagraph.py:309-310 | forgets every capture |
| BreakableCudagraph.BreakableWrapper.Call | overlay/vllm/compilation/breakable_cudagraph.py:314-337 | one call of the wrapper: bypass, capture or replay, with its effect on the cache, on memory and on a capture in progress, and the failures that leave the entry without a capture |
| BreakableCudagraph.BypassSays | overlay/vllm/compilation/breakable_cudagraph.py:314-327 | a call without forward context or with mode NONE: it comes out as Ran exactly when the program does not raise, the cache stays, and the kernels up to the raise have run on memory, or stand at the end of the graph that is being captured |
| BreakableCudagraph.ReplaySays | overlay/vllm/compilation/breakable_cudagraph.py:423-441 | a call for a descriptor with a complete capture replays it, and does nothing else, unless the inputs have moved and that is checked |
| BreakableCudagraph.CaptureSays | overlay/vllm/compilation/breakable_cudagraph.py:357-421 | a call for a descriptor without a capture makes one exactly when capturing is enabled, no capture is in progress and the program does not raise; otherwise it fails and leaves an entry without one; other descriptors keep theirs |
| BreakableCudagraph.CaptureRuns | overlay/vllm/compilation/breakable_cudagraph.py:357-421 | what such a call has run on memory: with the eager run all kernels up to where the program raises, then in the capture those of its breaks, and none in FULL mode |
| BreakableCudagraph.UndescribedFails | overlay/vllm/compilation/breakable_cudagraph.py:329-329 | without a descriptor the call fails and does nothing |
| BreakableCudagraph.CaptureMemory | overlay/vllm/compilation/breakable_cudagraph.py:396-409 | what a capture does to memory: only the eager ops have run, each at its break |
| BreakableCudagraph.AroundRuns | overlay/vllm/compilation/breakable_cudagraph.py:97-119 | two kernels around a break, run: in order |
| BreakableCudagraph.AroundBreaks | overlay/vllm/compilation/breakable_cudagraph.py:97-119 | captured: the break runs and cuts the graph in two |
| BreakableCudagraph.AroundInFull | overlay/vllm/compilation/breakable_cudagraph.py:97-119 | in FULL mode: one graph, and nothing runs |
| BreakableCudagraph.BreakableWrapper.Capture | overlay/vllm/compilation/breakable_cudagraph.py:357-421 | capture of a descriptor, with an optional eager run before it; inside another capture it fails after that run |
| BreakableCudagraph.BreakableWrapper.Record | overlay/vllm/compilation/breakable_cudagraph.py:396-412 | a capture that raises, or that is nested in another one, stores nothing |
| BreakableCudagraph.RunSays | overlay/vllm/compilation/breakable_cudagraph.py:314-337 | a run starts with an empty cache, every call changes cache and memory as the wrapper does, and a clear empties the cache |
| BreakableCudagraph.CachesStayFaithful | overlay/vllm/compilation/breakable_cudagraph.py:314-441 | after any run of calls with any modes and descriptors, failed captures and clears, every stored capture is closed and stands for the program of its descriptor |
| BreakableCudagraph.ReplayingIsRunning | overlay/vllm/compilation/breakable_cudagraph.py:423-441 | every call that replays does to memory what the program of its descriptor would do |
| BreakableCudagraph.CapturedOncePerClear | overlay/vllm/compilation/breakable_cudagraph.py:329-337 | a descriptor is captured successfully at most once between clears |
| ModelInspection.GetChildSignature | overlay/vllm/model_inspection.py:36-41 | the signature joins path and info of every module of the subtree in preorder |
| ModelInspection.SignatureDetermines | overlay/vllm/model_inspection.py:36-41 | equal signature strings come from equal trees |
| ModelInspection.FormatIndexRanges | overlay/vllm/model_inspection.py:44-58 | the loop prints the maximal runs of the sorted indices |
| ModelInspection.RunsOfSorted | overlay/vllm/model_inspection.py:44-58 | expanding the runs gives back the sorted indices |
| ModelInspection.RunsAreMaximal | overlay/vllm/model_inspection.py:44-58 | no two runs could be joined, and they come in order |
| ModelInspection.SortAscends | overlay/vllm/model_inspection.py:46-46 | sorting different indices puts them in ascending order and keeps every one |
| ModelInspection.RangesTextInjective | overlay/vllm/model_inspection.py:50-58 | the printed ranges can be read back |
| Integers.ReadsBack | overlay/vllm/model_inspection.py:98-98 | a number printed with str is read back by int as the same number |
| Integers.SpellingIsRead | overlay/vllm/model_inspection.py:98-98 | int reads blanks, a sign or none, digits with single underscores between them and blanks as the number the digits are |
| Integers.OnlySpellingsAreRead | overlay/vllm/model_inspection.py:98-98 | and nothing else |
| Integers.OtherSpellings | overlay/vllm/model_inspection.py:98-98 | int reads a numeral with a leading zero or a plus sign as the same number |
| ModelPrinter.SeparateChildren | overlay/vllm/model_inspection.py:92-100 | children whose name int accepts, with that number, and the others, in registration order |
| ModelPrinter.NamedInOrder | overlay/vllm/model_inspection.py:92-100 | the named children are the children whose name int does not accept, all of them, in registration order |
| ModelPrinter.NumberedInOrder | overlay/vllm/model_inspection.py:92-100 | the numbered children are those whose name int accepts, all of them, in registration order, with that number and their own module |
| ModelPrinter.EveryChildIsOne | overlay/vllm/model_inspection.py:92-100 | no child is lost and none is listed twice |
| ModelPrinter.GroupBySignature | overlay/vllm/model_inspection.py:104-108 | groups of numbered children by signature |
| ModelPrinter.GroupsOfAreGroups | overlay/vllm/model_inspection.py:104-111 | the sorted groups are not empty, hold every numbered child and nothing else, each child under its own signature and no number twice in a group |
| ModelPrinter.GroupsOfAreOrdered | overlay/vllm/model_inspection.py:104-110 | there is one group for every signature, and groups come by their first index |
| ModelGroups.GroupsInOrder | overlay/vllm/model_inspection.py:104-110 | a group holds all children with its signature in registration order; groups come by the number registered first, and of equal ones as they were registered |
| PrintedText.TreeSays | overlay/vllm/model_inspection.py:83-90 | the first line of a module holds indentation, name and info, and opens a bracket exactly when there are children, which the last line closes |
| PrintedText.GroupSays | overlay/vllm/model_inspection.py:111-124 | the lines of a group are those of its first module, with the ranges of the numbers and the count in front of the first one |
| PrintedText.PairInText | overlay/vllm/model_inspection.py:61-128 | the whole text of a module with two equal numbered children and a named one |
| PrintedText.ModelInText | overlay/vllm/model_inspection.py:61-128 | a model to which all this applies, and its text: four lines |
| PrintedText.NumbersInText | overlay/vllm/model_inspection.py:111-124 | 28, 47 and -12 as str writes them |
| PrintedText.RangesInText | overlay/vllm/model_inspection.py:44-58 | the ranges of 0, 1, 2, 4, 5 and 6 are printed as 0-2, 4-6 |
| PrintedText.SignatureInText | overlay/vllm/model_inspection.py:36-41 | the signature of a block with one child |
| ModelPrinter.FormatGroup | overlay/vllm/model_inspection.py:111-124 | the lines of a group: those of one of its modules, with the first line replaced by ranges, count and the stripped info |
| ModelPrinter.FormatModuleTree | overlay/vllm/model_inspection.py:61-131 | the printer outputs exactly the layout of the collapsed tree, for every tree, name and indent |
| ModelText.LinesDetermine | overlay/vllm/model_inspection.py:79-131 | two collapsed trees printed alike are the same collapsed tree: blocks, index texts, counts and infos can all be read off the lines |
| ModelPrinterCorrect.FormatModelInspection | overlay/vllm/model_inspection.py:134-136 | the lines joined into one text |
| ModelPrinterCorrect.ExpandedGroupsAreTheChildren | overlay/vllm/model_inspection.py:104-124 | a number and a module are a numbered child exactly when some group covers the number with its printed ranges and prints that module: expanding the groups gives back the children |
| ModelPrinterCorrect.CollapseDetermines | overlay/vllm/model_inspection.py:92-131 | modules that collapse to the same tree have the same infos and, child by child, partners with the same name or number and the same module in turn, those without a number in the same order |
| ModelPrinterCorrect.PrintoutDetermines | overlay/vllm/model_inspection.py:134-136 | models with the same printed text are the same model, child by child: every child of one has a partner in the other, with the same name, or the same number, and the same module in turn, and children without a number come in the same order |
| PrintedAlike.PrintedAlikeExactly | overlay/vllm/model_inspection.py:134-136 | two models have the same printed text exactly when their infos agree, their named children agree in order and are printed alike, and their groups come in the same order with the same numbers, as often, and representatives printed alike |
| PrintedAlike.RespelledPrintsAlike | overlay/vllm/model_inspection.py:92-131 | spelling numbers in other ways, here and below named children, leaves the printed text as it is |
| PrintedAlike.SpellingIsLost | overlay/vllm/model_inspection.py:92-124 | any numbered child of any module can be given any other spelling of its number without changing the text, and the modules are then the same exactly when the spellings are |
| ScalarTypes.MaxIntFields | overlay/vllm/scalar_type.py:71-101 | the built integer exists exactly when the double can hold the format, and its mantissa and exponent fields do not overlap and stay below the sign bit |
| ScalarTypes.MaxIsLargestFinite | overlay/vllm/scalar_type.py:71-105 | decoded as a binary64 number the built integer is finite, the value of a finite code and at least the value of every finite code, under each NaN convention, exactly unless the format has one exponent bit and IEEE conventions |
| ScalarTypes.SubnormalTop | overlay/vllm/scalar_type.py:80-101 | in the excepted formats the built maximum is larger than every finite value |
| ScalarTypes.MinIsSmallestFinite | overlay/vllm/scalar_type.py:116-125 | the built minimum of a signed type is the negated maximum, and the smallest finite value in the same cases |
| ScalarTypes.KnownMaxima | overlay/vllm/scalar_type.py:332-345 | the maxima of fp4 e2m1, fp6 e2m3, fp6 e3m2 and fp8 e4m3fn are 6, 7.5, 28 and 448 |
| ScalarTypes.IntegerBoundsExist | overlay/vllm/scalar_type.py:107-135 | the exact integer types that have a maximum, and a minimum |
| ScalarTypes.IntegerBoundsAreReached | overlay/vllm/scalar_type.py:107-134 | the bounds of an integer type, less its bias, hold for every stored pattern and are both reached |
| ScalarTypeIds.OrAndAdvance | overlay/vllm/scalar_type.py:146-151 | a masked field is put above the fields so far, also when it is negative |
| ScalarTypeIds.IdsTellFieldsApart | overlay/vllm/scalar_type.py:136-164 | two types have the same id exactly when their fields agree modulo the field widths, and an id is below 2^58 |
| ScalarTypeIds.FieldsLie | overlay/vllm/scalar_type.py:137-164 | which bits of the id hold which field |
| ScalarTypeIds.InRangeIdsAreInjective | overlay/vllm/scalar_type.py:136-164 | with fields in range different types have different ids |
| ScalarTypeIds.Registry.Id | overlay/vllm/scalar_type.py:136-164 | reading the id of a type packs its six fields and registers the type under the result |
| ScalarTypeIds.Registry.FromId | overlay/vllm/scalar_type.py:308-312 | the type that took the id last among all types made, and an error exactly when none has it |
| ScalarTypeIds.Registry.Int | overlay/vllm/scalar_type.py:266-271 | a signed integer type, registered |
| ScalarTypeIds.Registry.UInt | overlay/vllm/scalar_type.py:273-278 | an unsigned integer type, registered |
| ScalarTypeIds.Registry.FloatIEEE754 | overlay/vllm/scalar_type.py:280-289 | an IEEE type, or a failed assertion that registers nothing |
| ScalarTypeIds.Registry.Float | overlay/vllm/scalar_type.py:291-306 | a non-IEEE type, or a failed assertion that registers nothing |
| ScalarTypeIds.IdLeadsBack | overlay/vllm/scalar_type.py:136-164 | after any run of constructions the id of a type leads back to it exactly when every later type that collides with it was followed by the type again |
| ScalarTypeIds.InRangeIdsLeadBack | overlay/vllm/scalar_type.py:308-312 | after any run of constructions with fields in range, every id leads back to its type |
| ScalarTypeIds.CollidingBiases | overlay/vllm/scalar_type.py:156-162 | two types whose biases differ by 2^32 share an id, and the first no longer leads back to itself |
| Logprobs.DictHoldsLast | overlay/vllm/logprobs.py:113-120 | a position holds exactly the token ids of its rows, each with its last row |
| Logprobs.AppendViews | overlay/vllm/logprobs.py:63-93 | appending rows appends their dictionary to the view, also after a slice that left gaps |
| Logprobs.AppendTiles | overlay/vllm/logprobs.py:63-93 | appending keeps the ranges tiling the rows |
| Logprobs.PicksAreTheSlice | overlay/vllm/logprobs.py:121-123 | a slice with a positive step picks exactly the positions from its start on and before its stop that are whole steps from the first such position, where negative bounds count from the end |
| Logprobs.SliceViews | overlay/vllm/logprobs.py:121-133 | the rebased flat slice views as the same slice of the list of dictionaries |
| Logprobs.SliceOfSlice | overlay/vllm/logprobs.py:121-133 | a slice of a slice is one slice with composed start and step, list for list |
| Logprobs.SliceStaysTiled | overlay/vllm/logprobs.py:121-133 | a slice without step leaves no gaps |
| FlatLogprobs.FlatLogprobs.Append | overlay/vllm/logprobs.py:63-72 | appends one row per item of the dictionary, none for a missing one, and one position to the view |
| FlatLogprobs.FlatLogprobs.AppendFast | overlay/vllm/logprobs.py:74-93 | appends the zipped rows, as many as the shortest argument has |
| FlatLogprobs.FlatLogprobs.Extend | overlay/vllm/logprobs.py:95-98 | appends the positions in order and touches nothing that was there |
| FlatLogprobs.FlatLogprobs.ExtendFlat | overlay/vllm/logprobs.py:95-98 | extending by a flat container, itself included, appends what it viewed as |
| FlatLogprobs.ExtendLogprobs | overlay/vllm/logprobs.py:95-98 | extending a container by a container, flat or not and itself included, makes it read as the concatenation |
| FlatLogprobs.FlatLogprobs.Len | overlay/vllm/logprobs.py:100-102 | the number of positions |
| FlatLogprobs.FlatLogprobs.GetItem | overlay/vllm/logprobs.py:110-120 | the dictionary at a position, counted from the end when negative, or an index error; on a container with ranges outside its rows what list indexing reads there, or an index error |
| FlatLogprobs.FlatLogprobs.GetSlice | overlay/vllm/logprobs.py:121-133 | a new container for every step: the sliced view for a positive one, the moved ranges over the rows they span for a negative one, an index error exactly for an empty slice and a value error for a step of zero |
| ReverseSlices.DescentIsTheSlice | overlay/vllm/logprobs.py:121-123 | a slice with a negative step picks exactly the positions from its start down to its stop, without it, that are whole steps below the highest one, where negative bounds count from the end |
| ReverseSlices.ReverseSliceReads | overlay/vllm/logprobs.py:121-133 | the container for a slice with a negative step reads as the slice of the list exactly when one position is picked or only empty ones are |
| FlatLogprobs.CreateSampleLogprobs | overlay/vllm/logprobs.py:170-172 | an empty container of the chosen kind |
| FlatLogprobs.CreatePromptLogprobs | overlay/vllm/logprobs.py:162-167 | a container with one position that has no logprobs |
| FlatLogprobs.AppendLogprobsForNextPosition | overlay/vllm/logprobs.py:175-206 | both kinds of container come to read the same: one more dictionary, of the zipped arguments with the sampled rank first and -1 meaning all |
| FlatLogprobs.NextPositionHolds | overlay/vllm/logprobs.py:184-206 | the next position says of a token what its last occurrence among the zipped arguments says, ranked by where it occurs, the first with the sampled rank; zip stops at the shortest, and -1 asks for as many as there are |
| FlatLogprobs.FlatRunReadsLikeList | overlay/vllm/logprobs.py:175-206 | after any run of appends the flat lists read like the list of dictionaries, position by position, and the ranges tile |
| Outputs.AddAllKeepsDistinct | overlay/vllm/outputs.py:151-173 | indices stay distinct |
| Outputs.Grouping | overlay/vllm/outputs.py:145-173 | merging later outputs first gives the same result wherever it goes through, aggregating or replacing |
| Outputs.UniformGrouping | overlay/vllm/outputs.py:145-173 | with logprobs always or never present every grouping goes through and all give the same |
| Outputs.GroupingGoesThrough | overlay/vllm/outputs.py:160-162 | merging the later outputs first goes through exactly when merging in order does and every later completion with logprobs follows a first one of its index, among the later ones, that has logprobs |
| Outputs.RightGroupingCanFail | overlay/vllm/outputs.py:160-162 | with logprobs on some outputs only, merging in order can succeed where merging the later ones first fails the assertion |
| Outputs.FoldSummarizes | overlay/vllm/outputs.py:151-173 | folding a stream gives every index the concatenation of its texts, tokens and logprobs and its last finish reason, and no other index |
| Outputs.FoldReplaces | overlay/vllm/outputs.py:169-173 | without aggregation every index keeps its last completion |
| Outputs.HalfMergedIs | overlay/vllm/outputs.py:154-168 | when merging two completions fails, and what it leaves of every field |
| Outputs.FailureStays | overlay/vllm/outputs.py:154-173 | the first failure is final: everything before it is merged, and of the completion that failed text and tokens |
| Outputs.FoldGoesThrough | overlay/vllm/outputs.py:160-162 | the assertion fails exactly when logprobs arrive for an index whose first completion had none |
| MergedLogprobs.MergeLogprobs | overlay/vllm/outputs.py:160-162 | the logprobs of a completion, flat or not, are extended in place and come to read as the merge of what they read as; the assertion fails exactly when there is something to add and nothing to extend |
| RequestOutputs.CompletionOutput.Merge | overlay/vllm/outputs.py:154-168 | merging in place, field by field, when it fails, and what a failed assertion leaves: text and tokens extended, the others as they were |
| RequestOutputs.RequestOutput.AddCompletion | overlay/vllm/outputs.py:152-173 | one next completion is merged into or replaces the first with its index, or is appended; after a failed assertion the outputs hold the half-merged completion |
| RequestOutputs.RequestOutput.Add | overlay/vllm/outputs.py:145-173 | the outputs become those of the fold, in place, the flags are merged, and the completions stay different objects; after a failed assertion everything before the failing completion is merged and nothing after it |
| BadWords.NoBadWordsLogitsProcessor.Call | overlay/vllm/logits_process.py:56-87 | with a cached bias as with a fresh one, exactly the logits whose token completes a bad word are biased; the call fails exactly for words out of the vocabulary, empty words or another vocabulary size |
| BadWords.NoBadWordsLogitsProcessor.BuildLastTokenBias | overlay/vllm/logits_process.py:64-83 | the bias of the longer words, for every token |
| BadWords.NoBadWordsLogitsProcessor.BiasLastToken | overlay/vllm/logits_process.py:66-83 | one word biases only its last token, and only after its prefix |
| BadWords.NoBadWordsLogitsProcessor.InitWordBias | overlay/vllm/logits_process.py:89-104 | the cached bias of one-token words, set only when all tokens are in the vocabulary |
| BadWords.NoBadWordsLogitsProcessor.CheckTokenIdsBounds | overlay/vllm/logits_process.py:106-121 | the check fails exactly when some token is out of bounds |
| BadWords.ChangedWhenCompleting | overlay/vllm/logits_process.py:85-87 | the logit of a token that completes a bad word becomes minus infinity exactly when it was finite or minus infinity, and not a number otherwise; no other logit changes |
| BadWords.ForbidsExactly | overlay/vllm/logits_process.py:85-87 | a row comes out with minus infinity at every token that completes a bad word, and unchanged elsewhere, exactly when none of these tokens had an infinite or undefined logit |
| BadWords.InfiniteLogitIsNotForbidden | overlay/vllm/logits_process.py:85-87 | the infinite logit of a forbidden token becomes not a number |
| BadWords.RunsAvoidBadWords | overlay/vllm/logits_process.py:56-87 | no run that picks tokens with a logit that is neither minus infinity nor not a number ever contains a bad word |
| BadWords.RunsAreTheRest | overlay/vllm/logits_process.py:56-87 | a sequence can be generated exactly when it contains no bad word and each of its tokens is in the vocabulary with a logit that is neither minus infinity nor undefined |
| Throughput.CanTake | overlay/vllm/benchmarks/throughput.py:446-455 | one more request is taken exactly when the batch with it keeps both limits |
| Throughput.FitsSays | overlay/vllm/benchmarks/throughput.py:446-455 | a batch is within the limits when it is one request, or no more than allowed with no prompt and output of two of its requests longer than 2048 together |
| Throughput.RunHfRequests | overlay/vllm/benchmarks/throughput.py:435-476 | the calls partition the requests in order within the limits, each generates the largest expected output of its batch, and no order-preserving partition within the limits has fewer batches |
| Throughput.GreedyIsOptimal | overlay/vllm/benchmarks/throughput.py:438-476 | any partition in which no batch could take the next request is as short as every other |
| Throughput.GreedyStaysAhead | overlay/vllm/benchmarks/throughput.py:438-476 | the first k batches of any partition cover no more than the first k greedy ones |
| ArtifactStore.RSplit | overlay/vllm/compilation/caching.py:468-468 | splitting at the last underscore: the parts make the key and the second holds no underscore |
| ArtifactStore.KeysApart | overlay/vllm/compilation/caching.py:63-63 | pairs of name and shape have different keys when shapes hold no underscore |
| ArtifactStore.SharedKey | overlay/vllm/compilation/caching.py:63-63 | two pairs of name and shape have one key exactly when they are the same pair or the longer name is the shorter one with part of its shape, which then holds an underscore |
| ArtifactStore.SharedKeyExists | overlay/vllm/compilation/caching.py:63-63 | two such pairs |
| ArtifactStore.LookupIsLastForPair | overlay/vllm/compilation/caching.py:59-93 | without hash collisions get returns the bytes last inserted for a pair exactly when they are those last inserted under its key, whatever the shapes |
| ArtifactStore.LastUnderKey | overlay/vllm/compilation/caching.py:63-63 | something was inserted last under the key of an inserted pair, and if it is not the pair itself it is another pair with its key |
| ArtifactStore.LookupFinds | overlay/vllm/compilation/caching.py:85-93 | a key finds the first content stored with the hash of the content inserted last, and fails exactly when it was never inserted |
| ArtifactStore.LookupIsLastInserted | overlay/vllm/compilation/caching.py:59-93 | without hash collisions and with plain shapes, get returns the last bytes inserted for that name and shape |
| ArtifactStore.LookupIsLastExactly | overlay/vllm/compilation/caching.py:59-93 | get returns the last inserted bytes exactly when the first content with their hash is those bytes |
| ArtifactStore.EachContentOnce | overlay/vllm/compilation/caching.py:64-65 | every inserted content is stored, and stored once |
| CompiledArtifacts.StandaloneCompiledArtifacts.Insert | overlay/vllm/compilation/caching.py:59-83 | one more entry in the run; what is loaded stays loaded and, for known content, stays complete |
| CompiledArtifacts.StandaloneCompiledArtifacts.Get | overlay/vllm/compilation/caching.py:85-93 | get is the lookup of the run so far |
| CompiledArtifacts.StandaloneCompiledArtifacts.GetLoaded | overlay/vllm/compilation/caching.py:95-103 | the loaded form of what get finds, exactly when the content is loaded; total once everything is loaded |
| CompiledArtifacts.StandaloneCompiledArtifacts.LoadAll | overlay/vllm/compilation/caching.py:119-138 | everything is loaded afterwards, and the early exit by size is sound |
| CompiledArtifacts.StandaloneCompiledArtifacts.NumArtifacts | overlay/vllm/compilation/caching.py:108-112 | the number of contents and of keys |
| CompiledArtifacts.StandaloneCompiledArtifacts.SubmoduleNames | overlay/vllm/compilation/caching.py:114-117 | the unique names of the keys in order; with plain shapes the inserted names in order of first insertion |
| CompiledArtifacts.StandaloneCompiledArtifacts.GetState | overlay/vllm/compilation/caching.py:142-146 | the state that is pickled |
| CompiledArtifacts.StandaloneCompiledArtifacts.SetState | overlay/vllm/compilation/caching.py:148-151 | the same run again, with nothing loaded |
| CompiledArtifacts.NamesAreInserted | overlay/vllm/compilation/caching.py:114-117 | names read back from the keys are the inserted names |
| CompiledArtifacts.StandaloneCompiledArtifacts.Regroup | overlay/vllm/compilation/caching.py:462-471 | every lookup of the regrouping succeeds, its names are those of submodule_names in the same order, and it holds every key once under its name and shape, with its loaded content |
| ServeMetrics.SecondsAreBuckets | overlay/vllm/benchmarks/serve.py:669-695 | every second a request touches is a bucket |
| ServeMetrics.CountRequest | overlay/vllm/benchmarks/serve.py:689-695 | a request adds one to exactly the seconds it touches |
| ServeMetrics.CollectTokenTimes | overlay/vllm/benchmarks/serve.py:674-680 | the arrival times of the tokens of a request |
| ServeMetrics.CountTokens | overlay/vllm/benchmarks/serve.py:683-686 | every token time in range adds one to its bucket |
| ServeMetrics.TokensAreCounted | overlay/vllm/benchmarks/serve.py:674-686 | tokens that arrive while their request is active all fall into buckets |
| ServeMetrics.FindRange | overlay/vllm/benchmarks/serve.py:663-666 | the first start and the last end |
| ServeMetrics.CountPerSecond | overlay/vllm/benchmarks/serve.py:653-701 | every bucket counts the requests touching its second and the tokens arriving in it, the buckets add up, the maxima are the largest bucket, or 0 without requests, and the maximum of concurrent requests is at least the number active at any instant and at most their count |
| ServeMetrics.SuccessfulSays | overlay/vllm/benchmarks/serve.py:653-655 | the requests counted are those with the flag, all of them, in order |
| ServeMetrics.DurationSays | overlay/vllm/benchmarks/serve.py:668-669 | there is a bucket for the last second and none behind it |
| ServeMetrics.TouchingSays | overlay/vllm/benchmarks/serve.py:689-695 | a bucket counts one by one the requests whose first and last second it lies between |
| ServeMetrics.AllTimesSay | overlay/vllm/benchmarks/serve.py:674-686 | and the tokens, request by request, that arrive in its second, each the sum of the delays before it after the start |
| ServeMetrics.SecondsTouchedSays | overlay/vllm/benchmarks/serve.py:689-695 | the seconds counted for a request are those from its first to its last |
| ServeMetrics.ActiveAtMostTouching | overlay/vllm/benchmarks/serve.py:689-695 | at any instant no more requests are active than touch its second |

## Left out

- The order of the ordered sets in a partition signature, and `symbol_inputs`: the library method that finds them is not part of this model.
- The other monkeypatches of `env_override.py`: they depend on library code that is not part of this model.
- Floating-point arithmetic of the scan (`exp`, softplus, casts, the rounding of a state when it is stored) and the 32-bit casts of indices: the step is an arbitrary function, addresses are unbounded.
- The masked lanes of a state vector beyond `dstate`, and strides between tokens other than one: the model's rows are whole vectors, and tokens of a row are adjacent as the caller makes them.
- The pool that blocks of states are taken from and given back to: which slots a block table holds in a launch is arbitrary, apart from what the theorems ask of it.
- Device, stream, offloader, weak references, garbage collection, log messages and counters; a failing `capture_begin`; what the call that captures returns.
- `BreakableCudagraph.BreakableWrapper.Call`: does not model `getattr` forwarding and the list of all instances, which only clears each wrapper; nor what replaying a stored capture does while another graph is being captured, which is up to the graph library.
- Names with digits or blanks outside ASCII, which `int` accepts too, and its limit on the number of digits; modules shared between two places of a tree, which `named_modules` visits once; `_get_module_info`, whose text is a parameter.
- `ScalarType.has_nans`, `is_ieee_754` and `__str__`, which compare an enumeration member with an integer; `float8_e8m0fnu`, which bypasses the constructors that assert a mantissa; non-standard exponent biases, which the code does not support either.
- Appending to, extending and slicing a container that a slice with a negative step has left with ranges outside its rows.
- `RequestOutputs.RequestOutput.Add`: takes token and logprob lists as values (`MergedLogprobs` has the step on containers), so lists shared between two completions are not modelled.
- `BadWords.NoBadWordsLogitsProcessor.Call`: logits are one row; a row of length one, which the tensor library would broadcast, counts as another vocabulary. The tokenization of bad words is not part of this model.
- `filter_requests_for_dp`, timing, tokenization and generation in the throughput benchmark: easy members, or calls into libraries.
- `CompiledArtifacts.StandaloneCompiledArtifacts.LoadAll`: loading is a total function of the bytes; errors of unpickling and the thread pool are not modelled. `size_bytes` would only add an easy member.
- `ServeMetrics.CountPerSecond`: times are real numbers; latencies are assumed not to be negative, since a negative one makes the code count into buckets from the end. Percentiles and goodput are statistics over lists and are left out.
- The remaining kernels of `_xpu_ops.py`, configuration, logging, network clients, command lines, `sampling_params.py`, `pooling_params.py`, `forward_context.py` and `b12x_capture.py`: wrappers, I/O and range checks that one reading settles.
