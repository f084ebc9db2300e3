# Verified models of MoEArc's hard parts

MoEArc runs mixture-of-experts language models on a graphics card, a host thread pool and a pool of paged
memory. The modules here model the parts of it whose correctness rests on more than one function and prove
what those parts promise. `dafny verify dfyconfig.toml` checks all of it.

- **The host expert executor** (`Tasks`, `HostProtocol`, `HostSafety`, `HostTheorems`, `HostProgress`,
  `HostFairness`, `HostShapes`, `HostKernels`, `HostExperts`, `Gates`, `HostExecutor`). The fork-join protocol is a
  transition system: one step is one atomic operation, one row of a task or one slot of the mid-job fill, atomics are
  sequentially consistent, and a schedule is any list of actions of the device thread and of the workers. An inductive
  invariant carries schedule independence, isolation of the shared job, safety of the barrier, freedom from races, a
  measure, the exact condition under which a job can finish, and that it then does under every fair schedule. The
  kernels the workers run are loops proved against one dequantised element at a time, and the two halves meet in
  `PoolMatchesSequential`.
- **The live expert cache** (`LruSpec`, `CacheState`, `ExpertCache`, `Gather`). The cache is a class updated in
  place; its residents are shown to be the most recently demanded experts, its counters to be what that policy
  charges, and its plans, once staged and gathered, to deliver the weights asked for.
- **Host and device together** (`DeviceExperts`, `HostPolicy`, `ServedExperts`). The batched device path computes
  what the sequential host expert computes; so however a policy divides a block's experts, and whatever the cache
  holds, the block's result is the same.
- **Paged key-value memory** (`KvPages`, `PagedKv`, `KvMemory`, `KvBooks`, `KvStore`, `Attention`,
  `GroupedQuery`, `PagedAttention`). The allocator is a class; with the append kernel it behaves like one private
  array per sequence, down to which operations it accepts, and attention through a page table is attention over that
  array, head by head.
- **Fast numeric forms** (`Sums`, `Lanes`, `Exponential`, `Softmax`, `TopK`, `Router`, `Quant`, `DeviceUnits`,
  `LaunchGrid`, `DeviceMatvec`, `DeviceDispatch`, `HalfFloat`, `FloatFacts`). Arithmetic is exact, over `real`; `exp`
  is any positive function with exp(a + b) = exp(a) exp(b); only `ClampNeverActs` also needs it to be at most one at
  and below zero. A `Decode` says which number a stored scale stands for, and every result holds for any such reading.
  Only the half-precision conversions and the scale byte of MXFP4 are modelled on bits, the former against section
  4.3.1 of IEEE 754-2019. Work-items and work-groups of a launch run in an arbitrary order; softmax rows and router
  tokens run one by one.
- **Formats from the writer's side** (`QuantLayout`, `PackedProducts`, `PackedExperts`). Blocks, matrices and experts
  are packed from the numbers they hold, and reading them gives those numbers and their products back.
- **Relocatable artefacts** (`Bytes`, `ElfStrings`, `Utf8`, `ElfRelocate`, `ElfTheorems`, `ElfImage`). The loop edits
  a byte buffer in place; characters are counted as the script counts them, by UTF-8 decoding with the surrogate escape.
- **The pasteable command line** (`ShellQuote`), against word splitting by sections 2.2.1, 2.2.2 and 2.3 of the
  POSIX Shell Command Language.

`FiniteSets` counts, `Wrappers` holds optional values and results.

Where the code does not do what its own words say, the code is followed:

- `crates/moearc-engine/src/kv.rs:136` overwrites the table of a live sequence without returning its pages.
  `Begin` says what is lost, and that nothing is lost exactly when the id was not live or held no page;
  `LosesIffOverwrites` says the same of whole runs, and `BeginTwice` loses a page.
- `crates/moearc-engine/src/host_experts.rs:892-899` waits for a gate that nobody opens when a job has experts
  and the feed-forward width is zero. `SyncCanReturnIff` makes that the only such case, and `StuckReached` reaches it.
- `crates/moearc-engine/src/host_experts.rs:849-850` says tasks are disjoint, for any spec that passes the byte check
  of lines 663-672. `SlicesApartIff` gives the condition on its rows; `WrongShapePasses` passes and does not meet it.
- `packaging/elf-relocatable.py:70-72` adds a number of characters to an offset in bytes.
  `DeltaLeadsToBasename` and `SecondRunIdle` hold exactly for directory parts of one-byte characters;
  `TwoByteDirectory` is a name for which they fail.
- `crates/moearc-kernels/kernels.cpp:1560-1562` calls the weights of gatings 1 and 2 different vectors. In exact
  arithmetic they are the same unless the clamp acts, which takes more than 16384 experts: `GatingsAgree`,
  `ClampNeverActs`, `ClampCanAct`.
- `crates/moearc-cli/src/serve.rs:892-898` leaves `=` bare, so an argument that starts like an assignment is
  printed like one; `crates/moearc-cli/src/tuning/resolve.rs:341-347` prints an empty path as nothing:
  `ReadsAsAssignment`, `AssignmentPrinted`, `PathIsOneWord`.

## Model

| member | source | states |
|---|---|---|
| `Tasks.ChunkFor` | crates/moearc-engine/src/host_experts.rs:778-780 | rows per task are at least one and never more than an expert has |
| `Tasks.ChunkMeets` | crates/moearc-engine/src/host_experts.rs:777-780 | the chunk is the smallest of sixteen rows or more with which no more than the target number of chunks cover all rows, or all rows of an expert |
| `Tasks.TaskPartition` | crates/moearc-engine/src/host_experts.rs:836-847 | the claimed tasks cover every row of every expert, each by exactly one task |
| `Tasks.TaskBounds` | crates/moearc-engine/src/host_experts.rs:844-847 | a task is a non-empty run of rows of one expert of the job |
| `HostProtocol.ClaimTaken` | crates/moearc-engine/src/host_experts.rs:839-843 | taking the next index off a cursor keeps every task claimed once, held by one worker or completed |
| `HostProtocol.ClaimCounted` | crates/moearc-engine/src/host_experts.rs:869 | counting a completed task keeps the same books |
| `HostProtocol.AllCounted` | crates/moearc-engine/src/host_experts.rs:869-882 | a full count means nobody holds a task and every task is completed |
| `HostTheorems.InvStep` | crates/moearc-engine/src/host_experts.rs:624-825 | the protocol invariant is kept by every action of the device thread and of every worker |
| `HostTheorems.InvReach` | crates/moearc-engine/src/host_experts.rs:624-923 | the invariant holds in every state any schedule of any number of threads reaches |
| `HostTheorems.ScheduleIndependence` | crates/moearc-engine/src/host_experts.rs:717-761 | whatever the interleaving, each result returned is the router-order weighted sum of what each expert computes on its own; results and jobs correspond one to one |
| `HostTheorems.OutAtReturn` | crates/moearc-engine/src/host_experts.rs:717-761 | when `sync` has seen every acknowledgement, each row of `out` of a routed expert is that expert's own row |
| `HostTheorems.HandshakeIsolation` | crates/moearc-engine/src/host_experts.rs:646-707 | a worker inside a job sees the job of the epoch it woke for; while the device thread writes the job or resets the cursors no worker is inside one |
| `HostTheorems.NoEpochSkipped` | crates/moearc-engine/src/host_experts.rs:786-825 | a worker wakes for every epoch in turn and acknowledges them in turn |
| `HostTheorems.BarrierSafety` | crates/moearc-engine/src/host_experts.rs:869-899 | a worker in phase B implies the gate is open, every row of `act` and every entry of `xsum_act` final |
| `HostTheorems.GateOpenedOncePerJob` | crates/moearc-engine/src/host_experts.rs:869-882 | in any run the gate has been opened once for every submitted job that routes an expert, counting the current one only when its gate stands open |
| `HostTheorems.NoRace` | crates/moearc-engine/src/host_experts.rs:848-860 | no two workers ever hold overlapping mutable slices of a buffer, nor does one overlap a slice another reads |
| `HostTheorems.NoRaceWithDevice` | crates/moearc-engine/src/host_experts.rs:646-761 | while the device thread writes the job, resets the cursors or combines `out`, no worker holds or reads any slice |
| `HostTheorems.InBounds` | crates/moearc-engine/src/host_experts.rs:848-923 | every slice a worker takes of `act`, `xsum_act` and `out` is inside the buffer |
| `HostShapes.SlicesApartIff` | crates/moearc-engine/src/host_experts.rs:836-860 | two tasks never share an entry of a buffer exactly when the rows of the spec fit an expert's stretch of it, or one expert is routed |
| `HostShapes.SlicesInsideIff` | crates/moearc-engine/src/host_experts.rs:836-848 | every slice is inside its buffer exactly when the rows of the last expert are |
| `HostShapes.BytesAreBlind` | crates/moearc-engine/src/host_experts.rs:663-672 | twice the rows at half the columns passes the byte check of `submit`, in any format |
| `HostShapes.WrongShapePasses` | crates/moearc-engine/src/host_experts.rs:663-672 | such a spec, and the overlap and overrun it leads to |
| `HostProgress.MeasureFalls` | crates/moearc-engine/src/host_experts.rs:827-923 | a well-founded measure falls on every worker step that is not a poll |
| `HostProgress.PollingKeepsMeasure` | crates/moearc-engine/src/host_experts.rs:717-737 | the device thread's polling never raises it |
| `HostProgress.WorkIsBounded` | crates/moearc-engine/src/host_experts.rs:827-923 | along any continuation of a job in flight, the worker steps that are not polls number at most the measure, until `sync` returns |
| `HostProgress.SomebodyMoves` | crates/moearc-engine/src/host_experts.rs:836-923 | with a job in flight that has tasks, some worker can take a step that is not a poll |
| `HostProgress.CanFinish` | crates/moearc-engine/src/host_experts.rs:717-737 | from every reachable state with a completable job in flight there is a continuation in which `sync` returns |
| `HostFairness.FairScheduleReturns` | crates/moearc-engine/src/host_experts.rs:717-761 | under every schedule in which each worker and the device thread keep getting turns, `sync` of a completable job has returned the weighted sum after a bounded number of rounds, whatever happens in between |
| `HostFairness.FairReturnsIff` | crates/moearc-engine/src/host_experts.rs:827-923 | under such a schedule `sync` returns exactly if the job can be completed |
| `HostProgress.StuckForever` | crates/moearc-engine/src/host_experts.rs:892-899 | a job with experts and no phase-A rows never opens the gate: no continuation lets `sync` return |
| `HostProgress.StuckReached` | crates/moearc-engine/src/host_experts.rs:892-899 | such a state is reached: one thread, embedding 256, width zero, one expert, and then no continuation returns |
| `HostProgress.SyncCanReturnIff` | crates/moearc-engine/src/host_experts.rs:836-899 | `sync` can return exactly when the job has no experts or the feed-forward width is positive |
| `HostKernels.DotQ4k` | crates/moearc-engine/src/host_experts.rs:976-1017 | eight accumulators with the minimum hoisted through the activation sums give the sum of every dequantised element times its activation |
| `HostKernels.DotQ6k` | crates/moearc-engine/src/host_experts.rs:1019-1068 | the same for Q6_K, one signed scale per sixteen elements |
| `HostKernels.DotMxfp4` | crates/moearc-engine/src/host_experts.rs:1088-1108 | the same for MXFP4, the two nibbles of a byte sixteen elements apart |
| `HostKernels.GroupSumsAre` | crates/moearc-engine/src/host_experts.rs:1285-1290 | the group sums handed to phase B are the sums the fused product expects |
| `HostExperts.SwigluRows` | crates/moearc-engine/src/host_experts.rs:1122-1162 | every row written is the activated product of the two dequantised rows with their biases, and no other entry changes |
| `HostExperts.MatvecRows` | crates/moearc-engine/src/host_experts.rs:1164-1188 | every row written is the dequantised row times the activation plus its bias, and no other entry changes |
| `HostExperts.ExpertFfnExt` | crates/moearc-engine/src/host_experts.rs:1301-1330 | the sequential expert computes the definition: down projection of the activated gate and up projections |
| `Gates.SwigluLaws` | crates/moearc-engine/src/host_experts.rs:1150-1151 | the activation at g and at -g differ by g u and are as -exp(g) to one, which leaves one value |
| `Gates.OaiLaws` | crates/moearc-engine/src/host_experts.rs:1152-1157 | the OpenAI variant within its limit obeys the same laws with alpha in the exponent and one added to u |
| `Gates.OaiLimits` | crates/moearc-engine/src/host_experts.rs:1152-1157 | a gate above the limit counts as the limit, an up value beyond it on either side as the limit on that side; within it the limit does not show |
| `Gates.RowLaws` | crates/moearc-engine/src/host_experts.rs:1122-1162 | so the gate bank gates and the up bank does not, biases included |
| `PackedExperts.ExpertIs` | crates/moearc-engine/src/host_experts.rs:1289-1330 | an expert made of packed numbers computes the down rows of those numbers times the activated gate and up rows, with the biases they were packed with |
| `HostExecutor.PoolRowIsExpertRow` | crates/moearc-engine/src/host_experts.rs:827-923 | a row computed by the two phases of the pool is that row of the sequential expert |
| `HostExecutor.JobFor` | crates/moearc-engine/src/host_experts.rs:646-690 | every list of experts has a job that routes it |
| `HostExecutor.PoolMatchesSequential` | crates/moearc-engine/src/host_experts.rs:717-761 | for any threads and any interleaving `sync` hands back the weighted sum of `expert_ffn_ext` over the routed experts |
| `HalfFloat.F32ToF16` | crates/moearc-kernels/kernels.cpp:152-186 | narrowing gives the nearest half with ties to even, subnormals rounded and overflow to infinity; infinities stay and NaNs stay NaNs |
| `HalfFloat.F16ToF32` | crates/moearc-kernels/kernels.cpp:118-142 | widening keeps sign and magnitude of every finite half, through the renormalising loop, and carries infinities and NaN payloads |
| `HalfFloat.NearestUnique` | crates/moearc-kernels/kernels.cpp:144-151 | nearest with ties to even names at most one half |
| `HalfFloat.NarrowAfterWiden` | crates/moearc-kernels/kernels.cpp:118-186 | widening and narrowing back is the identity exactly on the halves that are not signalling NaNs |
| `HalfFloat.WideningIsExact` | crates/moearc-kernels/kernels.cpp:118-142 | a finite half and its widening stand for the same real number |
| `FloatFacts.Landmarks` | crates/moearc-kernels/kernels.cpp:118-186 | the patterns of 1, of -1, of the largest and of the smallest half, in the numbers they stand for |
| `FloatFacts.NextBinade` | crates/moearc-kernels/kernels.cpp:118-186 | one more in the exponent field doubles a normal number, in both widths |
| `FloatFacts.ConstantPatterns` | crates/moearc-kernels/kernels.cpp:1359-1372 | the constants of the kernels are the lowest float, the smallest normal float and the smallest normal half |
| `Quant.RowIsUnits` | crates/moearc-kernels/kernels.cpp:496-498 | splitting a row into 32-element units loses and repeats no column |
| `Quant.UnitsDotIsRowDot` | crates/moearc-kernels/kernels.cpp:519-593 | adding up the units of a row gives the element-by-element product of the row |
| `QuantLayout.ScalesReadBack` | crates/moearc-kernels/kernels.cpp:205-213 | eight scales and eight minima of six bits, packed into twelve bytes as ggml packs them, are read back, each in its place |
| `QuantLayout.TableIsDoubled` | crates/moearc-kernels/kernels.cpp:320-327 | the MXFP4 table holds the E2M1 numbers (sign, two bits of exponent, one of mantissa) doubled |
| `QuantLayout.BlockReadBack` | crates/moearc-kernels/kernels.cpp:205-375 | element i of a packed block, in any of the five formats, is its scale times its quant, less its minimum where there is one |
| `PackedProducts.MatrixProduct` | crates/moearc-kernels/kernels.cpp:377-419 | a row of a matrix packed block by block, multiplied under the number of its format, is the sum of the packed values times the activations |
| `PackedProducts.PlainProduct` | crates/moearc-kernels/kernels.cpp:191-197 | under the numbers 0 and 1 a matrix is its 32-bit floats or its halves one after the other, and its product their sum |
| `PackedProducts.WholeIff` | crates/moearc-kernels/kernels.cpp:377-402 | which formats there are, and that a row is whole exactly when it is a number of blocks; rows of plain floats always are |
| `FloatFacts.E8m0IsHalved` | crates/moearc-kernels/kernels.cpp:329-342 | the scale byte of MXFP4 stands for half the power of two it encodes, subnormal results included |
| `DeviceUnits.UnitAcc` | crates/moearc-kernels/kernels.cpp:520-593 | hoisting the scales of a unit changes nothing: the accumulator grows by the element-by-element product, in all five formats |
| `DeviceMatvec.SubgroupDot` | crates/moearc-kernels/kernels.cpp:626-643 | lanes striding over units and one reduction give the element-by-element product of a row |
| `LaunchGrid.ItemCovers` | crates/moearc-kernels/kernels.cpp:683-704 | every row of every matrix has a sub-group that is live and works on it |
| `LaunchGrid.OutInjective` | crates/moearc-kernels/kernels.cpp:683-713 | no two live sub-groups write the same cell |
| `LaunchGrid.ProgressEnds` | crates/moearc-kernels/kernels.cpp:683-713 | when all sub-groups have run every cell has been written exactly once |
| `DeviceMatvec.BatchedSubmit` | crates/moearc-kernels/kernels.cpp:683-713 | in any order of sub-groups, every cell of every matrix is written once with the product of its row, and nothing behind them changes |
| `DeviceMatvec.SingleSubmit` | crates/moearc-kernels/kernels.cpp:618-644 | the single-matrix kernel leaves the same buffer as the batched one with one matrix |
| `DeviceMatvec.RowIsLocal` | crates/moearc-kernels/kernels.cpp:407-419 | the product of a row depends on the bytes of that row only |
| `DeviceDispatch.GenericSubmit` | crates/moearc-kernels/kernels.cpp:718-733 | in any order of work-groups, every row of an f32 or f16 matrix gets its product and nothing around them changes |
| `DeviceDispatch.MatvecQ` | crates/moearc-kernels/kernels.cpp:1046-1112 | every row is the element-by-element product over all columns, whichever kernel the format is routed through, and nothing behind the rows changes; an unknown format or a ragged row is refused and changes nothing |
| `DeviceDispatch.MatvecQBatched` | crates/moearc-kernels/kernels.cpp:1146-1192 | the same for many matrices with their own activation vectors, or none; too many matrices, an unknown format or ragged rows are refused and change nothing |
| `DeviceMatvec.ElementsAreLocal` | crates/moearc-kernels/kernels.cpp:407-419 | an element depends on the bytes of its own block only |
| `DeviceMatvec.BlocksInBounds` | crates/moearc-kernels/kernels.cpp:629-640 | every block visited, also by a tail row reading row 0, is inside the matrix |
| `LruSpec.ClosedIsMostRecent` | crates/moearc-engine/src/cache.rs:177-242 | a set closed under being more recent and full or complete is the set of the most recently demanded experts |
| `LruSpec.LargerCacheNeverWorse` | crates/moearc-engine/src/cache.rs:177-242 | over the same steps more slots keep a superset and never fetch more |
| `CacheState.VictimUnique` | crates/moearc-engine/src/cache.rs:251-257 | the victim does not depend on the order the residents are enumerated in |
| `CacheState.UnpinnedResidentExists` | crates/moearc-engine/src/cache.rs:221-227 | a step that fits always leaves somebody to evict, so the expectation cannot fail |
| `CacheState.MidEvict` | crates/moearc-engine/src/cache.rs:218-239 | replacing the victim keeps index, stamps and the closure of the resident set |
| `CacheState.FirstUsesElements` | crates/moearc-engine/src/cache.rs:200-239 | a plan's lists have each expert once |
| `CacheState.FirstUsesInOrder` | crates/moearc-engine/src/cache.rs:200-239 | and in the order of first demand |
| `ExpertCaching.ExpertCache.New` | crates/moearc-engine/src/cache.rs:124-136 | a cache has slots, or is refused |
| `ExpertCaching.ExpertCache.ResidentsAreMostRecent` | crates/moearc-engine/src/cache.rs:177-242 | in every valid state the residents are the most recently demanded experts, as many as there are slots or all of them |
| `ExpertCaching.ExpertCache.Admit` | crates/moearc-engine/src/cache.rs:177-244 | refuses a step that cannot fit and then changes nothing; otherwise commits it: hits, loads in order of first demand, slots and displaced experts exactly, nobody of the step displaced, counters charged the declarative misses |
| `ExpertCaching.ExpertCache.Demand` | crates/moearc-engine/src/cache.rs:200-240 | one demand keeps the plan and the indexes in step and counts one hit or one miss |
| `ExpertCaching.ExpertCache.FirstEmptySlot` | crates/moearc-engine/src/cache.rs:247-249 | the first empty slot, or all are full |
| `ExpertCaching.ExpertCache.LruVictim` | crates/moearc-engine/src/cache.rs:251-257 | the least recently used resident that is not pinned, if there is one |
| `ExpertCaching.ExpertCache.ResetStats` | crates/moearc-engine/src/cache.rs:152-154 | zeroes the counters and leaves the residents |
| `Gathering.SlotsFor` | crates/moearc-engine/src/cache.rs:56-65 | the slot of each expert asked for, in the order asked; a load wins over a hit |
| `Gathering.StageAll` | crates/moearc-engine/src/moe.rs:2228-2247 | staging the loads in order brings the pool back in step with the cache |
| `Gathering.GatherKernel` | crates/moearc-kernels/kernels.cpp:976-1000 | in any order of work-items, each entry of the packed buffer is the pool slot it names and nothing behind it changes |
| `Gathering.GatherExperts` | crates/moearc-kernels/src/lib.rs:398-421 | slots that are not whole words are refused |
| `Gathering.ServeSlots` | crates/moearc-engine/src/moe.rs:2221-2249 | admit, stage, look up: slot i of the answer holds the weights of the i-th expert asked for |
| `Gathering.ServeStep` | crates/moearc-kernels/src/lib.rs:398-421 | the same followed by the device gather, which nothing but the GPU tests calls: position i of the packed buffer holds the weights of the i-th expert |
| `ServedExperts.ServeProducts` | crates/moearc-engine/src/moe.rs:2221-2298 | whatever the cache held, product i of the batched launch over the slots is that of the i-th expert asked for |
| `DeviceExperts.AddBiasId` | crates/moearc-kernels/kernels.cpp:1654-1673 | in any order of work-items every vector gets the bias its index names |
| `DeviceExperts.ActivationsAgree` | crates/moearc-kernels/kernels.cpp:1609-1613 | the activation of the device is that of the host, though it clamps in another order |
| `DeviceExperts.ActivateAll` | crates/moearc-kernels/kernels.cpp:1293-1322 | in any order of work-items each pair of gate and up values is activated, from two buffers or the two halves of one |
| `DeviceExperts.Combine` | crates/moearc-kernels/kernels.cpp:1220-1235 | in any order of work-items each entry is the weighted sum of the vectors, and nothing behind changes |
| `DeviceExperts.GateAndUp` | crates/moearc-engine/src/moe.rs:2270-2308 | gate and up come out of one fused launch or of two, with the same products |
| `DeviceExperts.DeviceFfn` | crates/moearc-engine/src/moe.rs:2270-2387 | the batched, fused, biased device path computes the weighted sum of what the sequential host expert computes |
| `HostPolicy.Split` | crates/moearc-engine/src/moe.rs:2177-2195 | the first misses, as many as the policy says, go to the host with their weights; the rest stay in order |
| `HostPolicy.HostCountMeans` | crates/moearc-engine/src/host_experts.rs:111-119 | what each policy sends to the host: none, the least number no less than the fraction, or all but the first n |
| `HostPolicy.BlendSplits` | crates/moearc-engine/src/host_experts.rs:224-229 | however experts are divided the two weighted sums add up to the whole |
| `HostPolicy.Block` | crates/moearc-engine/src/moe.rs:2177-2419 | for every policy and every set of residents the block's result is the weighted sum over all experts wanted |
| `HostPolicy.PolicyIrrelevant` | crates/moearc-engine/src/host_experts.rs:224-229 | what `sync` returns under any schedule and what the device computes for the rest add up to that sum |
| `Gathering.CapacityMonotone` | crates/moearc-engine/src/cache.rs:177-242 | of two caches given the same steps the larger holds the smaller's residents and has missed no more |
| `KvPages.Retable` | crates/moearc-engine/src/kv.rs:144-180 | moving pages between the free list and one table keeps the pool sound and loses none |
| `KvPages.TakeForTable` | crates/moearc-engine/src/kv.rs:128-137 | taking pages for a table keeps the pool sound; an overwritten table's pages are lost |
| `KvPages.NextToken` | crates/moearc-engine/src/kv.rs:152-168 | one more token needs a page exactly when the last is full, and lands in the last one |
| `PagedKv.PagedKvCache.New` | crates/moearc-engine/src/kv.rs:97-113 | a pool has pages that hold tokens, or is refused; a new one has every page free, the lowest handed out first, and loses none |
| `PagedKv.PagedKvCache.Begin` | crates/moearc-engine/src/kv.rs:120-138 | succeeds exactly when admissible; pages come off the back of the free list; no page is lost exactly when the id was not live or held none; a failure changes nothing |
| `PagedKv.BeginTwice` | crates/moearc-engine/src/kv.rs:136 | two begins under one id on a fresh pool both succeed, and the first page is lost |
| `PagedKv.PagedKvCache.Append` | crates/moearc-engine/src/kv.rs:144-169 | succeeds exactly when the sequence is live, below the limit and has a place; names that place; opens a page only when the last is full |
| `PagedKv.PagedKvCache.End` | crates/moearc-engine/src/kv.rs:172-180 | returns every page of the table in reverse |
| `PagedKv.PagedKvCache.CanAdmit` | crates/moearc-engine/src/kv.rs:189-192 | true exactly when a begin would succeed |
| `PagedKv.PagedKvCache.Usage` | crates/moearc-engine/src/kv.rs:194-210 | used pages, free pages and lost pages add up to the pool; slack is the slots allocated and not written, under one page per sequence |
| `PagedKv.Conservation` | crates/moearc-engine/src/kv.rs:194-210 | free list, live tables and lost pages divide the pool |
| `KvMemory.PlacesApart` | crates/moearc-engine/src/kv.rs:163-168 | no two tokens of any sequences share a page and slot |
| `KvMemory.CellInjective` | crates/moearc-kernels/kernels.cpp:1790-1795 | page, slot and entry can be read off an address |
| `KvMemory.CellsInOrder` | crates/moearc-kernels/kernels.cpp:1790-1795 | pages, slots and entries lie one after the other from the start of the buffer |
| `KvMemory.KeptBits` | crates/moearc-kernels/kernels.cpp:427-440 | under the number 0 every 32-bit pattern is kept as it is, under 1 sixteen bits are, and no other number is known |
| `KvMemory.KvAppend` | crates/moearc-kernels/kernels.cpp:1782-1799 | in any order of work-items, writes exactly one slot of both buffers; a bad geometry or an unknown element type is refused and changes nothing |
| `KvMemory.LoadCell` | crates/moearc-kernels/kernels.cpp:427-432 | the float loaded from a cell stands for the number the cell stores |
| `KvMemory.WriteShows` | crates/moearc-kernels/kernels.cpp:1790-1796 | writing a token's place writes that token of its sequence and no other |
| `KvStoring.KvStore.AppendToken` | crates/moearc-engine/src/kv.rs:144-169 | allocator and kernel together append one token to one private array |
| `KvStoring.KvStore.BeginSequence` | crates/moearc-engine/src/kv.rs:120-138 | a begun sequence has a blank private array of its prompt's length, exactly when it is admissible |
| `KvStoring.KvStore.FillToken` | crates/moearc-engine/src/kv.rs:183-185 | writing a token of a begun prompt through its page table fills that token of the private array |
| `KvStoring.KvStore.EndSequence` | crates/moearc-engine/src/kv.rs:172-180 | an ended sequence is gone and the others are as they were |
| `KvBooks.FreeIsSpare` | crates/moearc-engine/src/kv.rs:194-210 | the free list is exactly as long as the pool less the pages the private arrays need and the lost ones |
| `KvBooks.LosesIffOverwrites` | crates/moearc-engine/src/kv.rs:120-138 | over a run pages are lost exactly if some accepted begin overwrote a live sequence that held tokens |
| `KvBooks.BegunTwice` | crates/moearc-engine/src/kv.rs:136 | a pool of two one-token pages loses one when a sequence is begun twice |
| `KvStoring.KvStore.Execute` | crates/moearc-engine/src/kv.rs:120-180 | any interleaved run over any sequences: each operation is accepted exactly when the private arrays and the losses so far say so, both buffers show what the private arrays hold, and as many pages are lost as they say |
| `Lanes.LanesCover` | crates/moearc-kernels/kernels.cpp:1359-1370 | strided lanes share a row out completely |
| `Softmax.SoftmaxRow` | crates/moearc-kernels/kernels.cpp:1351-1375 | a row with a logit in range becomes its two-pass softmax, any other what the clamped sum gives; masked entries are zero, also in a fully masked row; nothing else changes |
| `Softmax.SoftmaxRows` | crates/moearc-kernels/kernels.cpp:1343-1379 | every row of the launch becomes so; rows without columns are refused and change nothing |
| `Softmax.ClampIdle` | crates/moearc-kernels/kernels.cpp:1337-1341 | the clamp under the sum does nothing unless the row is fully masked |
| `Softmax.SharesSumToOne` | crates/moearc-kernels/kernels.cpp:1323-1375 | the shares of a row add up to one |
| `Softmax.MaskMultiplies` | crates/moearc-kernels/kernels.cpp:1360-1362 | a mask entry multiplies the term of its logit by its exponential, or by zero, whatever the scale |
| `Softmax.ScaleIsOfRow` | crates/moearc-kernels/kernels.cpp:1360-1362 | the scale is of the row and not of the mask |
| `Attention.RunningStep` | crates/moearc-kernels/kernels.cpp:1891-1900 | folding in a key under any new maximum keeps both accumulators the two-pass sums over a common factor |
| `Attention.AttnLane` | crates/moearc-kernels/kernels.cpp:1877-1903 | the running maximum, denominator and sum end at the two-pass quotient |
| `Attention.AttnDecode` | crates/moearc-kernels/kernels.cpp:1837-1923 | in any order of work-items every head and entry gets its two-pass attention; bad shapes and unknown element types are refused and change nothing |
| `Attention.WindowIsMask` | crates/moearc-kernels/kernels.cpp:1813-1821 | starting at kv_begin is giving the earlier keys weight zero |
| `Attention.NoSinkIsSoftmax` | crates/moearc-kernels/kernels.cpp:1359-1375 | without a sink, attention is the sum of all values weighted by the masked softmax |
| `Attention.SinkDrains` | crates/moearc-kernels/kernels.cpp:1865-1872 | with a sink the weights add up to less than one |
| `GroupedQuery.HeadByHead` | crates/moearc-kernels/kernels.cpp:1853-1903 | query head kv * group + g attends to key-value head kv and nothing else: a plain head over plain lists of keys and values |
| `GroupedQuery.GroupedIsExpanded` | crates/moearc-kernels/kernels.cpp:1861 | grouped-query attention is multi-head attention over the cache in which every head of a group holds a copy of its key-value head |
| `GroupedQuery.SinkIsAKey` | crates/moearc-kernels/kernels.cpp:1865-1872 | a sink is one more key with the sink for its score and a value of zero |
| `PagedAttention.LayoutIrrelevant` | crates/moearc-kernels/kernels.cpp:1882-1899 | attention depends on the entries and not on where they are kept |
| `PagedAttention.AttendsPrivately` | crates/moearc-kernels/kernels.cpp:1882-1899 | attention through a block table is attention over that sequence's private contiguous cache, whatever else the pool holds |
| `TopK.Ranking` | crates/moearc-kernels/kernels.cpp:1485-1489 | experts by logit descending, index ascending, each once |
| `TopK.RankingUnique` | crates/moearc-kernels/kernels.cpp:1485-1489 | there is only one such ranking |
| `TopK.PicksFollowRanking` | crates/moearc-kernels/kernels.cpp:1485-1489 | picking the best of what is left, again and again, can only follow the ranking |
| `TopK.SelectRound` | crates/moearc-kernels/kernels.cpp:1519-1543 | strided scans and two reductions find the best expert not yet selected |
| `TopK.Select` | crates/moearc-kernels/kernels.cpp:1510-1544 | for any lane width the k rounds select the first k of the ranking |
| `Router.LaneWeights` | crates/moearc-kernels/kernels.cpp:1556-1584 | the weights are the shares the gating defines, whatever maximum was subtracted |
| `Router.GatingsAgree` | crates/moearc-kernels/kernels.cpp:1556-1584 | gatings 1 and 2 are the same vector exactly when the clamp has nothing to do; otherwise every weight of gating 1 is smaller |
| `Router.ClampNeverActs` | crates/moearc-kernels/kernels.cpp:1570-1584 | for up to 16384 experts they are always the same |
| `Router.FirstOfEquals` | crates/moearc-kernels/kernels.cpp:1485-1489 | of equal logits the ranking puts expert 0 first |
| `Router.ClampCanAct` | crates/moearc-kernels/kernels.cpp:1570-1584 | with 16385 equal logits and the one expert the ranking selects they differ |
| `Router.OwnSharesSumToOne` | crates/moearc-kernels/kernels.cpp:1556-1572 | the softmax over the selected sums to one |
| `Router.RenormalisedTotal` | crates/moearc-kernels/kernels.cpp:1580-1583 | so do the renormalised weights when the clamp is idle; less otherwise |
| `Router.SharesAtMostOne` | crates/moearc-kernels/kernels.cpp:1573-1579 | gating 0 sums to at most one |
| `Router.WeightStandsAlone` | crates/moearc-kernels/kernels.cpp:1573-1584 | under gating 0 a weight does not depend on who else is selected |
| `Router.AllWeightsSumToOne` | crates/moearc-kernels/kernels.cpp:1573-1584 | under gating 0 the weights of all experts, each selected once, sum to exactly one |
| `Router.WeightsInRatio` | crates/moearc-kernels/kernels.cpp:1556-1584 | under every gating weights are to each other as the exponentials of their logits |
| `Router.TopkRouter` | crates/moearc-kernels/kernels.cpp:1495-1588 | every token of a batch gets its selection and weights; bad arguments are refused and change nothing |
| `ElfStrings.DeltaLeadsToBasename` | packaging/elf-relocatable.py:70-72 | adding the number of characters of the directory part leads to the file name exactly when each is one byte |
| `ElfStrings.TwoByteDirectory` | packaging/elf-relocatable.py:70-72 | a name whose directory is one two-byte character is led to its slash |
| `Utf8.TextDecoded` | packaging/elf-relocatable.py:70-72 | a text written in UTF-8 is decoded to the characters that were written |
| `Utf8.StrayByte` | packaging/elf-relocatable.py:70-72 | a byte that begins no written character, and only such a byte, is a character of its own |
| `Utf8.DeltaCountsCharacters` | packaging/elf-relocatable.py:96 | the offset grows by the number of characters of the directory part and the slash |
| `ElfStrings.SlashIsAByte` | packaging/elf-relocatable.py:89-91 | a slash character is a slash byte |
| `ElfRelocate.RewriteTable` | packaging/elf-relocatable.py:82-97 | the loop packs offsets in place as defined entry by entry, or fails as defined |
| `ElfTheorems.RewriteMoves` | packaging/elf-relocatable.py:82-98 | it succeeds exactly when no entry before DT_NULL fails, and then moves just the entries that name a path and leaves every other byte alone |
| `ElfTheorems.NamesBecomeBasenames` | packaging/elf-relocatable.py:75-98 | afterwards every name is the old one without its directory part; that is its file name exactly when the directory part is plain; a name without a slash is unchanged |
| `ElfTheorems.TrailingSlashFails` | packaging/elf-relocatable.py:92-94 | the run stops for want of a file name exactly at an entry whose name ends in a slash |
| `ElfTheorems.SecondRunIdle` | packaging/elf-relocatable.py:22 | a second run of the loop changes nothing, exactly when every directory part was plain |
| `ElfTheorems.Idempotent` | packaging/elf-relocatable.py:22 | so does a second run of the tool |
| `ElfTheorems.LocateSame` | packaging/elf-relocatable.py:40-67 | a buffer with the same header bytes has its table in the same place |
| `ElfImage.DynamicSection` | packaging/elf-relocatable.py:40-67 | in a file written out field by field the table is that of the first section of type 6, its strings those of the section its link names, refused unless of type 3 |
| `ElfImage.NoDynamicSection` | packaging/elf-relocatable.py:53-67 | a file without such a section is left alone |
| `ElfImage.TableReadBack` | packaging/elf-relocatable.py:82-84 | a table written out has its entries where the loop looks for them |
| `ElfImage.NameTags` | packaging/elf-relocatable.py:84-96 | an entry with tag 1 or 14 is moved exactly if its string is a path with a file name |
| `ElfImage.OtherTags` | packaging/elf-relocatable.py:84-88 | tag 0 ends the table and every other tag stays |
| `ElfTheorems.MakeRelocatable` | packaging/elf-relocatable.py:75-103 | the file is replaced only on success and only if something changed |
| `ShellQuote.RoundTrip` | crates/moearc-cli/src/serve.rs:888-898 | splitting the printed line gives back exactly the arguments |
| `ShellQuote.EscapedBody` | crates/moearc-cli/src/serve.rs:892-898 | the escape of embedded quotes is undone by the splitter |
| `ShellQuote.LineInjective` | crates/moearc-cli/src/serve.rs:888-898 | different argument lists are printed differently |
| `ShellQuote.ReadsAsAssignment` | crates/moearc-cli/src/serve.rs:892-898 | a printed argument reads as an assignment exactly when it is bare and starts with a name and = |
| `ShellQuote.AssignmentPrinted` | crates/moearc-cli/src/serve.rs:892-898 | the command `A=b` is printed as an assignment |
| `ShellQuote.PathIsOneWord` | crates/moearc-cli/src/tuning/resolve.rs:341-347 | the other copy prints a path as one word exactly when it is not empty |
| `ShellQuote.PathPrintedAsIs` | crates/moearc-cli/src/tuning/resolve.rs:341-347 | which paths it prints as they are |
| `ShellQuote.PrintedAsIs` | crates/moearc-cli/src/serve.rs:892-898 | an argument is printed as it is exactly when it is not empty and has none but letters, digits and nine signs |

## Left out

- Worker panics, `catch_unwind`, the `stop` flag and `Drop`: the barrier loop does not look at `stop`, so nothing is claimed after a panic.
- Parking, spin budgets, core pinning, timing counters and AVX dispatch of the executor; weak memory ordering; the lifetimes behind its shared buffers.
- The byte-length checks and the error returns of `submit` are one `Refuse` action, which leaves the job cell in any state; the too-short destination of `sync` is not modelled.
- HostProtocol.Apply: it is assumed that `submit` is called only when no job is in flight; `moe.rs` can return early between `submit` and `sync`, and what a later `submit` then does is not modelled.
- HostTheorems.InBounds: assumes, as does every theorem about the protocol, that a job's spec has the widths of the pool, as the spec of every caller has; `submit` checks bytes only, and `HostShapes` states what other specs do.
- HostTheorems.NoRace: assumes the same.
- HostTheorems.OutAtReturn: assumes the same.
- Rounding of floating-point sums and of `exp`, infinities and NaNs in scores, logits and activations: sums are exact, so the order of a reduction does not show.
- `f32::clamp` panics for a negative limit of the OpenAI activation; `Activate` takes the minimum and maximum.
- HostKernels.DotQ4k: like the other host products reads bytes past the end of a short buffer as zero, where the code would panic; lengths are checked by `BankSpec.Check` and the executor, and `RowIsLocal` shows that no byte behind a whole row matters.
- ExpertCaching.ExpertCache.Admit: the sorted, deduplicated list of a step is a set, and 32- and 64-bit counters do not wrap.
- Gathering.ServeSlots: one bank of weights, in slots of exactly its size; the real pool has three banks, staged the same way, and slots sized for the largest block, which `RowIsLocal` shows makes no difference.
- DeviceExperts.DeviceFfn: takes the banks of the experts as bytes, where `ServeProducts` takes them from the pool; a negative limit, at which the clamp of the host panics, is excluded.
- HostPolicy.Split: the fraction of the misses is taken exactly, where the code rounds to f32; the other results hold for any count.
- HostPolicy.Block: the host's share is a function that blends what it is handed, which `PoolMatchesSequential` proves of the pool.
- The static and ring admissions of `moe.rs`, and the planner, simulator and session around the cache.
- PagedKv.PagedKvCache.Usage: sums are unbounded, where the code multiplies and adds in 32 bits; they fit whenever all token slots of the pool do.
- KvStoring.KvStore.FillToken: writes a token of a begun prompt through `pages_of`; the code that prefills is not part of this model.
- Attention.AttnDecode: takes the page buffers as the numbers loaded from them; null arguments are not modelled.
- TopK.Select: logits below -FLT_MAX (minus infinity) are excluded, as the sentinel of an idle lane would then compete with them.
- ElfTheorems.RewriteMoves: assumes a string table that ends in a zero, holds the names and does not overlap the dynamic table; where that fails the loop reads what it has written.
- The console output of the rewriter and the loop over its arguments.
- ShellQuote.RoundTrip: splits into words only; reserved words, aliases and assignments of the grammar come after it, and a NUL, which no argument can have, is not excluded.
- The VRAM planner, the offline simulator, the context ladder, catalog and device matching, `fit.rs`, `host_budget.rs`, `fitness.rs`, `format.rs`: they would add easy members.
- Device enumeration, SYCL queues and profiling, downloads, terminal output, benchmarks and build scripts.
