# Verified models of build-time reporting, chunked GPU memory, layer tracing and latency tools

This project models the stateful algorithms of a vLLM fork and of the tracing and profiling tools
around it, and proves what they are for. `dafny verify dfyconfig.toml` checks everything.

| modules | what they model |
|---|---|
| `NinjaTarget`, `NinjaSweepSpec`, `NinjaSweep`, `NinjaRefine`, `NinjaReport` | the weighted build times of `report_build_time_ninja.py`: a sweep over start and stop events, proved to compute for each step the integral of 1 / (steps running) |
| `NinjaLog`, `NinjaReader` | reading a `.ninja_log`, which keeps only the last build |
| `Alignment`, `ChunkPlan`, `VmDriver`, `Allocator`, `AllocatorEntry`, `AllocatorMalloc`, `PoolAccounts`, `AllocatorPool` | the ROCm path of `cumem_allocator.cpp`: chunk arithmetic, create-and-map with rollback, best-effort release, the error latch, sleep and wake, `my_malloc` and `my_free`, and the memory pool of `cumem.py` that records allocations |
| `FxCapture`, `FxWorker`, `FxWorld`, `FxManifest`, `FxSummary` | selected-layer capture: one process step by step, any number of processes over one trace directory with every file write a step of its own, and the summary derived afterwards |
| `UndoLog` | the four nested context managers that patch attributes during a trace |
| `ForwardContext`, `ForwardPaths` | the thread-local forward context, saved and restored by wrapped calls |
| `TopKDecode`, `TokenLocation`, `ScaleLayout` | masked top-k, token location, and strided layouts |
| `Text`, `Decimal`, `ProcessLabel`, `ProcessJoin` | range labels, their parser, and the join of measured rows |
| `NodeRanges`, `Reconstruction` | range compression and the grouping of trace nodes |
| `ServingMetrics` | counts and goodput of the serving benchmark |
| `Options`, `Sequences`, `Sets` | shared helpers |

How the model relates to the code:

- Times and durations are reals. Integers are unbounded except in `Alignment` and `ChunkPlan`, where
  64-bit wrap-around is written out.
- The GPU driver is a class whose every call may fail; a failed call changes nothing, and each call is
  logged. A successful call obeys these rules: a new handle is not live; a reserve returns a range that
  is not empty and overlaps no reservation and no mapping; a map needs a live handle and a free range; an
  unmap needs a range that was mapped as one; set-access needs a range that is not empty and mapped
  throughout; an address free needs the size that was reserved. Addresses do not wrap.
- Interruptions of the context managers are nondeterministic choices at every point between
  recording, patching and the next attribute. The body of the `with` statement is any set of deletions
  and writes.
- Library results are parameters: the fields of a split log line, the reading of a number, the indices
  chosen by `topk`, the tokenizer's counts, the outcome of a traced forward.
- Where code and its documentation differ the code is followed. `ReadTargets` is documented to
  return targets sorted by duration and returns them in order of first appearance. The weighted duration
  is documented as divided by the number of other running steps and is divided by the number of running
  steps, the step itself included.

What the proofs show about the code that a reader might not expect:

- `create_and_map` loses its first handle exactly when the error latch is already set or the context
  call at its beginning fails, and the create call that follows succeeds (`Allocator.Allocator.CreateAndMap`).
- A failing set-access call leaves all chunks mapped while `my_malloc` frees their address range
  (`AllocatorMalloc.MyMalloc`, `Allocator.Leftovers`). After a `my_malloc` whose driver call failed
  the latch stays set, so every later one is refused until a Python entry point clears it. A `my_malloc`
  that gives up because the heap or the callback failed leaves the latch clean and its reservation behind.
- A chunk size configured near 2^64 bytes makes the planned chunk size wrap to 0, which divides by
  zero, or makes the number of chunks wrap to 0 (`ChunkPlan.HugeChunksWrap`). In the second case nothing is
  mapped, so the set-access call fails; a pointer never comes back for a request that wraps
  (`AllocatorMalloc.MyMalloc`).
- `my_free` gives a reservation back only if the granularity divides the caller's size and rounding
  the size up did not wrap; otherwise it sets the latch, and every later `my_malloc` is refused
  (`AllocatorMalloc.MallocThenFree`).
- The pool records an allocation before it is mapped, so a failed `my_malloc` leaves a record of an address
  that is no longer reserved (`AllocatorPool.Pool.Malloc`). Leaving the pool's context gives no reservation
  back (`AllocatorPool.Pool.Trim`). Waking an allocation that is awake always raises, and if its mapping
  was what failed, its record holds other handles than before (`AllocatorPool.Pool.WakeOne`).
- The gather of the indexer cache reads the wrong block-table column for the last position of every
  block (`TokenLocation.ColumnIsRightExactlyInsideBlocks`).
- An event whose original forward raises is captured, counted against the layer's cap and never
  retried, but leaves no manifest row. The derived summary misses it if there is any other manifest
  row, and has it if there is none (`FxSummary.SummaryDescribesRun`).
- The rotary manager leaves an attribute on the instance that lived only on its class
  (`UndoLog.TraceWithPatches`, `UndoLog.TraceOneRotary`). The GEMM manager would too, but it patches Python
  modules, whose attributes are their own.
- With several processes and no manifest row, the summary is the record of a best-scoring process; what
  other processes captured is missing from it (`FxSummary.LayerCountsOfAll`).
- The build-time report divides by zero on a build that took no time, such as one step that starts and
  ends in the same millisecond (`NinjaReport.SummarizeEntries`).

## Model

| member | source | states |
|---|---|---|
| `NinjaReport.SummarizeEntries` | remote-home/vllm_cscc/tools/report_build_time_ninja.py:198-256 | the report fails with an IndexError exactly on an empty list, with a KeyError exactly when some step ends before it starts, and otherwise with a ZeroDivisionError exactly when the length is 0; whenever the sweep completes, every step holds its share of the time axis (time divided by the number of steps running, summed over its interval), the total is the time in which anything ran, and no later duration assertion can fire; the CPU time is the time axis counted once for every step running |
| `NinjaReport.TotalDurationIsWork` | remote-home/vllm_cscc/tools/report_build_time_ninja.py:217 | the sum of all durations is the sum over the pieces of time of their length times the number of steps running |
| `NinjaReport.Sweep` | remote-home/vllm_cscc/tools/report_build_time_ninja.py:230-256 | the same for any time order of the events, however events with equal time and action are arranged |
| `NinjaSweep.SweepEvents` | remote-home/vllm_cscc/tools/report_build_time_ninja.py:230-256 | the scan keeps "paid out plus owed to running steps = busy time so far"; at the end nothing runs |
| `NinjaSweep.ProcessEvent` | remote-home/vllm_cscc/tools/report_build_time_ninja.py:238-255 | one event keeps four things: who runs, that the accumulator stands exactly the share above each start value, conservation, and the settled shares of stopped steps |
| `NinjaSweep.Split` | remote-home/vllm_cscc/tools/report_build_time_ninja.py:244 | the share handed to each of n running steps adds up to the elapsed time |
| `NinjaSweep.CutsDoNotDependOnTies` | remote-home/vllm_cscc/tools/report_build_time_ninja.py:223-228 | any two arrangements of ties give the same cuts of the time axis, hence the same shares |
| `NinjaSweep.RunningIsCovering` | remote-home/vllm_cscc/tools/report_build_time_ninja.py:230-255 | wherever time passes, the dictionary of running steps holds exactly the steps whose interval covers that piece |
| `NinjaSweep.ChargeIsQuotient` | remote-home/vllm_cscc/tools/report_build_time_ninja.py:241-244 | the increment of the accumulator is the fair charge of the piece |
| `NinjaSweep.StopFindsStart` | remote-home/vllm_cscc/tools/report_build_time_ninja.py:248-254 | a stop event finds its step running if and only if the step does not end before it starts |
| `NinjaSweep.AdvanceConserves` | remote-home/vllm_cscc/tools/report_build_time_ninja.py:241-253 | raising the accumulator by q raises what is owed to the running steps by q for each of them, nothing else |
| `NinjaSweep.AdvanceKeepsBalance` | remote-home/vllm_cscc/tools/report_build_time_ninja.py:241-244 | letting time pass keeps every accrued share exact and keeps conservation |
| `NinjaSweep.StopKeepsBalance` | remote-home/vllm_cscc/tools/report_build_time_ninja.py:248-254 | a stop pays out exactly the step's share and keeps conservation |
| `NinjaSweepSpec.ShareBounds` | remote-home/vllm_cscc/tools/report_build_time_ninja.py:74-89 | a share lies between 0 and the duration, and n shares are at least the duration when n steps were built |
| `NinjaSweepSpec.BusyPlusIdle` | remote-home/vllm_cscc/tools/report_build_time_ninja.py:209-220 | busy and idle time tile the span from the first to the last cut |
| `NinjaSweepSpec.CoveredLengthIsDuration` | remote-home/vllm_cscc/tools/report_build_time_ninja.py:66-68 | the pieces inside a step's interval add up to its duration |
| `NinjaRefine.ExtraCutKeepsShare` | remote-home/vllm_cscc/tools/report_build_time_ninja.py:74-83 | the share is an integral: cutting time once more, anywhere (also before the first and after the last cut), changes no share |
| `NinjaRefine.SharesSumToBusy` | remote-home/vllm_cscc/tools/report_build_time_ninja.py:231-256 | the shares of all steps add up to the measure of the union of their intervals |
| `NinjaReport.LengthIsBusyPlusIdle` | remote-home/vllm_cscc/tools/report_build_time_ninja.py:209-221 | with no negative start the reported length is busy plus idle time, so the weighted total equals it exactly when the build was never idle |
| `NinjaReport.ZeroLengthIsOneMoment` | remote-home/vllm_cscc/tools/report_build_time_ninja.py:209-221 | with no negative start the length is 0 if and only if every step starts and ends at one moment |
| `NinjaReport.EarliestIsFirstStart` | remote-home/vllm_cscc/tools/report_build_time_ninja.py:209-214 | the "earliest" loop finds the first start if and only if no start is negative or the last entry starts first |
| `NinjaReport.NegativeStartIsForgotten` | remote-home/vllm_cscc/tools/report_build_time_ninja.py:209-214 | starts -5 and 3 are reported as starting at 3 |
| `NinjaReport.LatestIsLastEnd` | remote-home/vllm_cscc/tools/report_build_time_ninja.py:210-216 | the "latest" loop finds the last end if and only if some end is not negative |
| `NinjaReport.WeightedNeverExceedsDuration` | remote-home/vllm_cscc/tools/report_build_time_ninja.py:84-89 | the assertion in WeightedDuration holds for every step of every build |
| `NinjaReader.ReadTargets` | remote-home/vllm_cscc/tools/report_build_time_ninja.py:104-148 | the header and number errors exactly when they occur; otherwise the targets are, in order of first appearance, one per command hash of the last build, with that hash's first start and end and all its outputs in log order |
| `NinjaReader.ReadEntry` | remote-home/vllm_cscc/tools/report_build_time_ninja.py:124-147 | one line resets the dictionary exactly when it breaks the current build, then is recorded |
| `NinjaReader.Record` | remote-home/vllm_cscc/tools/report_build_time_ninja.py:144-147 | an entry becomes a new target or one more output of an existing one; the dictionary describes one entry more |
| `NinjaReader.BreaksIff` | remote-home/vllm_cscc/tools/report_build_time_ninja.py:124-143 | the comparison with the last end and with the stored target decides exactly whether any earlier line of the build conflicts |
| `NinjaReader.WindowRestarts` | remote-home/vllm_cscc/tools/report_build_time_ninja.py:124-143 | a line starts a new build exactly if its end lies before the one read last or some line of the current build has its hash and another start or end |
| `NinjaReader.OneBuildIsKept` | remote-home/vllm_cscc/tools/report_build_time_ninja.py:124-147 | a log whose ends are non-negative and in order, and whose lines of one hash share start and end, is kept whole |
| `NinjaReader.EverythingIsKept` | remote-home/vllm_cscc/tools/report_build_time_ninja.py:124-143 | with show_all no line is dropped |
| `NinjaLog.ParsedAt` | remote-home/vllm_cscc/tools/report_build_time_ninja.py:114-123 | each line with five fields becomes the next entry: start and end in milliseconds from the first two fields, output and hash from the last two |
| `NinjaLog.ParsedCount` | remote-home/vllm_cscc/tools/report_build_time_ninja.py:114-119 | lines with another number of fields become no entry |
| `NinjaLog.ParseAllFails` | remote-home/vllm_cscc/tools/report_build_time_ninja.py:120-123 | reading fails exactly if such a line has a start or end that is no number |
| `NinjaLog.WindowIsConsistent` | remote-home/vllm_cscc/tools/report_build_time_ninja.py:124-143 | after any log the lines kept have non-decreasing end times and one start and end per command hash |
| `NinjaLog.WindowTimes` | remote-home/vllm_cscc/tools/report_build_time_ninja.py:132-143 | every kept line has the start and end of its target |
| `NinjaLog.NamesAddUp` | remote-home/vllm_cscc/tools/report_build_time_ninja.py:144-148 | the outputs listed over all targets number exactly the lines kept |
| `NinjaLog.NamesInOrder` | remote-home/vllm_cscc/tools/report_build_time_ninja.py:144-148 | a target lists the outputs of its lines in log order |
| `NinjaLog.FirstsInOrder` | remote-home/vllm_cscc/tools/report_build_time_ninja.py:144-148 | targets come in the order of the first line of each |
| `NinjaReader.ReportLastBuild` | remote-home/vllm_cscc/tools/report_build_time_ninja.py:198-256 | reading and reporting compose: for any log the header, number, empty-build, backwards-step and zero-length failures happen exactly when the lines of the last build say so, and otherwise every step holds its share, the total is the busy time and the length is that of the build |
| `Alignment.AlignUpIsLeast` | remote-home/vllm_cscc/csrc/cumem_allocator.cpp:319 | rounding up gives the least multiple of the granularity that is not below the size |
| `Alignment.AlignUp64Exact` | remote-home/vllm_cscc/csrc/cumem_allocator.cpp:319 | on 64-bit words the rounding is right if and only if the sum does not wrap; when it wraps the result is 0 |
| `Alignment.CeilDiv64Exact` | remote-home/vllm_cscc/csrc/cumem_allocator.cpp:347-348 | the number of chunks is the ceiling quotient if and only if the sum does not wrap; otherwise it is 0 |
| `ChunkPlan.MemcreateChunkSize` | remote-home/vllm_cscc/csrc/cumem_allocator.cpp:24-42 | the configured chunk size is a positive multiple of a megabyte that fits 64 bits: the configured value when it is positive and does not overflow, else 256 MB |
| `ChunkPlan.PlanChunks` | remote-home/vllm_cscc/csrc/cumem_allocator.cpp:319-369 | division by zero exactly when the chunk size wraps; without wrap the chunks are positive multiples of the granularity, none above the aligned chunk size, as many as the ceiling quotient, adding up to the aligned size; with wrap there are no chunks, so the chunks cover the rounded size if and only if no sum wraps |
| `ChunkPlan.HugeChunksWrap` | remote-home/vllm_cscc/csrc/cumem_allocator.cpp:319-348 | two configured chunk sizes, one of which divides by zero and one of which cuts 4 MB into no chunks |
| `ChunkPlan.FillSizes` | remote-home/vllm_cscc/csrc/cumem_allocator.cpp:354-369 | the loop over my_min produces exactly such chunk sizes |
| `ChunkPlan.EveryByteInOneChunk` | remote-home/vllm_cscc/csrc/cumem_allocator.cpp:160-178 | the running-sum addresses tile the reservation: each byte lies in exactly one chunk |
| `Allocator.Allocator.Check` | remote-home/vllm_cscc/csrc/cumem_allocator.cpp:63-74 | the latch takes the last error and forgets none by itself |
| `Allocator.Allocator.CreateChunks` | remote-home/vllm_cscc/csrc/cumem_allocator.cpp:150-159 | all handles are created, each with the size of its chunk and in order, or the error is latched, the calls made so far are undone and only handles whose rollback release failed stay |
| `Allocator.Allocator.MapChunks` | remote-home/vllm_cscc/csrc/cumem_allocator.cpp:160-179 | all chunks are mapped at their running-sum addresses, or what was mapped and created is undone except where an unmap or release failed |
| `Allocator.Allocator.CreateAndMap` | remote-home/vllm_cscc/csrc/cumem_allocator.cpp:95-193 | with a clean latch and a working context call: success maps the whole tiling; a failed create or map leaves live handles and mappings as before if and only if every rollback call succeeded; a failed set-access leaves everything mapped. Exactly with a set latch or a failed context call the first created handle is lost. When the chunks add up to the size, the set-access request is in order. It completes exactly if the latch was clean and no driver call of it failed, and the calls are told for every ending: create every chunk with its own size, map it at its own address, make the whole range accessible, or the rollback of what was done |
| `Allocator.CompleteTranscript` | remote-home/vllm_cscc/csrc/cumem_allocator.cpp:150-190 | the calls of a create_and_map that completes, one by one |
| `Allocator.CallsOfChunk` | remote-home/vllm_cscc/csrc/cumem_allocator.cpp:150-233 | each create, map, unmap and release call names the size, address and handle of its own chunk |
| `Allocator.TranscriptFails` | remote-home/vllm_cscc/csrc/cumem_allocator.cpp:150-190 | the call completes exactly if no driver call failed |
| `Allocator.Allocator.CreateAndMapLatched` | remote-home/vllm_cscc/csrc/cumem_allocator.cpp:150-158 | entered with the latch set, one create call is made and nothing is rolled back |
| `Allocator.Allocator.UnmapAll` | remote-home/vllm_cscc/csrc/cumem_allocator.cpp:216-226 | every chunk is unmapped at the address at which it was mapped, and exactly the chunks whose call succeeded go |
| `Allocator.Allocator.ReleaseAll` | remote-home/vllm_cscc/csrc/cumem_allocator.cpp:228-233 | every handle is released and exactly those whose call succeeded go |
| `Allocator.Allocator.UnmapAndRelease` | remote-home/vllm_cscc/csrc/cumem_allocator.cpp:195-239 | the driver sees all unmaps and then all releases whatever fails, and the first failure is latched |
| `Allocator.FirstErrorIsFirst` | remote-home/vllm_cscc/csrc/cumem_allocator.cpp:217-237 | the reported code is the status of the first failing call, and 0 exactly when none failed |
| `Allocator.RollbackHandles` | remote-home/vllm_cscc/csrc/cumem_allocator.cpp:152-158 | releasing the created handles restores the live handles if and only if no release failed |
| `Allocator.RollbackTiles` | remote-home/vllm_cscc/csrc/cumem_allocator.cpp:164-176 | unmapping the mapped chunks restores the mappings if and only if no unmap failed |
| `Allocator.TilesCover` | remote-home/vllm_cscc/csrc/cumem_allocator.cpp:181-190 | mapped chunks cover the whole range, so that the set-access request is in order |
| `AllocatorEntry.PythonCreateAndMap` | remote-home/vllm_cscc/csrc/cumem_allocator.cpp:715-728 | the Python entry point always leaves a clean latch and raises exactly when the call did not complete; what a failed wake leaves in the driver is stated for every way to fail, and it raises exactly if the latch was set on entry or a driver call failed |
| `AllocatorEntry.PythonUnmapAndRelease` | remote-home/vllm_cscc/csrc/cumem_allocator.cpp:648-661 | raises exactly if the latch was set on entry or one of its driver calls failed; without an error exactly this allocation's handles and chunks go; the latch is clean afterwards |
| `AllocatorEntry.CreateAndReleaseAgain` | remote-home/vllm_cscc/csrc/cumem_allocator.cpp:150-237 | a successful create-and-map followed by an error-free unmap-and-release is the identity on live handles and mappings, and nothing raises unless the latch was set or a call failed |
| `AllocatorEntry.SleepAndWake` | remote-home/vllm_cscc/csrc/cumem_allocator.cpp:150-237 | any number of error-free sleep/wake rounds keep every mapped address with its size, all other handles, and the tiling at the same base, and they go through exactly if no driver call fails |
| `AllocatorMalloc.MyMalloc` | remote-home/vllm_cscc/csrc/cumem_allocator.cpp:299-427 | a set latch refuses the call before any memory is touched; after that the reservation is recorded with the rounded size; the process dies of a division by zero exactly when the chunk size wraps; a pointer means that no 64-bit sum wraps and that the mapped chunks cover the rounded size; a failure leaves of the driver's memory exactly what the failed calls left; giving up for want of heap or callback leaves the reservation behind; it is refused or fails exactly if the latch was set or a driver call failed, and the calls made are told |
| `AllocatorMalloc.MyFree` | remote-home/vllm_cscc/csrc/cumem_allocator.cpp:430-538 | without a usable record nothing changes; otherwise chunks and handles go as far as the driver allows, and the reservation goes exactly if the caller's size is the reserved size and the driver does not fail such a request; the calls made are told |
| `AllocatorMalloc.FreeMatchesReservation` | remote-home/vllm_cscc/csrc/cumem_allocator.cpp:319 | for every 64-bit size, the caller's size is the reserved size if and only if the granularity divides it and the rounding did not wrap |
| `AllocatorMalloc.MallocThenFree` | remote-home/vllm_cscc/csrc/cumem_allocator.cpp:299-538 | freeing a pointer with the size it was allocated with gives the reservation back if and only if the granularity divides the size, the rounding did not wrap and the driver does not fail a request that is in order; otherwise the latch is set; if no cleanup call fails either, the driver is as it was before the allocation |
| `AllocatorMalloc.MultiplesFit` | remote-home/vllm_cscc/csrc/cumem_allocator.cpp:319 | with a granularity that divides 2^64 the rounding of a multiple never wraps |
| `AllocatorMalloc.OneByteIsNotFreed` | remote-home/vllm_cscc/csrc/cumem_allocator.cpp:319 | one byte is reserved as 2 MB, so freeing one byte does not give it back |
| `AllocatorPool.Pool.Malloc` | remote-home/vllm_cscc/vllm/device_allocator/cumem.py:147-161 | a pointer is recorded and accounted for; a refusal changes nothing; an abandoned reservation is left behind; a failure leaves a record of an address that may no longer be reserved |
| `AllocatorPool.Pool.Free` | remote-home/vllm_cscc/vllm/device_allocator/cumem.py:163-176 | an unknown address is ignored; if no unmap or release fails, the allocation was awake and is gone, and its reservation stays behind exactly when the driver did not take it back |
| `AllocatorPool.Pool.Sleep` | remote-home/vllm_cscc/vllm/device_allocator/cumem.py:178-214 | if nothing raises, every recorded allocation was awake and now none is; what the driver holds is accounted for; it raises exactly if a driver call failed or the latch was set |
| `AllocatorPool.Pool.WakeUp` | remote-home/vllm_cscc/vllm/device_allocator/cumem.py:228-249 | if nothing raises, exactly the allocations with the tags, all asleep before, are awake with new handles; a failed wake that could be undone leaves everything accounted for; it raises exactly if a driver call failed or the latch was set |
| `AllocatorPool.Pool.WakeOne` | remote-home/vllm_cscc/vllm/device_allocator/cumem.py:228-241 | waking an allocation that is awake always raises, and its record then holds handles other than its live ones if the mapping failed |
| `AllocatorPool.Pool.Trim` | remote-home/vllm_cscc/vllm/device_allocator/cumem.py:287-293 | leaving the context unmaps and releases an unused allocation and forgets it, and leaves its reservation behind |
| `AllocatorPool.Pool.SleepAndWakeUp` | remote-home/vllm_cscc/vllm/device_allocator/cumem.py:178-249 | sleeping and waking the whole pool without an error puts a chunk of the same size at every address |
| `AllocatorPool.History` | remote-home/vllm_cscc/vllm/device_allocator/cumem.py:147-293 | after any history of allocations, frees, sleeps, wakes and context exits in which no driver call failed, the live handles, the mappings and the reservations are exactly the disjoint sums over the recorded allocations and the reservations left behind; with neither, the driver is empty |
| `PoolAccounts.AwakeIsMapped` | remote-home/vllm_cscc/vllm/device_allocator/cumem.py:178-249 | an allocation is awake exactly if its first chunk is mapped |
| `PoolAccounts.AddAllocation` | remote-home/vllm_cscc/vllm/device_allocator/cumem.py:147-161 | mapping a new or woken allocation adds its handles and chunks to the sums |
| `PoolAccounts.PutToSleep` | remote-home/vllm_cscc/vllm/device_allocator/cumem.py:213-214 | releasing an allocation takes exactly its handles and chunks out of the sums |
| `FxWorker.Worker.Forward` | remote-home/testdata/fx_trace_patch/vllm_selected_layer_fx_patch.py:1025-1110 | the wrapped forward does exactly what the step function says: state, manifest rows, layer rows, metadata file, exception; in particular an armed call of a known layer whose snapshot does not raise captures its event exactly if it is new, its phase and target are selected and the layer's cap is not reached |
| `FxWorker.Worker.RunFxTrace` | remote-home/testdata/fx_trace_patch/vllm_selected_layer_fx_patch.py:798-916 | one sample adds one manifest row and one to either the ok or the error counter, whatever raises |
| `FxWorker.Worker.WriteRunMetadata` | remote-home/testdata/fx_trace_patch/vllm_selected_layer_fx_patch.py:751-767 | the file is replaced unless it scores higher |
| `FxCapture.ForwardKeepsSound` | remote-home/testdata/fx_trace_patch/vllm_selected_layer_fx_patch.py:772-787 | every call keeps: per-layer counters equal to the captured events of the layer and within the cap, only targeted events captured, one distinct manifest row per sample, wanted phases only |
| `FxCapture.SoundCounts` | remote-home/testdata/fx_trace_patch/vllm_selected_layer_fx_patch.py:798-916 | ok + error = samples <= captured events, with equality exactly when every captured event has a manifest row |
| `FxCapture.CapturedOnce` | remote-home/testdata/fx_trace_patch/vllm_selected_layer_fx_patch.py:1049-1056 | a call captures at most one event, one that was not captured before, is targeted and in a wanted phase |
| `FxCapture.CapturesExactly` | remote-home/testdata/fx_trace_patch/vllm_selected_layer_fx_patch.py:772-787 | told from the settings, the call and what was captured: an event is captured if and only if it was before or its phase is selected, its key is listed (or, without listed keys, its layer is) and fewer than cap events of the layer were captured |
| `FxCapture.ForwardOutcome` | remote-home/testdata/fx_trace_patch/vllm_selected_layer_fx_patch.py:1030-1110 | what a call does to each counter, whether it raises, and the one row it writes, in terms of the call alone |
| `FxCapture.ScoreNeverFalls` | remote-home/testdata/fx_trace_patch/vllm_selected_layer_fx_patch.py:137-149 | a process never offers the file a lower score than it had |
| `FxWorld.FileHoldsBestOfRun` | remote-home/testdata/fx_trace_patch/vllm_selected_layer_fx_patch.py:709-767 | over any interleaving of the single writes of any number of processes the file's score is the maximum of all scores offered |
| `FxWorld.FileScoreNeverFallsInRun` | remote-home/testdata/fx_trace_patch/vllm_selected_layer_fx_patch.py:753-767 | over any continuation of such a run the file's score never falls |
| `FxWorld.LesserExitsKeepRecord` | remote-home/testdata/fx_trace_patch/vllm_selected_layer_fx_patch.py:753-767 | any number of workers with lower scores may finish their writes and exit in any order without touching the record |
| `FxWorld.RunAddsUp` | remote-home/testdata/fx_trace_patch/vllm_selected_layer_fx_patch.py:798-916 | over any interleaving every process is sound about its own rows (those written and those still to write), and the shared files hold the sums of all processes' counters less what they have still to write |
| `FxWorld.FlushPerformsAll` | remote-home/testdata/fx_trace_patch/vllm_selected_layer_fx_patch.py:1096-1110 | a process that makes its pending writes undisturbed leaves the directory as the wrapped forward of one worker does |
| `FxWorld.CapturedIsSampledPlusLost` | remote-home/testdata/fx_trace_patch/vllm_selected_layer_fx_patch.py:1049-1110 | over any interleaving, every captured event of a process was either sampled or lost because the original forward raised after the capture |
| `FxManifest.EventIdInjective` | remote-home/testdata/fx_trace_patch/vllm_selected_layer_fx_patch.py:1047 | different (forward, layer) pairs have different event ids |
| `FxManifest.CapturedByLayer` | remote-home/testdata/summarize_selected_layer_fx_trace.py:64-75 | the loop counts for every layer text the rows that carry it |
| `FxManifest.DeriveRunMetadata` | remote-home/testdata/summarize_selected_layer_fx_trace.py:78-101 | counts come from the manifest unless it is empty, the observed count always from the layer rows |
| `FxManifest.DerivedDescribesProcess` | remote-home/testdata/summarize_selected_layer_fx_trace.py:78-101 | for one process the derived summary equals its own if and only if every captured event was sampled or, when there is no manifest row, if and only if the record in the file is that of the process but for the observed events |
| `FxSummary.SummaryDescribesRun` | remote-home/testdata/summarize_selected_layer_fx_trace.py:78-101 | over any run of one process up to its exit, the sample, ok, error and observed counts that the summarizer derives from its files are the process's own; the captured events and per-layer counts are too if and only if the manifest is empty or no forward raised after its event was captured |
| `FxSummary.RaisingForwardIsLost` | remote-home/testdata/fx_trace_patch/vllm_selected_layer_fx_patch.py:1049-1073 | one sampled forward, then one that raises: two events captured, one in the derived summary |
| `FxSummary.RaisingForwardAlone` | remote-home/testdata/summarize_selected_layer_fx_trace.py:89-94 | a lone forward that raises leaves no row, and the derived summary has its event |
| `FxWorld.ExitLeavesOwnRecord` | remote-home/testdata/fx_trace_patch/vllm_selected_layer_fx_patch.py:1152-1153 | the write at exit of a lone process leaves that process's own record in the file |
| `FxSummary.LayerCountsOfAll` | remote-home/testdata/summarize_selected_layer_fx_trace.py:64-101 | over any run of any number of processes the derived count of a layer is at most the sum of their counters; all are equal if and only if no process lost an event or, when there is no manifest row and the file holds a best offer, if and only if that record has all that its process captured and no other process lost an event |
| `FxSummary.EventsOfAll` | remote-home/testdata/summarize_selected_layer_fx_trace.py:60-101 | the derived events are the union of what the processes sampled or, without a manifest row, those of the best offer; they number the sum of what the processes captured if and only if nothing is missing in the same sense and, for a manifest with rows, no event was captured by two processes |
| `FxSummary.LostButRecorded` | remote-home/testdata/summarize_selected_layer_fx_trace.py:89-94 | two processes, one raising forward and the exit of its process: an event is lost, yet all counts are the sums |
| `FxWorld.OffersAreStates` | remote-home/testdata/fx_trace_patch/vllm_selected_layer_fx_patch.py:709-767 | over any interleaving every record offered to the file is an earlier state of some process |
| `FxWorld.ExitsLeaveBestProcess` | remote-home/testdata/fx_trace_patch/vllm_selected_layer_fx_patch.py:1152-1153 | once every process has offered its last state, the file holds the last state of a process with the highest score |
| `UndoLog.UndoPutsBack` | remote-home/testdata/fx_trace_patch/vllm_selected_layer_fx_patch.py:610-618 | undoing a faithful log in reverse puts back every logged attribute, repeated or not and whatever happened to it, and touches no other |
| `UndoLog.AppendKeepsFaithful` | remote-home/testdata/fx_trace_patch/vllm_selected_layer_fx_patch.py:604-608 | recording an attribute before overwriting it keeps the log faithful |
| `UndoLog.Manager.Patch` | remote-home/testdata/fx_trace_patch/vllm_selected_layer_fx_patch.py:604-605 | an attribute is remembered, then overwritten; interruption before or after keeps the log faithful |
| `UndoLog.Manager.EnterLayernorms` | remote-home/testdata/fx_trace_patch/vllm_selected_layer_fx_patch.py:591-609 | exactly the wrapped RMSNorm methods and the compiled marks present are recorded, and after entry the methods are the class's own and the marks true; an interrupted entry has recorded no other attribute and can be undone |
| `UndoLog.Manager.EnterPlainParameters` | remote-home/testdata/fx_trace_patch/vllm_selected_layer_fx_patch.py:662-681 | exactly the tensor parameters that are not plain are recorded, and after entry each holds the plain copy of what it held itself; an interrupted entry has recorded no other and can be undone |
| `UndoLog.Manager.EnterNativeRotary` | remote-home/testdata/fx_trace_patch/vllm_selected_layer_fx_patch.py:691-703 | exactly the rotary modules with a native path and a forward method are recorded, and after entry they use the native path; an interrupted entry has recorded no other and can be undone |
| `UndoLog.Manager.EnterDefaultGemm` | remote-home/testdata/fx_trace_patch/vllm_selected_layer_fx_patch.py:625-652 | exactly the listed modules that have a dispatcher are recorded, and after entry they dispatch to the default; an interrupted entry has recorded no other and can be undone |
| `UndoLog.Manager.Exit` | remote-home/testdata/fx_trace_patch/vllm_selected_layer_fx_patch.py:610-618 | the finally block applies the list in reverse |
| `UndoLog.With` | remote-home/testdata/fx_trace_patch/vllm_selected_layer_fx_patch.py:840-847 | the slots patched are those the managers want, told from the attributes before entry, or fewer after an interruption; for any interruption and any body every patched attribute gets its old value back, and its old place on instance or class exactly when the layernorm manager patched it or it was the instance's own; every other attribute is as the body left it |
| `UndoLog.TraceWithPatches` | remote-home/testdata/fx_trace_patch/vllm_selected_layer_fx_patch.py:840-847 | around a body that leaves attributes alone, every attribute reads as before whatever is interrupted; the instances are unchanged if no attribute patched by the rotary or the GEMM manager lives on the class only, and once all managers were entered, only if; the body finds every patch in place and nothing else changed |
| `UndoLog.TraceOneRotary` | remote-home/testdata/fx_trace_patch/vllm_selected_layer_fx_patch.py:691-706 | one rotary module: nothing changes if the instance holds its forward method, and a copy stays on the instance if only the class does |
| `ForwardContext.Thread.Run` | remote-home/testdata/fx_trace_patch/vllm_selected_layer_fx_patch.py:919-1017 | for any tree of step, execute and layer calls, any of which may raise, the stored context afterwards is the one before, and every layer sees what lexical scoping of its enclosing calls gives (what that is, is told by the next three rows) |
| `ForwardPaths.LayersSeeInnermost` | remote-home/testdata/fx_trace_patch/vllm_selected_layer_fx_patch.py:304-336 | over all trees: a layer sees the id, phase and total of the innermost execute call around it, the step of the innermost step call or tag, and the incoming values where there is none; each id on its path was handed out by the object of that call |
| `ForwardPaths.ReachedLayersSee` | remote-home/testdata/fx_trace_patch/vllm_selected_layer_fx_patch.py:919-1017 | the layers that see a context are those reached, in order: up to the first call that raises uncaught |
| `ForwardPaths.RaisedExactly` | remote-home/testdata/fx_trace_patch/vllm_selected_layer_fx_patch.py:919-1017 | a call raises exactly if it does itself or a call in its body does and is not caught |
| `ForwardPaths.RunWhole` | remote-home/testdata/fx_trace_patch/vllm_selected_layer_fx_patch.py:919-1017 | the same three facts for a run of the patched code |
| `ForwardContext.Thread.RunOneLayer` | remote-home/testdata/fx_trace_patch/vllm_selected_layer_fx_patch.py:970-1008 | a layer directly inside an execute call sees the runner's new id |
| `ForwardContext.Thread.SetForwardContext` | remote-home/testdata/fx_trace_patch/vllm_selected_layer_fx_patch.py:304-321 | sets the four fields and returns the previous ones |
| `ForwardContext.Thread.NextId` | remote-home/testdata/fx_trace_patch/vllm_selected_layer_fx_patch.py:333-336 | the id is one above the object's counter |
| `ForwardContext.IdsAreConsecutive` | remote-home/testdata/fx_trace_patch/vllm_selected_layer_fx_patch.py:333-336 | the ids one object hands out over a whole tree are consecutive |
| `TopKDecode.DecodeRow` | remote-home/vllm_cscc/vllm/_xpu_ops.py:426-433 | the entries that are not -1 come first, number min(K, unmasked positions), and are a top-k selection of the positions up to the row's end; all others are -1 |
| `TopKDecode.DecodeRowPlainly` | remote-home/vllm_cscc/vllm/_xpu_ops.py:426-433 | entry c is a position exactly if c does not exceed the end position; the positions differ, lie up to the end, come with larger logits first, and no position left out has a larger one |
| `TopKDecode.TopKPerRowDecode` | remote-home/vllm_cscc/vllm/_xpu_ops.py:413-436 | every row of the output corner holds its selection and -1 after it; the rest of the output tensor is untouched |
| `TopKDecode.RowSplit` | remote-home/vllm_cscc/vllm/_xpu_ops.py:422-424 | row b * next_n + o gets the end position of the o-th new token of sequence b |
| `TopKDecode.TopKExists` | remote-home/vllm_cscc/vllm/_xpu_ops.py:429 | a selection as promised by topk exists for every row and every K up to its length |
| `TokenLocation.TokenIsLocated` | remote-home/vllm_cscc/vllm/_xpu_ops.py:333-340 | search minus one finds the one sequence that holds the token, the clamp never acts, and the position runs from 1 to the sequence length |
| `TokenLocation.PositionIsToken` | remote-home/vllm_cscc/vllm/_xpu_ops.py:333-340 | every position of every sequence is the place of exactly one token |
| `TokenLocation.ColumnIsRightExactlyInsideBlocks` | remote-home/vllm_cscc/vllm/_xpu_ops.py:343-347 | the block-table column read for a position is the one of its block if and only if the block size does not divide the position; otherwise it is the next one |
| `TokenLocation.BlockHolds` | remote-home/vllm_cscc/vllm/_xpu_ops.py:343-347 | which positions block q holds, and which the column read for a position stands for |
| `TokenLocation.WrongColumn` | remote-home/vllm_cscc/vllm/_xpu_ops.py:343-347 | with blocks of 64, position 64 is looked up in column 1 instead of 0 |
| `TokenLocation.LastTokenOverruns` | remote-home/vllm_cscc/vllm/_xpu_ops.py:343-344 | the last token's column lies within the sequence's blocks if and only if the block size does not divide the length |
| `ScaleLayout.FlatIsInjective` | remote-home/vllm_cscc/vllm/_custom_ops.py:530-549 | two-dimensional scales, aligned or not: different entries have different addresses, all inside the buffer |
| `ScaleLayout.BatchedIsInjective` | remote-home/vllm_cscc/vllm/_custom_ops.py:538-549 | three-dimensional scales: the same, over all batches |
| `ScaleLayout.AlignedFlat` | remote-home/vllm_cscc/vllm/_custom_ops.py:530-549 | aligned two-dimensional scales are stored column by column, each as long as the least multiple of the alignment that holds its rows |
| `ScaleLayout.AlignedBatched` | remote-home/vllm_cscc/vllm/_custom_ops.py:538-549 | aligned three-dimensional scales: the same, batch after batch |
| `ScaleLayout.Unaligned` | remote-home/vllm_cscc/vllm/_custom_ops.py:531-536 | without alignment all leading dimensions count as rows |
| `ScaleLayout.InvalidExactly` | remote-home/vllm_cscc/vllm/_custom_ops.py:530-549 | which inputs have no layout |
| `ProcessLabel.LabelRoundTrip` | remote-home/testdata/process_latency_patch/vllm_process_latency_patch.py:424-436 | parsing a printed label gives exactly the printed fields if and only if no value contains the separator |
| `ProcessLabel.LabelReadBack` | remote-home/testdata/process_latency_patch/vllm_process_latency_patch.py:424-436 | which value is read back under each of the seven names |
| `ProcessLabel.LabelStarts` | remote-home/testdata/process_latency_patch/vllm_process_latency_patch.py:424-436 | a label starts with the label's name and the separator |
| `ProcessLabel.PartWithoutEquals` | remote-home/testdata/summarize_process_latency_hipprof.py:34-36 | a part without the equals sign is skipped |
| `ProcessLabel.LaterPartWins` | remote-home/testdata/summarize_process_latency_hipprof.py:31-38 | a later part with the same name overwrites an earlier one |
| `ProcessLabel.BarIsLost` | remote-home/testdata/process_latency_patch/vllm_process_latency_patch.py:424-436 | a context holding the separator is not read back |
| `ProcessLabel.ParseLabel` | remote-home/testdata/summarize_process_latency_hipprof.py:31-38 | the loop builds the dictionary of all key=value parts after the first, later ones winning |
| `Text.SplitJoin` | remote-home/testdata/summarize_process_latency_hipprof.py:33 | splitting undoes joining when no part contains the separator |
| `Text.JoinSplit` | remote-home/testdata/summarize_process_latency_hipprof.py:33 | joining undoes splitting, for any text |
| `Text.PaddingAgrees` | remote-home/testdata/process_latency_patch/vllm_process_latency_patch.py:432 | printer and summarizer pad a process order alike, and padding twice changes nothing |
| `Text.PaddedShape` | remote-home/testdata/process_latency_patch/vllm_process_latency_patch.py:432 | a single digit gets one zero in front, other numbers none |
| `Text.PaddingInjective` | remote-home/testdata/summarize_process_latency_hipprof.py:217-234 | different orders have different padded keys |
| `ProcessJoin.RowMeetsItsProcess` | remote-home/testdata/summarize_process_latency_hipprof.py:221-235 | a measured row, padded or not, has the key of its own process and of no other |
| `ProcessJoin.GroupByKey` | remote-home/testdata/summarize_process_latency_hipprof.py:221-229 | the dictionary holds for every key exactly the rows with that key, in order |
| `ProcessJoin.Aggregate` | remote-home/testdata/summarize_process_latency_hipprof.py:231-268 | one summary row per event and process, with the counts of the matching patch and HIPTX rows |
| `ProcessJoin.SummaryRowIs` | remote-home/testdata/summarize_process_latency_hipprof.py:231-268 | the row of event i and process j stands at its place in the nested order and counts the measured rows with that context, event and order |
| `ProcessJoin.MatchingInOrder` | remote-home/testdata/summarize_process_latency_hipprof.py:221-229 | a group holds its rows in their order |
| `ProcessJoin.CountBothWays` | remote-home/testdata/summarize_process_latency_hipprof.py:231-268 | counting matches per pair or per row gives the same total, for any inputs |
| `ProcessJoin.JoinConservesRows` | remote-home/testdata/summarize_process_latency_hipprof.py:211-268 | with distinct events and distinct orders the counts over all summary rows add up to the number of input rows whose key is known |
| `NodeRanges.IndexRanges` | remote-home/testdata/reconstruct_selected_layer_fx_processes.py:176-188 | reading the printed ranges back and expanding them gives the original list of naturals, and no two neighbouring ranges could be merged |
| `NodeRanges.CompressedIsUnique` | remote-home/testdata/reconstruct_selected_layer_fx_processes.py:176-188 | no other list of unmergeable ranges expands to the same indices |
| `NodeRanges.RangeRoundTrip` | remote-home/testdata/reconstruct_selected_layer_fx_processes.py:185-187 | a printed range reads back as itself |
| `NodeRanges.RangeTextIs` | remote-home/testdata/reconstruct_selected_layer_fx_processes.py:185-187 | a run of one index prints as that index, a longer one with a dash |
| `Reconstruction.ReconstructEvent` | remote-home/testdata/reconstruct_selected_layer_fx_processes.py:241-270 | groups, assignments (the last definition wins), unassigned and duplicated indices are exactly what the definitions say |
| `Reconstruction.KeepInOrder` | remote-home/testdata/reconstruct_selected_layer_fx_processes.py:241-262 | a group keeps the order of its definition |
| `Reconstruction.LastOwnerIsLast` | remote-home/testdata/reconstruct_selected_layer_fx_processes.py:241-262 | an index belongs to the last definition that lists it |
| `Reconstruction.OwnersCount` | remote-home/testdata/reconstruct_selected_layer_fx_processes.py:264-270 | duplicates are counted over the definitions that list an index |
| `Reconstruction.CountsAddUp` | remote-home/testdata/reconstruct_selected_layer_fx_processes.py:294-296 | assigned plus unassigned is the number of distinct indices, and the node count if and only if no index repeats |
| `Reconstruction.GroupsPartition` | remote-home/testdata/reconstruct_selected_layer_fx_processes.py:264-270 | with distinct indices per definition the groups partition the nodes if and only if nothing is unassigned and nothing duplicated |
| `Reconstruction.ShippedDefsCoverOnce` | remote-home/testdata/reconstruct_selected_layer_fx_processes.py:28-101 | the twelve shipped definitions list every index from 0 to 154 exactly once and no other |
| `Reconstruction.ShippedDefsFit` | remote-home/testdata/reconstruct_selected_layer_fx_processes.py:264-270 | with the shipped definitions nothing is ever duplicated, and nothing unassigned if and only if every node index lies in 0..154 |
| `ServingMetrics.CalculateMetrics` | remote-home/vllm_cscc/benchmarks/benchmark_serving_structured_output.py:321-394 | completed counts the successful requests, the token totals are sums over them alone, output lengths are 0 for the others, and goodput counts exactly the successful requests whose times meet every objective given in milliseconds |
| `ServingMetrics.TpotIs` | remote-home/vllm_cscc/benchmarks/benchmark_serving_structured_output.py:341-346 | the time per output token, times the tokens after the first, is the time after the first token; 0 for at most one token |
| `ServingMetrics.CountGood` | remote-home/vllm_cscc/benchmarks/benchmark_serving_structured_output.py:356-379 | the k-th entries of the selected lists belong to the k-th successful request, so the zip checks that request's objectives |
| `ServingMetrics.GoodAtMostCompleted` | remote-home/vllm_cscc/benchmarks/benchmark_serving_structured_output.py:376-392 | goodput never exceeds the number of completed requests and never rises when objectives tighten |

## Left out

- The printed report, grouping by file extension and the warning about a corrupt log: formatting.
- Floating-point rounding in the sweep and in the metrics: values are exact reals.
- Stripping and splitting of log lines and Python's reading of integers: parameters of the reader.
- The CUDA branch of the allocator, Python reference counting, the interpreter lock (which some exits of `my_free` do not release), and several handle pointers sharing one cell: no chunk logic.
- 64-bit wrap-around of mapped addresses: a reservation returned by the driver does not wrap.
- CPU backup and restore of sleeping memory: copies by the CUDA runtime.
- AllocatorPool: the cells that hold an allocation's handles are part of its record, so the pool does not show two records sharing cells, or cells freed by a failed `my_malloc`.
- FX tracing itself, input cloning, artifact files and CSV or JSON formatting: library behaviour and I/O; an append to a file that fails is not modelled.
- Threads inside one worker: a process makes its writes in order and starts its next forward after them.
- Locking between processes: each append and each read-compare-replace of the metadata file is one step.
- Torn or unreadable metadata files: the file holds a complete record or none.
- Parsing of the target list and of other environment variables: the settings are values.
- Scheduler outputs without a recorded phase: the phase of an execute call is a parameter.
- TopKDecode.DecodeRow: logits are finite reals, because masked and unmasked positions with equal minus infinity cannot be told apart by topk.
- Prefill top-k, quantization numerics and the byte layout of the indexer cache: the gather addresses K rows with another stride than the store, so there is no round trip to prove.
- Ranges pushed and popped around each instrumented process, and device synchronisation: profiler behaviour.
- Medians, means and the per-context rows of the latency summary: only easy members.
- The order in which sorted sets are listed (event ids, unassigned and duplicated indices): they are sets here.
- Percentile and throughput figures, inter-token latencies and the network client of the benchmark.
- Build scripts, environment collection, kernel wrappers and beam search.
