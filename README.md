# Salus admission and partitioning core, in Dafny

Salus is a GPU-sharing layer under TensorFlow. This project models the parts
of it that decide admission and resource partitioning, and proves
properties of them:

- `priority_semaphore.dfy` (module `PrioritySemaphore`) models the counting
  semaphore with strict priority levels from `src/utils/threadutils.h`. A
  request at level `p` is admitted only when no waiter is registered at a
  strictly higher level (a smaller index) and enough units are available.
  The blocking `wait` is split in two. `Wait` runs up to the point where the
  caller would block. `Wake` is one re-test of the wait predicate after a
  notify.
- `lane_mgr.dfy` (module `LaneMgr`) models the GPU lane manager in
  `lanemgr.cpp`. It carves a GPU's memory into lanes, keeps the lane list
  ordered by available memory, and serves a FIFO queue of single-lane
  layout requests with a best-fit policy. The proved invariant is that
  unassigned memory plus the partitions of all lanes never exceeds the
  device's total memory. That invariant is why the source's
  `CHECK_LE(availableMemory, totalMemory)` in `maybeRemoveLane` holds.
- `exec_task.dfy` (module `ExecTask`) models how an `ExecTask` is admitted,
  from `exectask.cpp`:
  - device-type filtering when an `ExecTask` is built;
  - `prepare`, which binds an `ExecTask` to a device and checks that a stateful
    kernel is not moved;
  - the device-name construction in `LookupDevice`;
  - `estimatedUsage`: the cache, the shape-based estimate, and the scaled
    session usage used after a memory failure. The divisor is
    `1 << (maxFailures + 1 - f)` with `f` the failure count clamped to
    `maxFailures`, so it shrinks as failures grow and is 2 once `f` reaches
    the maximum (`ExecTask.ScaleDivisor`);
  - `maybeMemoryFailure`;
  - `releasePreAllocation`.
- `log_checks.dfy` (module `LogChecks`) models the three log validators of
  `scripts/checks.py`. Each validator is a method with the script's loop. It
  is proved equal to a replay of a step function over the parsed events. The
  replay is then characterised by lemmas stated over the events alone.
- `wrappers.dfy` (module `Wrappers`) holds `Option` and `Result`.

Answers from the TensorFlow runtime are passed to the operations as
parameters. These are:

- the device registry;
- the kernel cache's `find_kernel` result;
- the session tracker's usage;
- the inferred output shapes of the node.

Callbacks of the lane manager are modelled as a log of delivered lanes.

## Model

| member | source | states |
|---|---|---|
| PrioritySemaphore.PrioritySemaphore.constructor | src/utils/threadutils.h:184-196 | the two static assertions are required; every level starts with no waiter and the count is the initial value |
| PrioritySemaphore.PrioritySemaphore.CanTake | src/utils/threadutils.h:240-251 | returns true exactly when no level above `p` has a waiter and the count covers `c`; waiters at `p` itself do not block |
| PrioritySemaphore.PrioritySemaphore.Post | src/utils/threadutils.h:198-208 | the count grows by `c`; the notified level is the highest-priority one that has a waiter, and none is notified only when no level has one |
| PrioritySemaphore.PrioritySemaphore.TryWait | src/utils/threadutils.h:223-231 | takes `c` units exactly when the admission rule holds, and never registers as pending |
| PrioritySemaphore.PrioritySemaphore.Wait | src/utils/threadutils.h:210-218 | on the fast path `c` units are taken and nothing is registered; otherwise exactly one waiter is added at `p`, the count is unchanged, and the caller is then not admitted |
| PrioritySemaphore.PrioritySemaphore.Wake | src/utils/threadutils.h:218-220 | a registered waiter that is admitted deregisters and takes `c`; one that is not admitted changes nothing |
| PrioritySemaphore.SlowPathNetEffect | src/utils/threadutils.h:198-221 | a waiter that blocks and is later admitted leaves every pending counter as it was, and its net debit is exactly `c` |
| PrioritySemaphore.ThreeLevelsContend | src/utils/threadutils.h:181-183 | with waiters at levels 2, 1 and 0 and one unit posted, only level 0 is notified and admitted; levels 1 and 2 stay pending |
| LaneMgr.TotalOfConcat | src/oplibraries/tensorflow/device/gpu/lane/lanemgr.cpp:173-185 | the memory given to lanes adds up over concatenated lists |
| LaneMgr.FirstGreater | src/oplibraries/tensorflow/device/gpu/lane/lanemgr.cpp:178-184 | the insertion point is the first lane with strictly more available memory, and every lane before it has no more |
| LaneMgr.InsertKeepsSorted | src/oplibraries/tensorflow/device/gpu/lane/lanemgr.cpp:177-185 | inserting at that point keeps a list ascending by available memory |
| LaneMgr.InsertAccounting | src/oplibraries/tensorflow/device/gpu/lane/lanemgr.cpp:173-185 | inserting a lane adds exactly its partition to the memory held by lanes |
| LaneMgr.InsertKeepsStreams | src/oplibraries/tensorflow/device/gpu/lane/lanemgr.cpp:175-185 | a lane with a fresh stream index keeps base streams distinct and below the next index |
| LaneMgr.FirstFit | src/oplibraries/tensorflow/device/gpu/lane/lanemgr.cpp:155-159 | the index found is the first lane whose total covers the memory and whose available memory covers the persistent size; none is found only when no lane fits |
| LaneMgr.Without | src/oplibraries/tensorflow/device/gpu/lane/lanemgr.cpp:211-217 | removal (remove_if over the base stream) never lengthens the list, and every lane it keeps comes from the input and has another base stream |
| LaneMgr.WithoutExactly | src/oplibraries/tensorflow/device/gpu/lane/lanemgr.cpp:211-217 | a lane survives removal exactly when it was in the list and its base stream differs from the removed one |
| LaneMgr.RemoveAccounting | src/oplibraries/tensorflow/device/gpu/lane/lanemgr.cpp:210-223 | removing a lane frees no more than its partition, so pool plus lanes stays within the device |
| LaneMgr.RemoveKeepsSorted | src/oplibraries/tensorflow/device/gpu/lane/lanemgr.cpp:211-217 | removal keeps a list sorted by available memory sorted |
| LaneMgr.RemoveKeepsStreams | src/oplibraries/tensorflow/device/gpu/lane/lanemgr.cpp:211-217 | removal keeps the base streams distinct and below the next index |
| LaneMgr.NewLaneConsistent | src/oplibraries/tensorflow/device/gpu/lane/lanemgr.cpp:169-185 | carving a lane out of a pool that covers it keeps pool plus lanes within the device, every lane within its partition, and the streams distinct |
| LaneMgr.RemoveConsistent | src/oplibraries/tensorflow/device/gpu/lane/lanemgr.cpp:210-223 | dropping a lane and returning its available memory keeps the same invariant |
| LaneMgr.GpuControlBlock.constructor | src/oplibraries/tensorflow/device/gpu/lane/lanemgr.cpp:65-67 | a control block starts with no lanes and the queried free memory, which must not exceed the total; that state is valid |
| LaneMgr.GpuControlBlock.NewLane | src/oplibraries/tensorflow/device/gpu/lane/lanemgr.cpp:165-187 | when memory is short, nothing changes; otherwise a lane whose total and available both equal the request gets the next stream, the pool shrinks by the request, the lane goes in before the first lane with more available memory, and the accounting invariant and the order are kept |
| LaneMgr.GpuControlBlock.BestFitFor | src/oplibraries/tensorflow/device/gpu/lane/lanemgr.cpp:146-163 | a new lane when the pool covers the request; otherwise the first fitting lane with the state unchanged, or none |
| LaneMgr.GpuControlBlock.MaybeRemoveLane | src/oplibraries/tensorflow/device/gpu/lane/lanemgr.cpp:204-224 | the lane is dropped; only its available memory returns to the pool; the pool stays at or below the total |
| LaneMgr.LayoutsOf | src/oplibraries/tensorflow/device/gpu/lane/lanemgr.cpp:141-142 | the layouts of the delivered requests, in delivery order |
| LaneMgr.LaneMgr.constructor | src/oplibraries/tensorflow/device/gpu/lane/lanemgr.cpp:41-68 | a manager over a valid control block starts with an empty queue and nothing delivered |
| LaneMgr.LaneMgr.ProcessStep | src/oplibraries/tensorflow/device/gpu/lane/lanemgr.cpp:123-143 | no lane is found exactly when the pool cannot cover the front request and no existing lane fits it, and then nothing changes, which is why the source's loop retries; otherwise the front request gets bestFitFor's lane (a new lane carved from the pool, or else the first fitting lane), which fits the request and is one of the GPU's lanes, its callback runs and it is popped; pool plus lane totals is unchanged and no lane the GPU held is lost |
| LaneMgr.ServeKeepsFifo | src/oplibraries/tensorflow/device/gpu/lane/lanemgr.cpp:139-142 | serving the front request appends it to the served log and removes it from the queue, so the queue at entry is still the served layouts followed by the queue |
| LaneMgr.LaneMgr.ServeFront | src/oplibraries/tensorflow/device/gpu/lane/lanemgr.cpp:124-143 | one iteration of the loop serves the front request exactly when a lane can serve it, and keeps FIFO order, fitting lanes held by the GPU, and pool plus lane totals |
| LaneMgr.LaneMgr.ProcessRequests | src/oplibraries/tensorflow/device/gpu/lane/lanemgr.cpp:120-144 | requests are served strictly in arrival order with one lane each; the queue at entry equals the served layouts followed by the queue at exit; every lane handed to a callback fits its request's memory limit and persistent size and is one of the GPU's lanes at exit; the pool plus the lanes' totals is conserved, so every lane carved out was debited from the pool; given at least one iteration per queued request, the loop stops only with an empty queue or with a front request no lane can serve |
| LaneMgr.LaneMgr.RequestLanes | src/oplibraries/tensorflow/device/gpu/lane/lanemgr.cpp:102-113 | a well-formed layout joins the back of the queue and the queue is processed in FIFO order, one fitting lane per served request, each one of the GPU's lanes, and with pool plus lane totals conserved, until it is empty or its front request cannot be served |
| ExecTask.NatToString | src/oplibraries/tensorflow/v2/exectask.cpp:260 | decimal text is non-empty and all digits |
| ExecTask.ParseNatToString | src/oplibraries/tensorflow/v2/exectask.cpp:260 | reading the decimal text back gives the number |
| ExecTask.ParseIntToString | src/oplibraries/tensorflow/v2/exectask.cpp:260 | the decimal text of any int, negative ones included, reads back as that int |
| ExecTask.DeviceNameRoundTrip | src/oplibraries/tensorflow/v2/exectask.cpp:248-260 | a device name reads back as whether it is a GPU and its index |
| ExecTask.DeviceNameInjective | src/oplibraries/tensorflow/v2/exectask.cpp:249-260 | two specifications share a registry name exactly when both or neither are GPUs and their indices agree, so every non-GPU type is looked up as a CPU |
| ExecTask.SupportedTypesOf | src/oplibraries/tensorflow/v2/exectask.cpp:69-78 | the loop's result is the filtered type list |
| ExecTask.KnownTypesExactly | src/oplibraries/tensorflow/v2/exectask.cpp:62-78 | a type is supported exactly when it is CPU or GPU and TensorFlow reported it; the list is no longer than TensorFlow's |
| ExecTask.Merge | src/oplibraries/tensorflow/v2/exectask.cpp:154 | each merged amount is the sum of the two parts |
| ExecTask.Scale | src/oplibraries/tensorflow/v2/exectask.cpp:161-162 | each scaled amount times the divisor gives back the original |
| ExecTask.Pow2 | src/oplibraries/tensorflow/v2/exectask.cpp:161 | a power of two is at least 1 |
| ExecTask.Pow2Monotone | src/oplibraries/tensorflow/v2/exectask.cpp:161 | powers of two are monotone |
| ExecTask.ScaleDivisorBounds | src/oplibraries/tensorflow/v2/exectask.cpp:156-161 | after a failure the divisor is at least 2 and at most 2^maxFailures (when that is positive), and it is exactly 2 once failures reach the maximum, hence always when the maximum (an int) is not positive |
| ExecTask.ScaleDivisorNonIncreasing | src/oplibraries/tensorflow/v2/exectask.cpp:156-162 | more failures never give a larger divisor; below the maximum, each failure halves it |
| ExecTask.ShapeTotalNoRank | src/oplibraries/tensorflow/v2/exectask.cpp:206-209 | outputs of unknown rank contribute nothing |
| ExecTask.ShapeEstimateKnown | src/oplibraries/tensorflow/v2/exectask.cpp:223-231 | an output of known rank adds its known-dimension product times its type size to the device's memory tag |
| ExecTask.ShapeEstimateUnknown | src/oplibraries/tensorflow/v2/exectask.cpp:206-209 | an output of unknown rank leaves the estimate unchanged |
| ExecTask.CountElements | src/oplibraries/tensorflow/v2/exectask.cpp:211-222 | the element count is the product of the known dimensions; unknown dimensions are skipped |
| ExecTask.EstimateFromShapes | src/oplibraries/tensorflow/v2/exectask.cpp:201-232 | the slow path's result is the shape estimate: everything goes on the single memory tag of the device, whether in host memory or not, and the result is empty when no output has a known rank |
| ExecTask.ResourceMonitor.Free | src/oplibraries/tensorflow/v2/exectask.cpp:142 | the freed ticket is no longer outstanding |
| ExecTask.ExecTask.constructor | src/oplibraries/tensorflow/v2/exectask.cpp:42-84 | the supported types are the filtered list; every supported type has a cached estimate on device 0, computed from the shapes |
| ExecTask.ExecTask.EstimatedUsage | src/oplibraries/tensorflow/v2/exectask.cpp:146-235 | after a failure, with session usage known, the merged usage divided by 2^(maxFailures+1-min(f,maxFailures)) replaces the cache entry; otherwise a cached entry is returned unchanged; otherwise the shape estimate, or an empty one when shapes are unknown; only the entry for this device changes |
| ExecTask.ExecTask.Prepare | src/oplibraries/tensorflow/v2/exectask.cpp:91-137 | succeeds exactly when the type is supported, the device exists, and any kernel found was recorded on this same, named device; the context is always stored; the kernel is kept only on success |
| ExecTask.ExecTask.ReleasePreAllocation | src/oplibraries/tensorflow/v2/exectask.cpp:139-144 | the context's ticket is freed with its monitor when there is one |
| ExecTask.ExecTask.MaybeMemoryFailure | src/oplibraries/tensorflow/v2/exectask.cpp:493-507 | RESOURCE_EXHAUSTED, and only that, counts one more failure and notifies the callback when set; tasks with a reference input are excluded |
| ExecTask.EstimateTwice | src/oplibraries/tensorflow/v2/exectask.cpp:172-176 | without a failure, a second estimate returns what the first did |
| ExecTask.FailThenEstimate | src/oplibraries/tensorflow/v2/exectask.cpp:149-165 | after the first memory failure, the next estimate is the session usage divided by 2^maxFailures, or by 2 when maxFailures is not positive |
| LogChecks.ReplayErrSticky | scripts/checks.py:12-16 | once a replay raises, later events do not change the outcome |
| LogChecks.ReplayAppend | scripts/checks.py:12-16 | replaying one more event is one more step |
| LogChecks.CheckThreadpool | scripts/checks.py:5-17 | the loop returns the replay of start/end events over a set |
| LogChecks.LiveSeqsExactly | scripts/checks.py:11-17 | a sequence number is in the result exactly when it has a start with no end after it |
| LogChecks.LiveSeqsFailsExactly | scripts/checks.py:15-16 | the check raises exactly when some end has no open start before it |
| LogChecks.NodeEventsPrefix | scripts/checks.py:26-36 | the events of a prefix of the lines are a prefix of the events |
| LogChecks.Remaining | scripts/checks.py:37 | the remaining entries are exactly the nodes with a non-zero counter, with those counters |
| LogChecks.PendingReplayLine | scripts/checks.py:26-36 | processing one more line is the line's step on the replay so far |
| LogChecks.PendingLineUpdate | scripts/checks.py:28-36 | the loop body on one line is the line's start step followed by its end step, raising when the node has no start left |
| LogChecks.PendingOpsStopsAt | scripts/checks.py:34-35 | the first violation raised on a prefix of the lines is what the whole check raises |
| LogChecks.CheckPendingOps | scripts/checks.py:20-39 | the loop returns the remaining counters and the started lines of the replay, or the first violation |
| LogChecks.PendingReplayCounts | scripts/checks.py:28-36 | each counter equals starts minus ends, and the lines recorded for a node are as many as its starts |
| LogChecks.PendingReplayFailsExactly | scripts/checks.py:34-35 | the check raises exactly when some propagate comes with no more starts than ends before it |
| LogChecks.PendingOpsRemainingExactly | scripts/checks.py:37-39 | a node remains exactly when its starts and ends differ, and its count is the difference |
| LogChecks.KernelEventsPrefix | scripts/checks.py:48-70 | the events of a prefix of the lines are a prefix of the events |
| LogChecks.KernelReplayMaybe | scripts/checks.py:51-70 | an optional match adds one step when present and nothing otherwise |
| LogChecks.KernelReplayLine | scripts/checks.py:48-70 | processing one more line is the line's create, find and delete steps on the replay so far |
| LogChecks.CheckKernelCreate | scripts/checks.py:42-71 | the loop returns the replay of the create, find and delete events, or the first violation |
| LogChecks.LiveAsLastTouches | scripts/checks.py:51-53 | after a create or delete of a kernel, the kernel is live for an op exactly when that event created it for that op |
| LogChecks.LiveAsLastUntouched | scripts/checks.py:55-61 | an event that neither creates nor deletes a kernel leaves whether it is live unchanged |
| LogChecks.KernelReplayExactly | scripts/checks.py:51-71 | a kernel maps to an op exactly when its last create or delete was a create with that op |
| LogChecks.KernelReplayFailsExactly | scripts/checks.py:57-70 | the check raises exactly when some find or delete names a kernel that is not live with that op |

## Left out

- Blocking, condition variables, mutexes and threads are not modelled.
  Every method is one critical section. A blocked waiter is the pair
  `Wait`/`Wake`, and no fairness or liveness claim is made.
- PrioritySemaphore.PrioritySemaphore.Post: does not model the `uint64_t`
  wrap-around of `m_count`, because counts are unbounded naturals.
- The default arguments of the semaphore (`c = 1`, `p = kDefaultPriority`)
  are not modelled. Callers pass both values.
- LaneMgr.LaneMgr.ProcessRequests: when no lane fits, the source busy-loops
  on the same request until another thread frees memory. The model runs at
  most `fuel` iterations and has no other threads, so it promises progress
  only for a fuel of at least one iteration per queued request, and makes
  no claim about termination.
- LaneMgr.LaneMgr.RequestLanes: requires a single-lane layout when the
  request is queued. The source checks that only when the request reaches
  the front of the queue, and a failed check aborts the process.
- Sortedness of the lane list is stated conditionally: it holds afterwards
  if it held before. It is not part of `Valid`, because the hold accounting
  that changes a lane's available memory is not part of this model.
- Reference counting of lanes, `removingLane`, `LaneHolder`, the
  TensorFlow device behind each lane, and the stream pool of
  `src/oplibraries/tensorflow/device/gpu.h` are not modelled. A lane is
  identified by its base stream index, and the first stream index is a
  constructor parameter.
- The LaneMgr constructor's queries to the GPU driver (free and total
  memory) are not modelled. Both values are parameters.
- Only the first GPU is served, as in the source.
- `resources::merge` and `resources::scale` are not part of this model.
  Merge is taken to add amounts per tag, and scale to multiply every
  amount by the factor.
- ExecTask.ExecTask.EstimatedUsage: amounts are exact reals, not `double`.
  The element count is unbounded, not a `size_t` that can wrap. The
  source's `1 << (maxFailures + 1 - f)` is an `int` shift; it is
  undefined for exponents of 31 or more, and the model computes the
  exact power of two.
- The session tracker, the shape inference and the memory-type lookup are
  parameters. The host-memory flag stands for "memory types were found and
  this output is in host memory". Since the source builds the host-memory
  tag from the same device as the device tag, both branches add to one tag.
- The constructor precomputes the estimate on device 0 of each supported
  type. This assumes that a bare `DeviceType` converts to a specification
  with index 0; the header defining `DeviceSpec` is not part of this model.
- The device found by `LookupDevice` is reduced to its name. The function
  library runtime, tensor-access recording and per-op allocator set up
  there are not modelled.
- ExecTask.ExecTask.Prepare: the kernel cache's answer is a parameter, so
  the model does not say how `find_kernel` fills its outputs. Only the
  status, the recorded device name and the kernel written out are used.
- `run`, `finish`, `DebugString` and `supportedDeviceTypes` are not
  modelled. They execute kernels and report results, which is outside the
  admission logic. `hasRefInput` is set in `run`, so here it only starts
  false.
- The resource monitor is reduced to its set of outstanding tickets.
- LogChecks.CheckPendingOps: returns the remaining counters as a map. The
  script returns a list of pairs in dictionary order, which the model does
  not keep.
- The validators' file reading, regular-expression matching and `print`
  calls are not modelled. Each log line is given already parsed into the
  matches it produced.
