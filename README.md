# more-dispatch: the dispatch queue as a verified state machine

`more::dispatch_queue` is a work queue. Producers `dispatch` zero-argument
blocks. A consumer drains them in FIFO order with `run_once` or
`run_forever`. `stop` makes the queue refuse further blocks, and
`wait_until_done` blocks until the queue is stopped and empty. The
repository ships this class in two headers:

- `include/more_dispatch/more_dispatch.h` stores each block inline in a
  fixed-size `dispatch_block`.
- `include/more_dispatch.h` is the older version. It boxes each block in a
  `std::unique_ptr<dispatch_block>`.

Without its mutex and condition variable, each queue is a sequential state
machine with two fields, `_done` and `_queue`. The model has three files:

- `dispatch_spec.dfy` (module `DispatchSpec`) is the reference machine. It
  consists of the functions `Dispatch`, `Stop`, `Drained`, `DispatchAll`,
  `Invoke`, `RunBatch`, `RunOnce` and `RunForever`, each written step by step
  like the C++ code. A block is an abstract id. Invoking a block appends its
  id to the execution log. It also dispatches, to the same queue, the blocks
  its `Behavior` names. This is reentrant dispatch from inside a running
  block. The postconditions of these functions give their closed form, each
  proved from the contract of the recursive call: FIFO order, each taken
  block run exactly once, re-dispatched blocks deferred to a later pass,
  rejection after stop, and termination of `run_forever` on a stopped queue.
  A trace semantics (`Apply`, `Execute` over `Op`) carries the invariants
  that hold across any sequence of calls.
- `inline_dispatch.dfy` (module `InlineDispatch`) models the inline-storage
  header. Its class `DispatchQueue` has the fields `done` and `queue`, which
  its methods update in place. Each method is proved against the reference
  machine. The run methods return the execution log as `ran`.
- `boxed_dispatch.dfy` (module `BoxedDispatch`) models the `unique_ptr`
  header in the same way. A `Ptr` datatype stands for the caller's
  `dispatch_block::ptr&`. `DispatchPtr` returns the pointer's value after
  the call.

The model follows the code where the headers' own comments promise more:

- The doc comment of `wait_until_done`
  (include/more_dispatch/more_dispatch.h:121; include/more_dispatch.h:99)
  says all outstanding blocks have run. Its loop (line 125 / line 103)
  checks only `_done && _queue.empty()`, so a batch already swapped out may
  still be running on another thread. The model's `WaitUntilDoneMayReturn`
  is exactly the loop's exit condition. In the sequential model the promise
  does hold, and `DrainedMeansAllRan` proves it.
- The newer `run_forever` calls `notify_all` before it returns
  (include/more_dispatch/more_dispatch.h:161). The older one returns without
  it (include/more_dispatch.h:134), and the older `run_once` has no early
  return. Neither difference is visible in a sequential model, so both
  versions are proved against the same functions.

## Model

| member | source | states |
|---|---|---|
| InlineDispatch.DispatchQueue.constructor | include/more_dispatch/more_dispatch.h:90-91 | a new queue is open (`_done` false) and holds no blocks |
| InlineDispatch.DispatchQueue.Dispatch | include/more_dispatch/more_dispatch.h:93-110 | returns false and leaves `_done` and `_queue` unchanged on a stopped queue; on an open queue returns true and `_queue` becomes the old sequence with the block at the tail |
| InlineDispatch.DispatchQueue.Stop | include/more_dispatch/more_dispatch.h:112-119 | `_done` becomes true and `_queue` is untouched, so a second call changes nothing |
| InlineDispatch.DispatchQueue.WaitUntilDoneMayReturn | include/more_dispatch/more_dispatch.h:121-127 | the wait loop may exit exactly when the queue is stopped and `_queue` is empty |
| InlineDispatch.DispatchQueue.Invoke | include/more_dispatch/more_dispatch.h:33 | invoking a block leaves `_done` alone and appends to the live `_queue`, in order, every block it re-dispatches if the queue is open and none if it is stopped, as `DispatchAll` does |
| InlineDispatch.DispatchQueue.InvokeBatch | include/more_dispatch/more_dispatch.h:142-143 | the loop invokes every block of the swapped-out batch once, in order, and leaves in `_queue` what was there followed by what the batch re-dispatched (nothing if stopped), as `RunBatch` does |
| InlineDispatch.DispatchQueue.RunOnce | include/more_dispatch/more_dispatch.h:130-144 | runs exactly the blocks pending at the swap, in order, each once; afterwards `_queue` holds only what they dispatched (nothing if stopped); the early return on an empty, stopped queue gives the same result |
| InlineDispatch.DispatchQueue.RunForever | include/more_dispatch/more_dispatch.h:146-168 | on a stopped queue, runs exactly the pending blocks in order and returns with the queue stopped and empty, so `wait_until_done` may return: `_done` is asserted at line 160 and the swap at line 157 left `_queue` empty |
| InlineDispatch.BasicQueueScenario | test/test.cpp:9-23 | three dispatches, stop, a rejected fourth dispatch; `run_forever` then runs the three blocks in order and returns |
| BoxedDispatch.DispatchQueue.constructor | include/more_dispatch.h:65-66 | a new queue is open and holds no blocks |
| BoxedDispatch.DispatchQueue.DispatchPtr | include/more_dispatch.h:71-79 | on a stopped queue returns false, leaves the queue unchanged and the caller's pointer still owning the block; on an open queue returns true, appends the block at the tail and leaves the caller's pointer null |
| BoxedDispatch.DispatchQueue.Dispatch | include/more_dispatch.h:81-88 | the lambda overload returns what the pointer overload returns for the boxed block, with the same effect on the queue |
| BoxedDispatch.DispatchQueue.Stop | include/more_dispatch.h:90-97 | `_done` becomes true and `_queue` is untouched; idempotent |
| BoxedDispatch.DispatchQueue.WaitUntilDoneMayReturn | include/more_dispatch.h:99-105 | the wait loop may exit exactly when the queue is stopped and `_queue` is empty |
| BoxedDispatch.DispatchQueue.Invoke | include/more_dispatch.h:35-38 | invoking a block leaves `_done` alone and appends to the live `_queue`, in order, every block it re-dispatches if the queue is open and none if it is stopped |
| BoxedDispatch.DispatchQueue.InvokeBatch | include/more_dispatch.h:116-117 | the loop invokes every block of the swapped-out batch once, in order, and leaves in `_queue` what was there followed by what the batch re-dispatched (nothing if stopped), as `RunBatch` does |
| BoxedDispatch.DispatchQueue.RunOnce | include/more_dispatch.h:107-118 | runs exactly the blocks pending at the swap, in order, each once, with no special case for an empty batch; afterwards `_queue` holds only what they dispatched |
| BoxedDispatch.DispatchQueue.RunForever | include/more_dispatch.h:120-138 | on a stopped queue, returns only after an empty swap, having run exactly the pending blocks in order; the queue is then stopped and empty, as the doc comment at lines 120-121 promises, so `wait_until_done` may return |
| BoxedDispatch.RejectedBlockStaysWithCaller | include/more_dispatch.h:71-79 | a block refused by a stopped queue stays with the caller, who can hand the same pointer to an open queue, where it is taken |
| DispatchSpec.DispatchAll | include/more_dispatch/more_dispatch.h:93-101 | dispatching a list of blocks one by one appends all of them, in order, on an open queue and none on a stopped one; the accepted list says which |
| DispatchSpec.Invoke | include/more_dispatch/more_dispatch.h:33 | invoking a block logs it once and appends what it dispatches to the live queue, or nothing if the queue is stopped |
| DispatchSpec.RunBatch | include/more_dispatch/more_dispatch.h:142-143 | invoking a batch logs exactly the batch, in order; blocks dispatched meanwhile go after what is already in the queue, or are all rejected if it is stopped |
| DispatchSpec.RunOnce | include/more_dispatch/more_dispatch.h:130-144 | `run_once` logs exactly the blocks pending at the swap, in submission order; re-dispatched blocks are not in that pass but are the whole new queue (empty if stopped) |
| DispatchSpec.RunForever | include/more_dispatch/more_dispatch.h:146-168 | on a stopped queue, `run_forever` terminates, runs exactly the pending blocks in order, accepts nothing and leaves the queue drained |
| DispatchSpec.RunOnceIdleWhenDrained | include/more_dispatch/more_dispatch.h:137-140 | `run_once` on a stopped, empty queue invokes nothing and changes nothing |
| DispatchSpec.StopIdempotent | include/more_dispatch/more_dispatch.h:112-119 | stopping twice equals stopping once; stop keeps the pending blocks |
| DispatchSpec.Apply | include/more_dispatch/more_dispatch.h:93-144 | each call keeps "invoked then pending equals previously pending then accepted", never clears `_done`, and on a stopped queue accepts nothing |
| DispatchSpec.Execute | include/more_dispatch/more_dispatch.h:66-75 | FIFO with no loss and no duplication: over any sequence of calls, the invoked blocks followed by the pending ones are the initially pending blocks followed by every accepted block, in acceptance order; once stopped, a queue stays stopped and accepts nothing |
| DispatchSpec.DrainedMeansAllRan | include/more_dispatch/more_dispatch.h:121-127 | after any sequence of calls on a new queue, if `wait_until_done` may return then every block the queue ever accepted has been invoked, in acceptance order |
| DispatchSpec.DispatchStopRunForever | test/test.cpp:9-23 | for any blocks: three dispatches are accepted, the one after `stop` is rejected, and `run_forever` runs exactly the three in order and drains the queue |

## Left out

- The mutex, the condition variable, `notify_all` and the blocking waits are concurrency, which a sequential model cannot express. `wait_until_done` is modelled as its exit condition (`WaitUntilDoneMayReturn`). The wait inside `run_forever` becomes the requirement that the queue is stopped.
- InlineDispatch.DispatchQueue.RunForever: requires a stopped queue. On an open queue the source blocks until another thread dispatches or stops, and there is no other thread here.
- BoxedDispatch.DispatchQueue.RunForever: requires a stopped queue, for the same reason.
- DispatchSpec.RunForever: defined only on a stopped queue, for the same reason.
- BoxedDispatch.DispatchQueue.DispatchPtr: requires the caller's pointer to own a block. The source would store a null pointer on an open queue and dereference it in `run_once`.
- A block is an id plus the list of blocks it re-dispatches to its own queue. Blocks that call `stop`, `run_once` or `run_forever` on their own queue, or that use other queues, are not modelled.
- `dispatch_thread` (include/more_dispatch/more_dispatch.h:186-215, include/more_dispatch.h:156-192) is thread creation and `join` around a queue.
- Inline storage and type erasure are memory layout and object lifetime: `movable_function::move_to` with placement `new`, `void* _space[4]`, and the virtual moves (include/more_dispatch/more_dispatch.h:20-64). This includes the requirement that a block fit its slot (the `assert` at line 37).
- The read of `_done` outside the lock in the inline `run_once` (include/more_dispatch/more_dispatch.h:137) is a data race. The model reads the field sequentially.
- The destructors stop the queue and then wait. They can deadlock when no thread consumes, which is a concurrency hazard.
- `test_infinite_recursion` (test/test.cpp:35-53) depends on `sleep_for` timing, and its counter values are nondeterministic. The `printf` output of the tests is I/O and appears only as block ids in the log.
- Blocks are assumed not to throw. In the source an exception from `block.invoke()` (include/more_dispatch/more_dispatch.h:143 and 166; include/more_dispatch.h:117 and 136) leaves `run_once` or `run_forever`, and the rest of the swapped-out batch is destroyed without running; under `dispatch_thread` it escapes the thread function. The no-loss property of `DispatchSpec.Execute` and `DispatchSpec.DrainedMeansAllRan` holds only for blocks that return normally.
- An allocation failure in `push_back` or in boxing a block is not modelled: `dispatch` always succeeds on an open queue.
