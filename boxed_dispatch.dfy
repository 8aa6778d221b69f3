/** `more::dispatch_queue` as declared in include/more_dispatch.h, the older
    version that boxes each block behind a `dispatch_block::ptr`
    (a `std::unique_ptr`).  Same state machine as the inline version; the
    differences are the pointer-taking `dispatch`, which moves the caller's
    pointer out only on success, and a `run_once` without the early return
    for an empty batch on a stopped queue. */
module BoxedDispatch {
  import opened DispatchSpec

  /** A `dispatch_block::ptr`: null, or owning the block with the given id. */
  datatype Ptr = Null | Owned(task: TaskId)

  class DispatchQueue {
    /** `_done`: the queue is stopped. */
    var done: bool
    /** `_queue`: the owned blocks waiting for the next run pass, oldest
        first, each represented by the id of the block it owns. */
    var queue: seq<TaskId>

    /** The abstract value of the object. */
    function State(): Queue
      reads this
    {
      Queue(done, queue)
    }

    /** A new queue is open and empty. */
    constructor ()
      ensures State() == Empty
    {
      done := false;
      queue := [];
    }

    /** `dispatch(dispatch_block::ptr& block)`: on a stopped queue return
        false and leave the caller's pointer owning its block; otherwise move
        the block to the tail of the queue, leaving the caller's pointer null,
        and return true.  `left` is the caller's pointer afterwards. */
    method DispatchPtr(block: Ptr) returns (ok: bool, left: Ptr)
      requires block.Owned?
      modifies this
      ensures ok == !old(done)
      ensures left == if ok then Null else block
      ensures done == old(done)
      ensures queue == if ok then old(queue) + [block.task] else old(queue)
      ensures Submitted(State(), ok) == DispatchSpec.Dispatch(old(State()), block.task)
    {
      if done {
        return false, block;
      }
      queue := queue + [block.task];
      return true, Null;
    }

    /** The lambda overload of `dispatch`: box the function and hand the box
        to the pointer overload, returning its result. */
    method Dispatch(t: TaskId) returns (ok: bool)
      modifies this
      ensures ok == !old(done)
      ensures Submitted(State(), ok) == DispatchSpec.Dispatch(old(State()), t)
    {
      var block := Owned(t);
      var left;
      ok, left := DispatchPtr(block);
    }

    /** `stop`: set the flag; calling it again changes nothing. */
    method Stop()
      modifies this
      ensures done && queue == old(queue)
      ensures State() == DispatchSpec.Stop(old(State()))
    {
      done := true;
    }

    /** The exit condition of `wait_until_done`'s loop. */
    function WaitUntilDoneMayReturn(): (r: bool)
      reads this
      ensures r <==> Drained(State())
    {
      !(!done || queue != [])
    }

    /** `block->invoke()` for the block `t`: dispatch, through the lambda
        overload of this queue's `dispatch`, the blocks its behaviour names. */
    method Invoke(b: Behavior, t: TaskId)
      modifies this
      ensures done == old(done)
      ensures queue == old(queue) + Admitted(old(State()), b(t))
      ensures State() == DispatchAll(old(State()), b(t)).queue
    {
      var children := b(t);
      var j := 0;
      while j < |children|
        invariant 0 <= j <= |children|
        invariant done == old(done)
        invariant queue == old(queue) + Admitted(old(State()), children[..j])
      {
        TakeSnoc(children, j);
        AppendAssoc(old(queue), children[..j], [children[j]]);
        var _ := Dispatch(children[j]);
        j := j + 1;
      }
      assert children[..j] == children;
    }

    /** The `for (auto& block : q) block->invoke();` loop over a batch that
        has already been swapped out of the queue. */
    method InvokeBatch(b: Behavior, batch: seq<TaskId>) returns (ran: seq<TaskId>)
      modifies this
      ensures ran == batch
      ensures done == old(done)
      ensures queue == old(queue) + Admitted(old(State()), Spawned(b, batch))
      ensures var o := RunBatch(b, batch, old(State()));
              State() == o.queue && ran == o.ran
    {
      ran := [];
      var i := 0;
      while i < |batch|
        invariant 0 <= i <= |batch|
        invariant done == old(done)
        invariant ran == batch[..i]
        invariant queue == old(queue) + Admitted(old(State()), Spawned(b, batch[..i]))
      {
        TakeSnoc(batch, i);
        SpawnedPrefix(b, batch, i);
        AppendAssoc(old(queue), Spawned(b, batch[..i]), b(batch[i]));
        ran := ran + [batch[i]];
        Invoke(b, batch[i]);
        i := i + 1;
      }
      assert batch[..i] == batch;
    }

    /** `run_once`: swap the pending blocks out, leaving the queue empty,
        and invoke the batch in order.  Blocks dispatched meanwhile stay in
        the queue for a later pass. */
    method RunOnce(b: Behavior) returns (ran: seq<TaskId>)
      modifies this
      ensures ran == old(queue)
      ensures done == old(done)
      ensures queue == if done then [] else Spawned(b, old(queue))
      ensures var o := DispatchSpec.RunOnce(b, old(State()));
              State() == o.queue && ran == o.ran
    {
      var q := queue;
      queue := [];
      ran := InvokeBatch(b, q);
      EmptyAppend(Admitted(old(State()), Spawned(b, q)));
    }

    /** `run_forever` on a stopped queue: repeat the swap-and-invoke pass
        until a swap yields nothing, and return with the queue stopped and
        empty.  On an open queue the source would wait for another thread,
        which a sequential model does not have. */
    method RunForever(b: Behavior) returns (ran: seq<TaskId>)
      requires done
      modifies this
      ensures ran == old(queue)
      ensures Drained(State())
      ensures WaitUntilDoneMayReturn()
      ensures var o := DispatchSpec.RunForever(b, old(State()));
              State() == o.queue && ran == o.ran
    {
      ghost var start := State();
      ran := [];
      while true
        invariant done
        invariant (ran == [] && queue == start.pending) || (ran == start.pending && queue == [])
        decreases |queue|
      {
        var q := queue;
        queue := [];
        if q == [] {
          return;
        }
        var pass := InvokeBatch(b, q);
        assert pass == q && queue == [];
        ran := ran + pass;
      }
    }
  }

  /** A rejected pointer dispatch leaves the block with the caller, who can
      hand the very same pointer to another, open queue, where it is taken. */
  method RejectedBlockStaysWithCaller(t: TaskId) returns (first: bool, second: bool, left: Ptr)
    ensures !first && second && left == Null
  {
    var stopped := new DispatchQueue();
    stopped.Stop();
    var open := new DispatchQueue();
    var block := Owned(t);
    first, block := stopped.DispatchPtr(block);
    assert block == Owned(t);
    second, left := open.DispatchPtr(block);
  }
}
