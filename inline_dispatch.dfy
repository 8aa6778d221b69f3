/** `more::dispatch_queue` as declared in include/more_dispatch/more_dispatch.h,
    the version that stores each block inline in a fixed-size
    `dispatch_block`.  The lock and the condition variable are gone; what is
    left is a class whose two fields are updated in place, with each method
    proved against the reference machine in DispatchSpec.  A block is
    represented by its id; the log of invoked blocks is the `ran` result of
    the run methods. */
module InlineDispatch {
  import opened DispatchSpec

  class DispatchQueue {
    /** `_done`: the queue is stopped. */
    var done: bool
    /** `_queue`: the blocks waiting for the next run pass, oldest first. */
    var queue: seq<TaskId>

    /** The abstract value of the object. */
    function State(): Queue
      reads this
    {
      Queue(done, queue)
    }

    /** A new queue is open and empty. */
    constructor ()
      ensures State() == Empty
    {
      done := false;
      queue := [];
    }

    /** `dispatch` (and the private `_dispatch` it forwards to): on a stopped
        queue return false and change nothing; otherwise append the block at
        the tail and return true. */
    method Dispatch(t: TaskId) returns (ok: bool)
      modifies this
      ensures ok == !old(done)
      ensures done == old(done)
      ensures queue == if ok then old(queue) + [t] else old(queue)
      ensures Submitted(State(), ok) == DispatchSpec.Dispatch(old(State()), t)
    {
      if done {
        return false;
      }
      queue := queue + [t];
      return true;
    }

    /** `stop`: set the flag; calling it again changes nothing. */
    method Stop()
      modifies this
      ensures done && queue == old(queue)
      ensures State() == DispatchSpec.Stop(old(State()))
    {
      done := true;
    }

    /** The exit condition of `wait_until_done`'s loop. */
    function WaitUntilDoneMayReturn(): (r: bool)
      reads this
      ensures r <==> Drained(State())
    {
      !(!done || queue != [])
    }

    /** The body of block `t`: dispatch, through this queue's `dispatch`,
        the blocks its behaviour names. */
    method Invoke(b: Behavior, t: TaskId)
      modifies this
      ensures done == old(done)
      ensures queue == old(queue) + Admitted(old(State()), b(t))
      ensures State() == DispatchAll(old(State()), b(t)).queue
    {
      var children := b(t);
      var j := 0;
      while j < |children|
        invariant 0 <= j <= |children|
        invariant done == old(done)
        invariant queue == old(queue) + Admitted(old(State()), children[..j])
      {
        TakeSnoc(children, j);
        AppendAssoc(old(queue), children[..j], [children[j]]);
        var _ := Dispatch(children[j]);
        j := j + 1;
      }
      assert children[..j] == children;
    }

    /** The `for (auto& block : q) block.invoke();` loop over a batch that
        has already been swapped out of the queue. */
    method InvokeBatch(b: Behavior, batch: seq<TaskId>) returns (ran: seq<TaskId>)
      modifies this
      ensures ran == batch
      ensures done == old(done)
      ensures queue == old(queue) + Admitted(old(State()), Spawned(b, batch))
      ensures var o := RunBatch(b, batch, old(State()));
              State() == o.queue && ran == o.ran
    {
      ran := [];
      var i := 0;
      while i < |batch|
        invariant 0 <= i <= |batch|
        invariant done == old(done)
        invariant ran == batch[..i]
        invariant queue == old(queue) + Admitted(old(State()), Spawned(b, batch[..i]))
      {
        TakeSnoc(batch, i);
        SpawnedPrefix(b, batch, i);
        AppendAssoc(old(queue), Spawned(b, batch[..i]), b(batch[i]));
        ran := ran + [batch[i]];
        Invoke(b, batch[i]);
        i := i + 1;
      }
      assert batch[..i] == batch;
    }

    /** `run_once`: swap the pending blocks out, leaving the queue empty;
        return at once if there were none and the queue is stopped;
        otherwise invoke the batch in order.  Blocks dispatched meanwhile
        stay in the queue for a later pass. */
    method RunOnce(b: Behavior) returns (ran: seq<TaskId>)
      modifies this
      ensures ran == old(queue)
      ensures done == old(done)
      ensures queue == if done then [] else Spawned(b, old(queue))
      ensures var o := DispatchSpec.RunOnce(b, old(State()));
              State() == o.queue && ran == o.ran
    {
      var q := queue;
      queue := [];
      if q == [] && done {
        return [];
      }
      ran := InvokeBatch(b, q);
      EmptyAppend(Admitted(old(State()), Spawned(b, q)));
    }

    /** `run_forever` on a stopped queue: repeat the swap-and-invoke pass
        until a swap yields nothing; at that point the queue is stopped and
        empty, as the source asserts.  On an open queue the source would
        wait for another thread, which a sequential model does not have. */
    method RunForever(b: Behavior) returns (ran: seq<TaskId>)
      requires done
      modifies this
      ensures ran == old(queue)
      ensures Drained(State())
      ensures WaitUntilDoneMayReturn()
      ensures var o := DispatchSpec.RunForever(b, old(State()));
              State() == o.queue && ran == o.ran
    {
      ghost var start := State();
      ran := [];
      while true
        invariant done
        invariant (ran == [] && queue == start.pending) || (ran == start.pending && queue == [])
        decreases |queue|
      {
        var q := queue;
        queue := [];
        if q == [] {
          assert done;
          return;
        }
        var pass := InvokeBatch(b, q);
        assert pass == q && queue == [];
        ran := ran + pass;
      }
    }
  }

  /** The single-threaded test: three blocks that dispatch nothing, a stop,
      a rejected fourth dispatch, then `run_forever`, which runs the three
      blocks in order and returns. */
  method BasicQueueScenario() returns (ran: seq<TaskId>, lateAccepted: bool)
    ensures !lateAccepted
    ensures ran == [0, 1, 2]
  {
    var b: Behavior := t => [];
    var queue := new DispatchQueue();
    var ok := queue.Dispatch(0);
    ok := queue.Dispatch(1);
    ok := queue.Dispatch(2);
    queue.Stop();
    lateAccepted := queue.Dispatch(3);
    ran := queue.RunForever(b);
  }
}
