/**
 The main dispatch queue as far as the overlay's auto-hide task sees it.

 Every `DispatchWorkItem` the overlay creates and hands to `asyncAfter` gets a
 token: its position in the queue's history. A work item is Waiting until its
 deadline, Cancelled once `cancel()` was called on it before the deadline, and
 Finished once the deadline has passed (whether its block ran or was skipped).
 The delay itself is not modelled: reaching a deadline is an explicit event.
 */
module DispatchTimer {

  datatype WorkItem = Waiting | Cancelled | Finished

  /** The history of submitted work items; a token is an index into it. */
  type Queue = seq<WorkItem>

  const Empty: Queue := []

  /** Tokens whose block will still run when their deadline is reached. */
  function LiveIds(q: Queue): set<nat>
  {
    set id: nat | id < |q| && q[id] == Waiting
  }

  /** The queue after a submission, and the token of the submitted work item. */
  datatype Submitted = Submitted(queue: Queue, token: nat)

  /** Create a work item and submit it with `asyncAfter`. */
  function Submit(q: Queue): (r: Submitted)
    ensures |r.queue| == |q| + 1
    ensures |q| <= r.token < |r.queue|
    ensures r.token !in LiveIds(q)
    ensures LiveIds(r.queue) == LiveIds(q) + {r.token}
  {
    var q' := q + [Waiting];
    assert forall id: nat :: id < |q| ==> q'[id] == q[id];
    Submitted(q', |q|)
  }

  /**
   `cancel()` on a work item. Cancelling an item that already finished or was
   already cancelled changes nothing.
   */
  function Cancel(q: Queue, id: nat): (r: Queue)
    ensures |r| == |q|
    ensures LiveIds(r) == LiveIds(q) - {id}
  {
    if id < |q| && q[id] == Waiting then q[id := Cancelled] else q
  }

  /** The queue after a deadline, and whether the work item's block ran. */
  datatype Fired = Fired(queue: Queue, ran: bool)

  /** The deadline of work item `id` is reached; its block runs exactly when the item is live. */
  function Fire(q: Queue, id: nat): (r: Fired)
    ensures |r.queue| == |q|
    ensures r.ran <==> id in LiveIds(q)
    ensures LiveIds(r.queue) == LiveIds(q) - {id}
  {
    if id < |q| && q[id] != Finished then Fired(q[id := Finished], q[id] == Waiting) else Fired(q, false)
  }
}
