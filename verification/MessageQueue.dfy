/** The queue between the ingest and the egress thread: the critical sections of its methods.

    How threads interleave these sections, sleep and are woken is the subject of `HandOff`. */
module MessageQueue {
  /** What one pass through the wait predicate of `WaitPop` comes to. */
  datatype Outcome<+M> = Got(message: M) | Finished | MustSleep

  /** A message if there is one - also when the queue is closed or a stop was requested -, the
      end of the stream if there is none and none is awaited, and otherwise sleep. */
  function WaitOutcome<M>(queue: seq<M>, closed: bool, stop: bool): Outcome<M> {
    if queue != [] then Got(queue[0]) else if closed || stop then Finished else MustSleep
  }

  class MessageQueue<M> {
    var queue: seq<M>
    var closed: bool
    ghost var waiting: bool  // a thread sleeps in `WaitPop`

    /** A thread sleeps only while there is nothing to wake up for. */
    ghost predicate Valid()
      reads this
    {
      waiting ==> queue == [] && !closed
    }

    constructor ()
      ensures Valid() && queue == [] && !closed && !waiting
    {
      queue, closed, waiting := [], false, false;
    }

    /** Appends, and wakes the waiting thread. */
    method Push(message: M)
      modifies this
      ensures Valid() && !waiting
      ensures queue == old(queue) + [message] && closed == old(closed)
    {
      queue := queue + [message];
      waiting := false;
    }

    /** The part of `WaitPop` that runs under the lock each time it is awake. */
    method TryWaitPop(stop: bool) returns (outcome: Outcome<M>)
      modifies this
      ensures Valid() && (waiting <==> outcome.MustSleep?)
      ensures outcome == WaitOutcome(old(queue), old(closed), stop)
      ensures queue == (if outcome.Got? then old(queue)[1..] else old(queue))
      ensures outcome.Got? ==> old(queue) == [outcome.message] + queue
      ensures closed == old(closed)
    {
      var ready := queue != [] || closed;
      waiting := !ready && !stop;
      if !ready && !stop {
        return MustSleep;
      }
      if queue == [] {
        return Finished;
      }
      outcome := Got(queue[0]);
      queue := queue[1..];
    }

    /** Closes, and wakes the waiting thread.  Idempotent. */
    method Close()
      modifies this
      ensures Valid() && !waiting
      ensures closed && queue == old(queue)
    {
      closed := true;
      waiting := false;
    }
  }
}
