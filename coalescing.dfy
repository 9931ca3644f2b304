/**
 * The coalescing buffer: a `crossbeam_queue::ArrayQueue` created with
 * capacity one and used only through `force_push` and `pop`, by the writer
 * thread alone.
 */
module Coalescing {
  import opened Wrappers

  class OneSlotQueue<T> {
    var slot: Option<T>

    /** The queued elements, oldest first; the capacity is one. */
    ghost function Contents(): (s: seq<T>)
      reads this
      ensures |s| <= 1
    {
      if slot.Some? then [slot.value] else []
    }

    /** `ArrayQueue::new(1)`: an empty queue. */
    constructor ()
      ensures Contents() == []
    {
      slot := None;
    }

    /**
     * `force_push`: always keeps `x`; when the queue was full it evicts and
     * returns the element it held, otherwise it returns nothing.
     */
    method ForcePush(x: T) returns (evicted: Option<T>)
      modifies this
      ensures Contents() == [x]
      ensures evicted == if old(Contents()) == [] then None else Some(old(Contents())[0])
    {
      evicted := slot;
      slot := Some(x);
    }

    /** `pop`: removes and returns the element held, if any. */
    method Pop() returns (r: Option<T>)
      modifies this
      ensures Contents() == []
      ensures r == if old(Contents()) == [] then None else Some(old(Contents())[0])
    {
      r := slot;
      slot := None;
    }
  }
}
