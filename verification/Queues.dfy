/** The unbounded FIFO under the logger and the UI dispatcher (src/platform/queue.h). */
module Queues {
  import opened Wrappers

  class Queue<T> {
    var items: seq<T>

    constructor ()
      ensures items == []
    {
      items := [];
    }

    method Push(item: T)
      modifies this
      ensures items == old(items) + [item]
    {
      items := items + [item];
    }

    method TryPop() returns (item: Option<T>)
      modifies this
      ensures if old(items) == [] then item == None && items == [] else item == Some(old(items)[0]) && items == old(items)[1..]
    {
      if items == [] {
        return None;
      }
      item := Some(items[0]);
      items := items[1..];
    }

    /** The stop-aware Pop, from the moment its wait ends: queued items are handed out even after a stop. */
    method Pop(stop: bool) returns (item: Option<T>)
      requires items != [] || stop
      modifies this
      ensures if old(items) == [] then item == None && items == [] else item == Some(old(items)[0]) && items == old(items)[1..]
    {
      item := TryPop();
    }
  }
}
