/** The first-in first-out queue (System.Collections.Queue) that every routine
    of the library fills or drains in place. */
module Queues {

  class Queue {
    /** The queued values, front first. */
    var items: seq<int>

    constructor ()
      ensures items == []
    {
      items := [];
    }

    /** Number of queued values. */
    function Count(): nat
      reads this
    {
      |items|
    }

    /** The front value, left in place. */
    function Peek(): int
      reads this
      requires items != []
    {
      items[0]
    }

    method Enqueue(v: int)
      modifies this
      ensures items == old(items) + [v]
    {
      items := items + [v];
    }

    method Dequeue() returns (v: int)
      requires items != []
      modifies this
      ensures v == old(items)[0] && items == old(items)[1..]
    {
      v := items[0];
      items := items[1..];
    }

    method Clear()
      modifies this
      ensures items == []
    {
      items := [];
    }
  }
}
