/** The standard library's Queue as the session uses it: an unbounded FIFO of
    lines with put and get_nowait. Thread safety is not modelled; the model is
    sequential. */
module LineQueues {

  /** What get_nowait yields: the oldest line, or the Empty exception. */
  datatype Pop = Got(line: string) | Empty

  class LineQueue {
    /** The queued lines, oldest first. */
    var items: seq<string>

    constructor ()
      ensures items == []
    {
      items := [];
    }

    /** queue.put: the line joins the back. */
    method Put(line: string)
      modifies this
      ensures items == old(items) + [line]
    {
      items := items + [line];
    }

    /** queue.get_nowait: takes the oldest line, or raises Empty and leaves
        the queue as it is. */
    method GetNowait() returns (p: Pop)
      modifies this
      ensures old(items) == [] ==> p == Empty && items == []
      ensures old(items) != [] ==> p == Got(old(items)[0]) && items == old(items)[1..]
    {
      if items == [] {
        p := Empty;
      } else {
        p := Got(items[0]);
        items := items[1..];
      }
    }
  }
}
