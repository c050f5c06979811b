/** OutputPollingThread: the producer that moves the lines of one of the
    child's output streams into a queue. Its thread body is modelled as a
    sequential loop; the other thread's set_stop call is a parameter saying at
    which iteration it becomes visible. */
module Polling {
  import opened LineQueues

  /** A readable text stream, seen through readline: `pending` holds what the
      successive readline calls would return; once it is exhausted, readline
      returns "" (end of stream). A real readline returns "" only at end of
      file, so a `pending` that holds "" stands for a stream that ends
      there: `Run` stops at the first "" (see EndOfStream), and the lines the
      model keeps after it are nothing a child process can send. */
  class LineStream {
    var pending: seq<string>

    constructor (lines: seq<string>)
      ensures pending == lines
    {
      pending := lines;
    }

    method Readline() returns (line: string)
      modifies this
      ensures old(pending) == [] ==> line == "" && pending == []
      ensures old(pending) != [] ==> line == old(pending)[0] && pending == old(pending)[1..]
    {
      if pending == [] {
        line := "";
      } else {
        line := pending[0];
        pending := pending[1..];
      }
    }
  }

  /** Index of the first "" that readline returns, which ends
      `iter(readline, '')`; |lines| when the stream runs out first. */
  function EndOfStream(lines: seq<string>): (n: nat)
    ensures n <= |lines|
    ensures forall i :: 0 <= i < n ==> lines[i] != ""
    ensures n < |lines| ==> lines[n] == ""
  {
    if lines == [] || lines[0] == "" then 0 else 1 + EndOfStream(lines[1..])
  }

  function Min(a: nat, b: nat): nat {
    if a <= b then a else b
  }

  /** How many lines one run puts into the queue: none when the stop flag was
      already set, otherwise every line before end of stream or before the
      iteration at which the stop request is seen, whichever comes first. */
  function Forwarded(lines: seq<string>, stopped: bool, stopAt: nat): (n: nat)
    ensures n <= EndOfStream(lines)
    ensures forall i :: 0 <= i < n ==> lines[i] != ""
    ensures stopped ==> n == 0
    ensures !stopped && stopAt >= EndOfStream(lines) ==> n == EndOfStream(lines)
  {
    if stopped then 0 else Min(EndOfStream(lines), stopAt)
  }

  class OutputPollingThread {
    const out: LineStream
    const queue: LineQueue
    var stopSignal: bool
    const name: string

    constructor (out: LineStream, queue: LineQueue, name: string)
      ensures this.out == out && this.queue == queue && this.name == name
      ensures !stopSignal
    {
      this.out := out;
      this.queue := queue;
      this.stopSignal := false;
      this.name := name;
    }

    /** run(): put each line readline returns, in order, until readline
        returns "" or the stop flag is found set after a read. That last read
        line is consumed from the stream and lost. The stop request issued
        by another thread takes effect just before the check of iteration
        `stopAt`; a run nobody stops has `stopAt` past the end of the
        stream. */
    method Run(stopAt: nat)
      modifies this`stopSignal, out, queue
      ensures var p := old(out.pending);
              var n := Forwarded(p, old(stopSignal), stopAt);
              queue.items == old(queue.items) + p[..n] &&
              out.pending == p[Min(n + 1, |p|)..] &&
              stopSignal == (old(stopSignal) || stopAt < EndOfStream(p))
    {
      ghost var p := out.pending;
      ghost var q := queue.items;
      var k: nat := 0;
      while true
        invariant k <= EndOfStream(p)
        invariant old(stopSignal) ==> k == 0
        invariant !old(stopSignal) ==> k <= stopAt
        invariant stopSignal == old(stopSignal)
        invariant out.pending == p[k..]
        invariant queue.items == q + p[..k]
        decreases |out.pending|
      {
        var line := out.Readline();
        if line == "" {
          break;
        }
        if k == stopAt {
          SetStop();
        }
        if stopSignal {
          break;
        }
        queue.Put(line);
        assert p[..k + 1] == p[..k] + [line];
        k := k + 1;
      }
    }

    /** set_stop(): raises the flag whatever its value was, so a second call
        changes nothing. */
    method SetStop()
      modifies this`stopSignal
      ensures stopSignal
    {
      stopSignal := true;
    }
  }
}
