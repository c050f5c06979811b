/** CrosSdkSession: the caller's side of an interactive child shell. It
    frames and writes commands to the child's input, and polls the two line
    queues that the stdout and stderr polling threads fill. */
module Sessions {
  import opened Text
  import opened LineQueues
  import opened Polling
  import opened Reading
  import opened Draining

  class CrosSdkSession {
    /** The probe's answer: run /bin/bash directly, or enter through cros_sdk. */
    const inChroot: bool
    const stdoutQueue: LineQueue
    const stdoutThread: OutputPollingThread
    const stderrQueue: LineQueue
    const stderrThread: OutputPollingThread
    /** Every write made to the child's input stream, in order. */
    var stdin: seq<string>
    /** How many of those writes a flush has pushed through. */
    var flushed: nat

    ghost predicate Valid()
      reads this
    {
      stdoutQueue != stderrQueue &&
      stdoutThread.queue == stdoutQueue && stderrThread.queue == stderrQueue &&
      flushed <= |stdin|
    }

    /** The queue `get_lines` reads from. */
    function Selected(fromStderr: bool): LineQueue {
      if fromStderr then stderrQueue else stdoutQueue
    }

    /** The queue `get_lines` leaves alone. */
    function Other(fromStderr: bool): LineQueue {
      if fromStderr then stdoutQueue else stderrQueue
    }

    /** One empty queue and one polling thread per output stream; the
        threads are created but not started. */
    constructor (inChroot: bool, stdout: LineStream, stderr: LineStream)
      ensures Valid()
      ensures this.inChroot == inChroot
      ensures fresh(stdoutQueue) && fresh(stderrQueue) && fresh(stdoutThread) && fresh(stderrThread)
      ensures stdoutQueue.items == [] && stderrQueue.items == []
      ensures stdoutThread.out == stdout && stderrThread.out == stderr
      ensures stdoutThread.name == "stdout" && stderrThread.name == "stderr"
      ensures !stdoutThread.stopSignal && !stderrThread.stopSignal
      ensures stdin == []
    {
      this.inChroot := inChroot;
      var outQueue := new LineQueue();
      stdoutQueue := outQueue;
      stdoutThread := new OutputPollingThread(stdout, outQueue, "stdout");
      var errQueue := new LineQueue();
      stderrQueue := errQueue;
      stderrThread := new OutputPollingThread(stderr, errQueue, "stderr");
      stdin := [];
      flushed := 0;
    }

    /** send_command: one write of the command with its terminator, then a
        flush unless `flush` is false. Earlier writes are untouched. */
    method SendCommand(cmd: string, flush: bool := true)
      requires Valid()
      modifies this`stdin, this`flushed
      ensures Valid()
      ensures stdin == old(stdin) + [Terminated(cmd)]
      ensures flushed == if flush then |stdin| else old(flushed)
    {
      var line := cmd;
      if !EndsWithNewline(line) {
        line := line + "\n";
      }
      stdin := stdin + [line];
      if flush {
        flushed := |stdin|;
      }
    }

    /** read_line: one read of the stdout queue; stderr's queue is not
        touched. */
    method ReadLine(during: Arrivals, timeoutMs: int := 0) returns (line: Poll)
      requires Valid()
      modifies stdoutQueue, during
      ensures var s := ReadSpec(old(stdoutQueue.items), timeoutMs, old(during.batches));
              line == s.poll && stdoutQueue.items == s.rest && during.batches == s.later
      ensures stderrQueue.items == old(stderrQueue.items)
    {
      line := ReadLineFromQueue(stdoutQueue, timeoutMs, during);
    }

    /** read_stderr_line: one read of the stderr queue; stdout's queue is not
        touched. */
    method ReadStderrLine(during: Arrivals, timeoutMs: int := 0) returns (line: Poll)
      requires Valid()
      modifies stderrQueue, during
      ensures var s := ReadSpec(old(stderrQueue.items), timeoutMs, old(during.batches));
              line == s.poll && stderrQueue.items == s.rest && during.batches == s.later
      ensures stdoutQueue.items == old(stdoutQueue.items)
    {
      line := ReadLineFromQueue(stderrQueue, timeoutMs, during);
    }

    /** The read that one iteration of get_lines makes: read_stderr_line or
        read_line, as `fromStderr` says. */
    method ReadSelected(during: Arrivals, timeoutMs: int, fromStderr: bool) returns (line: Poll)
      requires Valid()
      modifies Selected(fromStderr), during
      ensures var s := ReadSpec(old(Selected(fromStderr).items), timeoutMs, old(during.batches));
              line == s.poll && Selected(fromStderr).items == s.rest && during.batches == s.later
      ensures Other(fromStderr).items == old(Other(fromStderr).items)
    {
      if fromStderr {
        line := ReadStderrLine(during, timeoutMs);
      } else {
        line := ReadLine(during, timeoutMs);
      }
    }

    /** get_lines: reads until one yields None, keeping the non-empty lines;
        once a line is kept and only the first line may wait, the timeout
        drops to zero. It ends with the selected queue empty (or raises on
        a negative sleep, with the queue empty too) and the other queue as
        it was. `trace` records its sleeps and pops. */
    method GetLines(during: Arrivals, timeoutMs: int := 0, timeoutOnlyForFirstLine: bool := true,
                    fromStderr: bool := false)
      returns (r: Outcome, ghost trace: seq<Event>)
      requires Valid()
      modifies Selected(fromStderr), during
      ensures var d := DrainSpec(old(Selected(fromStderr).items), timeoutMs, timeoutOnlyForFirstLine,
                                 old(during.batches));
              r == d.outcome && trace == d.trace && during.batches == d.later
      ensures Selected(fromStderr).items == []
      ensures Other(fromStderr).items == old(Other(fromStderr).items)
    {
      var q := Selected(fromStderr);
      ghost var d0 := DrainSpec(q.items, timeoutMs, timeoutOnlyForFirstLine, during.batches);
      var lines: seq<string> := [];
      trace := [];
      var timeout := timeoutMs;
      var more := true;
      while more
        invariant more ==> d0 == Resume(trace, lines,
                                        DrainSpec(q.items, timeout, timeoutOnlyForFirstLine, during.batches))
        invariant !more ==> d0 == Drain(trace, Collected(lines), during.batches) && q.items == []
        invariant Other(fromStderr).items == old(Other(fromStderr).items)
        decreases |q.items| + |Flatten(during.batches)| + (if more then 1 else 0)
      {
        ghost var items := q.items;
        ghost var batches := during.batches;
        ghost var s := ReadSpec(items, timeout, batches);
        var line := ReadSelected(during, timeout, fromStderr);
        if line.SleepRaised? {
          ResumeAtRaise(trace, lines, items, timeout, timeoutOnlyForFirstLine, batches);
          trace := trace + WaitEvents(s, timeout);
          return Raised, trace;
        } else if line.NoLine? {
          ResumeAtEnd(trace, lines, items, timeout, timeoutOnlyForFirstLine, batches);
          trace := trace + WaitEvents(s, timeout);
          more := false;
        } else {
          ghost var trace0, lines0, timeout0 := trace, lines, timeout;
          trace := trace + (WaitEvents(s, timeout) + [Took(Seen(items, timeout, batches)[0])]);
          if line.text != "" {
            lines := lines + [line.text];
            if timeout != 0 && timeoutOnlyForFirstLine {
              timeout := 0;
            }
          }
          assert lines == lines0 + Kept(line.text);
          ResumeAfterLine(trace0, lines0, items, timeout0, timeoutOnlyForFirstLine, batches,
                          trace, lines, q.items, timeout, during.batches);
        }
      }
      r := Collected(lines);
    }
  }
}
