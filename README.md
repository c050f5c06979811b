# Line queues of the cros_sdk session

This project models the line-queue plumbing of `wlauto/utils/cros_sdk.py`,
the interactive session with a ChromeOS SDK shell that Workload Automation
uses. The model is sequential and takes the same imperative form as the
source:

- **Text** (`text.dfy`) holds the two pure helpers. `Terminated` gives a
  command with the `'\n'` terminator that `send_command` adds when it is
  missing. `Strip` is Python's `str.strip('\n')`, which removes line feeds
  at both ends and not only the trailing one. `Framed` is the sequence of writes
  for a sequence of commands.
- **LineQueues** (`queues.dfy`) is the standard `Queue` as the session uses
  it: a class over a `seq<string>` with `put` and `get_nowait`. The Empty
  exception is a `Pop.Empty` result.
- **Polling** (`polling.dfy`) is the producer. `LineStream` is the child's
  output stream seen through `readline`. `OutputPollingThread` keeps the
  stream, the queue, `stop_signal` and the name as fields. Its thread body
  `Run` is a sequential loop. The other thread's `set_stop` call is a
  parameter `stopAt`: the iteration just before whose stop check the call
  becomes visible.
- **Reading** (`reading.dfy`) is `_read_line_from_queue`. The sleep between
  the two pops is an abstract step. An `Arrivals` object scripts what the
  producer puts meanwhile: each completed sleep appends the next batch to
  the back of the queue. `ReadSpec` states one read as a function, and the
  method `ReadLineFromQueue` is proved equal to it.
- **Draining** (`draining.dfy`) states `get_lines` as the recursive
  specification `DrainSpec`. It returns a trace of the drain's sleeps
  (`Waited`) and pops (`Took`) together with its outcome. Lemmas about this
  specification state FIFO order, the empty-line rule, the timeout rule and
  when an exception can escape.
- **Sessions** (`session.dfy`) is `CrosSdkSession`. It holds the two
  queues, the two threads, and the child's input stream as an append-only
  `seq<string>` with a count of flushed writes. `GetLines` is the source's
  `while` loop, proved equal to `DrainSpec` and to leave the selected queue
  empty and the other queue as it was.

Where the code is more specific than a reading of its comments suggests,
the model follows the code:

- `strip('\n')` removes every line feed at both ends of a line. A line such
  as `"\n\n"` therefore comes back as `""`.
- Lines are queued with their terminator and are stripped only when they
  are read.
- `run` checks the stop flag after `readline` has returned a line, so the
  line read in the stopping iteration is taken from the stream and never
  queued.
- `get_lines` drops the lines that are empty after stripping, but it
  consumes them and goes on reading.
- `timeout_in_ms` tests as true when it is negative as well. In that case
  `time.sleep` gets a negative duration and raises. `get_lines` then
  raises too, and the lines it had collected are lost.

## Model

| member | source | states |
|---|---|---|
| Text.Terminated | wlauto/utils/cros_sdk.py:75-76 | the framed command ends in a line feed, extends the command by at most that one character, and is the command itself when it already ends in one (no doubled terminator) |
| Text.Strip | wlauto/utils/cros_sdk.py:114 | the stripped line neither starts nor ends with a line feed and is no longer than the input |
| Text.StripShape | wlauto/utils/cros_sdk.py:114 | the stripped line is a contiguous slice of the input, and everything cut off on either side is line feeds |
| Text.StripFramed | wlauto/utils/cros_sdk.py:114 | a bare text surrounded by any runs of line feeds strips to exactly that text |
| Text.StripIdempotent | wlauto/utils/cros_sdk.py:114 | stripping twice gives the same as stripping once |
| Text.StripTerminated | wlauto/utils/cros_sdk.py:75-77 | framing a command with the terminator does not change what stripping it gives |
| Text.TerminatedRoundTrip | wlauto/utils/cros_sdk.py:75-77 | a command with no line feed at either end comes back unchanged from framing followed by stripping |
| LineQueues.LineQueue.constructor | wlauto/utils/cros_sdk.py:56 | a new queue is empty |
| LineQueues.LineQueue.Put | wlauto/utils/cros_sdk.py:39 | the line joins the back of the queue and the earlier lines are unchanged |
| LineQueues.LineQueue.GetNowait | wlauto/utils/cros_sdk.py:103-105 | on an empty queue, Empty with the queue left as it was; otherwise the oldest line, with the rest kept in order |
| Polling.LineStream.Readline | wlauto/utils/cros_sdk.py:36 | the next pending line is returned and consumed; an exhausted stream returns "" |
| Polling.EndOfStream | wlauto/utils/cros_sdk.py:36 | the index of the first "" that ends the iteration: every earlier line is non-empty, and the line at that index, if any, is "" |
| Polling.Forwarded | wlauto/utils/cros_sdk.py:35-39 | a run forwards no line when already stopped, never a line at or past end of stream, only non-empty lines, and every line before end of stream when nobody stops it |
| Polling.OutputPollingThread.constructor | wlauto/utils/cros_sdk.py:28-33 | stream, queue and name are stored, and the stop flag starts cleared |
| Polling.OutputPollingThread.Run | wlauto/utils/cros_sdk.py:35-39 | the queue gets exactly the in-order prefix of the stream that comes before end of stream or the stop; the stream loses that prefix plus the one line read when the loop ended; the flag ends set exactly when a stop came before end of stream or it was set already |
| Polling.OutputPollingThread.SetStop | wlauto/utils/cros_sdk.py:41-42 | the stop flag is set whatever it was before, so a second call changes nothing |
| Reading.ReadSpec | wlauto/utils/cros_sdk.py:101-115 | a read sleeps exactly when the first pop finds nothing and the timeout is non-zero, and raises exactly when in addition the timeout is negative; a line returned is the oldest one seen, stripped, with the rest kept in order; None means the queue was empty at the last pop; a returned line never starts or ends with a line feed |
| Reading.Wait | wlauto/utils/cros_sdk.py:106-108 | what the producer puts during the sleep lands at the back of the queue, in order, and that batch is used up |
| Reading.ReadLineFromQueue | wlauto/utils/cros_sdk.py:101-115 | the result, the queue afterwards and the arrivals used are those `ReadSpec` gives for the queue before the call |
| Draining.Kept | wlauto/utils/cros_sdk.py:95-96 | a read line is kept exactly when it is non-empty after stripping, and then once, unchanged |
| Draining.NextTimeout | wlauto/utils/cros_sdk.py:97-98 | the next read's timeout is either unchanged or zero: zero once a non-empty line was kept with timeout_only_for_first_line set, unchanged when the line was empty or the flag is clear |
| Draining.DrainSpec | wlauto/utils/cros_sdk.py:87-99 | get_lines as one read per step (`ReadSpec`) followed by the drain of what that read left, with the timeout for the rest given by `NextTimeout`; it ends at the first None, or raises with the sleep; its result holds the trace of sleeps and pops, the outcome and the arrival batches left, of which there are never more than were given |
| Draining.Collect | wlauto/utils/cros_sdk.py:95-96 | the collected lines are no more than the lines popped, and each of them is non-empty and has no line feed at either end |
| Draining.ReadConserves | wlauto/utils/cros_sdk.py:103-112 | a read that returns a line neither loses nor invents a line: the popped line followed by the queue and the arrivals left is the queue and arrivals before |
| Draining.DrainTakesInOrder | wlauto/utils/cros_sdk.py:87-99 | a drain pops a prefix of the queue followed by the arrivals, in FIFO order, and pops at least every line that was queued when it began |
| Draining.DrainConserves | wlauto/utils/cros_sdk.py:87-99 | a drain neither loses nor invents a line: the lines it pops followed by the arrivals it left unused are exactly the queue followed by all arrivals |
| Draining.DrainUsesArrivalsInOrder | wlauto/utils/cros_sdk.py:106-108 | the sleeps of a drain use the arrival batches from the front, one per sleep, so the batches left are a suffix of those given |
| Draining.DrainCollects | wlauto/utils/cros_sdk.py:90-96 | the lines returned are exactly the non-empty stripped forms of the lines popped, in the order popped |
| Draining.DrainWaits | wlauto/utils/cros_sdk.py:97-98 | every sleep of a drain lasts the timeout it was called with, and a drain with timeout zero never sleeps |
| Draining.DrainWaitsOnlyForFirstLine | wlauto/utils/cros_sdk.py:97-98 | with timeout_only_for_first_line set, no sleep comes after the pop of a line that is kept |
| Draining.DrainRaisesOnlyOnNegativeTimeout | wlauto/utils/cros_sdk.py:106-108 | a drain can end in the sleep's exception only when its timeout is negative |
| Draining.DrainWithoutProducer | wlauto/utils/cros_sdk.py:87-99 | with nothing arriving during sleeps, a drain returns the queue's lines stripped, in FIFO order, without those that strip to "" |
| Draining.CollectConcat | wlauto/utils/cros_sdk.py:90-96 | collecting two bursts one after the other gives the first burst's lines followed by the second's |
| Text.Framed | wlauto/utils/cros_sdk.py:75-77 | the writes for a sequence of commands: one per command, each the command with its terminator |
| Text.FramedSnoc | wlauto/utils/cros_sdk.py:74-77 | sending one more command appends exactly its framed form, so the input stream after successive send_command calls (each appending `Terminated(cmd)`) is the framing of the commands in order |
| Draining.CollectFramed | wlauto/utils/cros_sdk.py:113-114 | commands that are non-empty and have no line feed at either end come back exactly from collecting their framed forms |
| Draining.BurstDrain | wlauto/utils/cros_sdk.py:87-99 | on the queued burst "a\n", "b\n", "c\n" with a 100 ms timeout for the first line only, a drain pops the three lines without a sleep and returns ["a", "b", "c"] |
| Sessions.CrosSdkSession.constructor | wlauto/utils/cros_sdk.py:56-63 | two distinct empty queues, each with its own polling thread named after its stream and not stopped, and an empty input stream |
| Sessions.CrosSdkSession.SendCommand | wlauto/utils/cros_sdk.py:74-79 | exactly one write, of the framed command, is appended to the input stream and earlier writes are untouched; a flush covers every write so far, and no flush leaves the count as it was |
| Sessions.CrosSdkSession.ReadLine | wlauto/utils/cros_sdk.py:81-82 | one read of the stdout queue as `ReadSpec` gives it; the stderr queue is unchanged |
| Sessions.CrosSdkSession.ReadStderrLine | wlauto/utils/cros_sdk.py:84-85 | one read of the stderr queue as `ReadSpec` gives it; the stdout queue is unchanged |
| Sessions.CrosSdkSession.ReadSelected | wlauto/utils/cros_sdk.py:91-94 | the read of the queue `from_stderr` selects, with the other queue unchanged |
| Sessions.CrosSdkSession.GetLines | wlauto/utils/cros_sdk.py:87-99 | the returned lines or the exception, the sleeps and pops made, and the arrival batches left are those `DrainSpec` gives; the selected queue ends empty and the other queue is unchanged |

## Left out

- Process spawning and the chroot probe (`which dut-control`, `Popen` of `/bin/bash` or `cros_sdk`, `cwd`, `close_fds`, lines 48-55) are operating-system plumbing. The probe's answer is the constructor parameter `inChroot`, and the child's two output streams are parameters too.
- Threads are left out: the `Thread` base class, `daemon`, `start`, `join` and the thread safety of `Queue` (lines 26-29, 57-63, 70-71). The producer and the consumer are separate sequential steps, and their interleaving is fixed by the `stopAt` parameter and the `Arrivals` script.
- `kill_session` (lines 65-72) is not modelled. It depends on the child shell echoing `foo` on both streams to unblock the threads, and on `kill()`.
- `time.sleep` and the float conversion of the timeout (lines 107-108) are an abstract step. Real time does not pass, and what arrives during a sleep is given by `Arrivals`. A negative timeout is the exception `time.sleep` raises.
- `stdin.flush()` (line 79) is recorded as a count of flushed writes. Buffering, a broken pipe and any other I/O error of the writes are not modelled.
- Python 2 `str` values are `seq<char>`. Encodings play no part in the logic modelled.
- `timeout_only_for_first_line` is a `bool`. The source accepts any value and tests it for truth; every value is thereby modelled as the bool it tests as.
- Polling.OutputPollingThread.Run: the stop request is visible from one chosen iteration onwards. A request that races with a single read in some other way is not modelled.
