/** _read_line_from_queue: one non-blocking pop, and when that finds nothing
    and a timeout is given, one sleep and one more pop. The sleep is an
    abstract step: what the producer thread puts meanwhile comes from an
    `Arrivals` script. */
module Reading {
  import opened Text
  import opened LineQueues

  /** What a read yields: a stripped line, None, or the exception that
      time.sleep raises for a negative duration. */
  datatype Poll = Line(text: string) | NoLine | SleepRaised

  /** One read: its result, the queue afterwards, the arrival batches not yet
      used, and whether it went to sleep. */
  datatype ReadResult = ReadResult(poll: Poll, rest: seq<string>, later: seq<seq<string>>, slept: bool)

  /** The lines the producer puts while the consumer sleeps: the k-th sleep
      of the consumer sees batches[k] land at the back of the queue. */
  class Arrivals {
    var batches: seq<seq<string>>

    constructor (batches: seq<seq<string>>)
      ensures this.batches == batches
    {
      this.batches := batches;
    }
  }

  function Head(batches: seq<seq<string>>): seq<string> {
    if batches == [] then [] else batches[0]
  }

  function Tail(batches: seq<seq<string>>): seq<seq<string>> {
    if batches == [] then [] else batches[1..]
  }

  /** The queue's contents at a read's last pop: the queue itself, unless it
      was empty and a sleep let the next batch arrive. */
  function Seen(items: seq<string>, timeoutMs: int, batches: seq<seq<string>>): seq<string> {
    if items == [] && timeoutMs > 0 then Head(batches) else items
  }

  /** The behaviour of _read_line_from_queue on a queue holding `items`. */
  function ReadSpec(items: seq<string>, timeoutMs: int, batches: seq<seq<string>>): (r: ReadResult)
    // it sleeps exactly when the first pop finds nothing and the timeout is non-zero
    ensures r.slept <==> items == [] && timeoutMs != 0
    ensures r.poll.SleepRaised? <==> items == [] && timeoutMs < 0
    // only a completed sleep lets a batch arrive
    ensures r.later == if r.slept && timeoutMs > 0 then Tail(batches) else batches
    // the oldest line seen is removed and returned stripped; the rest keep their order
    ensures var seen := Seen(items, timeoutMs, batches);
            (r.poll.Line? ==> seen != [] && r.poll.text == Strip(seen[0]) && r.rest == seen[1..]) &&
            (r.poll.NoLine? ==> seen == [] && r.rest == []) &&
            (r.poll.SleepRaised? ==> r.rest == [])
    ensures r.poll.Line? ==> Bare(r.poll.text)
  {
    if items != [] then
      ReadResult(Line(Strip(items[0])), items[1..], batches, false)
    else if timeoutMs == 0 then
      ReadResult(NoLine, [], batches, false)
    else if timeoutMs < 0 then
      ReadResult(SleepRaised, [], batches, true)
    else if Head(batches) != [] then
      ReadResult(Line(Strip(Head(batches)[0])), Head(batches)[1..], Tail(batches), true)
    else
      ReadResult(NoLine, [], Tail(batches), true)
  }

  /** The queue's side of time.sleep: the producer's puts during the pause
      land at the back, in order. */
  method Wait(q: LineQueue, during: Arrivals)
    modifies q, during
    ensures q.items == old(q.items) + Head(old(during.batches))
    ensures during.batches == Tail(old(during.batches))
  {
    q.items := q.items + Head(during.batches);
    during.batches := Tail(during.batches);
  }

  method ReadLineFromQueue(q: LineQueue, timeoutMs: int, during: Arrivals) returns (line: Poll)
    modifies q, during
    ensures var s := ReadSpec(old(q.items), timeoutMs, old(during.batches));
            line == s.poll && q.items == s.rest && during.batches == s.later
  {
    var p := q.GetNowait();
    if p.Empty? && timeoutMs != 0 {
      if timeoutMs < 0 {
        // time.sleep refuses a negative duration
        return SleepRaised;
      }
      Wait(q, during);
      p := q.GetNowait();
    }
    line := if p.Got? then Line(Strip(p.line)) else NoLine;
  }
}
