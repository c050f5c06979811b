/** get_lines as a specification: repeated reads until one yields None, with
    the lines kept when non-empty and the timeout dropped to zero after the
    first kept line when timeout_only_for_first_line is set. */
module Draining {
  import opened Text
  import opened Reading

  /** What a drain does, in order: a sleep of `ms` milliseconds, or a pop of
      the raw (unstripped) line `raw`. */
  datatype Event = Waited(ms: int) | Took(raw: string)

  /** get_lines returns its list, or lets the sleep's exception through. */
  datatype Outcome = Collected(lines: seq<string>) | Raised

  /** A drain's sleeps and pops, its outcome, and the arrival batches that
      its sleeps did not use. */
  datatype Drain = Drain(trace: seq<Event>, outcome: Outcome, later: seq<seq<string>>)

  function Flatten(batches: seq<seq<string>>): seq<string> {
    if batches == [] then [] else batches[0] + Flatten(batches[1..])
  }

  /** The raw lines popped, in the order of the trace. */
  function Taken(trace: seq<Event>): seq<string> {
    if trace == [] then []
    else (if trace[0].Took? then [trace[0].raw] else []) + Taken(trace[1..])
  }

  /** `if line:` keeps a stripped line only when it is non-empty. */
  function Kept(text: string): (kept: seq<string>)
    ensures |kept| <= 1
    ensures text != "" <==> kept == [text]
  {
    if text != "" then [text] else []
  }

  /** The lines get_lines returns for the raw lines it pops: each stripped of
      its line feeds, the empty ones dropped, the order kept. */
  function Collect(raws: seq<string>): (lines: seq<string>)
    ensures |lines| <= |raws|
    ensures forall i :: 0 <= i < |lines| ==> lines[i] != "" && Bare(lines[i])
  {
    if raws == [] then [] else Kept(Strip(raws[0])) + Collect(raws[1..])
  }

  /** The timeout for the next read: zero once a line was kept, when only the
      first line may wait. */
  function NextTimeout(timeoutMs: int, firstOnly: bool, text: string): (next: int)
    ensures next == 0 || next == timeoutMs
    ensures firstOnly && text != "" ==> next == 0
    ensures !firstOnly || text == "" ==> next == timeoutMs
  {
    if text != "" && timeoutMs != 0 && firstOnly then 0 else timeoutMs
  }

  function Prepend(lines: seq<string>, o: Outcome): Outcome {
    match o
    case Collected(rest) => Collected(lines + rest)
    case Raised => Raised
  }

  /** A drain that has already produced `trace` and kept `lines`, and goes on
      as `d`. */
  function Resume(trace: seq<Event>, lines: seq<string>, d: Drain): Drain {
    Drain(trace + d.trace, Prepend(lines, d.outcome), d.later)
  }

  function WaitEvents(s: ReadResult, timeoutMs: int): seq<Event> {
    if s.slept then [Waited(timeoutMs)] else []
  }

  /** get_lines on a queue holding `items`, with the producer's arrivals
      during its sleeps given by `batches`. */
  function DrainSpec(items: seq<string>, timeoutMs: int, firstOnly: bool, batches: seq<seq<string>>): (d: Drain)
    // the sleeps use up arrival batches, never add any
    ensures |d.later| <= |batches|
    decreases |items| + |Flatten(batches)|
  {
    var s := ReadSpec(items, timeoutMs, batches);
    match s.poll
    case SleepRaised => Drain(WaitEvents(s, timeoutMs), Raised, s.later)
    case NoLine => Drain(WaitEvents(s, timeoutMs), Collected([]), s.later)
    case Line(text) =>
      var raw := Seen(items, timeoutMs, batches)[0];
      Resume(WaitEvents(s, timeoutMs) + [Took(raw)], Kept(text),
             DrainSpec(s.rest, NextTimeout(timeoutMs, firstOnly, text), firstOnly, s.later))
  }

  lemma {:induction false} TakenConcat(a: seq<Event>, b: seq<Event>)
    ensures Taken(a + b) == Taken(a) + Taken(b)
    decreases |a|
  {
    if a == [] {
      assert a + b == b;
    } else {
      assert (a + b)[1..] == a[1..] + b;
      TakenConcat(a[1..], b);
    }
  }

  /** The events of one step that popped `raw`. */
  lemma StepTaken(s: ReadResult, timeoutMs: int, raw: string, rest: seq<Event>)
    ensures Taken(WaitEvents(s, timeoutMs) + [Took(raw)] + rest) == [raw] + Taken(rest)
  {
    TakenConcat(WaitEvents(s, timeoutMs) + [Took(raw)], rest);
    TakenConcat(WaitEvents(s, timeoutMs), [Took(raw)]);
    assert Taken([Took(raw)]) == [raw] + Taken([]);
  }

  /** One step of a drain that pops a line: the step's events and kept
      line, followed by the drain of what is left. */
  lemma DrainStep(items: seq<string>, timeoutMs: int, firstOnly: bool, batches: seq<seq<string>>)
    requires ReadSpec(items, timeoutMs, batches).poll.Line?
    ensures var s := ReadSpec(items, timeoutMs, batches);
            var raw := Seen(items, timeoutMs, batches)[0];
            var d := DrainSpec(s.rest, NextTimeout(timeoutMs, firstOnly, s.poll.text), firstOnly, s.later);
            DrainSpec(items, timeoutMs, firstOnly, batches)
            == Drain(WaitEvents(s, timeoutMs) + [Took(raw)] + d.trace, Prepend(Kept(s.poll.text), d.outcome), d.later)
  {
  }

  lemma ResumeAssoc(trace: seq<Event>, lines: seq<string>, trace2: seq<Event>, lines2: seq<string>, d: Drain)
    ensures Resume(trace, lines, Drain(trace2 + d.trace, Prepend(lines2, d.outcome), d.later))
            == Resume(trace + trace2, lines + lines2, d)
  {
    assert trace + (trace2 + d.trace) == (trace + trace2) + d.trace;
    if d.outcome.Collected? {
      assert lines + (lines2 + d.outcome.lines) == (lines + lines2) + d.outcome.lines;
    }
  }

  /** A read that yields a line takes the oldest line available to it, from
      the queue or else from the batch that arrived during its sleep, and
      leaves all the others in order. */
  lemma ReadConserves(items: seq<string>, timeoutMs: int, batches: seq<seq<string>>)
    requires ReadSpec(items, timeoutMs, batches).poll.Line?
    ensures var s := ReadSpec(items, timeoutMs, batches);
            items + Flatten(batches) == [Seen(items, timeoutMs, batches)[0]] + (s.rest + Flatten(s.later))
  {
    var s := ReadSpec(items, timeoutMs, batches);
    var seen := Seen(items, timeoutMs, batches);
    if s.slept {
      assert items == [] && seen == batches[0] && s.later == batches[1..];
      assert [] + Flatten(batches) == batches[0] + Flatten(batches[1..]);
    } else {
      assert seen == items && s.later == batches;
    }
    assert seen == [seen[0]] + s.rest;
  }

  /** A drain resumed after a step that pops a line goes on from the state
      that step leaves. */
  lemma ResumeStep(trace: seq<Event>, lines: seq<string>, items: seq<string>, timeoutMs: int,
                   firstOnly: bool, batches: seq<seq<string>>)
    requires ReadSpec(items, timeoutMs, batches).poll.Line?
    ensures var s := ReadSpec(items, timeoutMs, batches);
            var raw := Seen(items, timeoutMs, batches)[0];
            Resume(trace, lines, DrainSpec(items, timeoutMs, firstOnly, batches))
            == Resume(trace + (WaitEvents(s, timeoutMs) + [Took(raw)]), lines + Kept(s.poll.text),
                      DrainSpec(s.rest, NextTimeout(timeoutMs, firstOnly, s.poll.text), firstOnly, s.later))
  {
    var s := ReadSpec(items, timeoutMs, batches);
    var raw := Seen(items, timeoutMs, batches)[0];
    var d := DrainSpec(s.rest, NextTimeout(timeoutMs, firstOnly, s.poll.text), firstOnly, s.later);
    DrainStep(items, timeoutMs, firstOnly, batches);
    ResumeAssoc(trace, lines, WaitEvents(s, timeoutMs) + [Took(raw)], Kept(s.poll.text), d);
  }

  /** ResumeStep, with the state after the step named by the caller. */
  lemma ResumeAfterLine(trace: seq<Event>, lines: seq<string>, items: seq<string>, timeoutMs: int,
                        firstOnly: bool, batches: seq<seq<string>>,
                        trace': seq<Event>, lines': seq<string>, items': seq<string>, timeoutMs': int,
                        batches': seq<seq<string>>)
    requires ReadSpec(items, timeoutMs, batches).poll.Line?
    requires var s := ReadSpec(items, timeoutMs, batches);
             trace' == trace + (WaitEvents(s, timeoutMs) + [Took(Seen(items, timeoutMs, batches)[0])]) &&
             lines' == lines + Kept(s.poll.text) &&
             items' == s.rest && batches' == s.later &&
             timeoutMs' == NextTimeout(timeoutMs, firstOnly, s.poll.text)
    ensures Resume(trace, lines, DrainSpec(items, timeoutMs, firstOnly, batches))
            == Resume(trace', lines', DrainSpec(items', timeoutMs', firstOnly, batches'))
  {
    ResumeStep(trace, lines, items, timeoutMs, firstOnly, batches);
  }

  /** A drain resumed at a read that yields None ends there. */
  lemma ResumeAtEnd(trace: seq<Event>, lines: seq<string>, items: seq<string>, timeoutMs: int,
                    firstOnly: bool, batches: seq<seq<string>>)
    requires ReadSpec(items, timeoutMs, batches).poll.NoLine?
    ensures Resume(trace, lines, DrainSpec(items, timeoutMs, firstOnly, batches))
            == Drain(trace + WaitEvents(ReadSpec(items, timeoutMs, batches), timeoutMs), Collected(lines),
                     ReadSpec(items, timeoutMs, batches).later)
  {
    assert lines + [] == lines;
  }

  /** A drain resumed at a read whose sleep raises ends raising. */
  lemma ResumeAtRaise(trace: seq<Event>, lines: seq<string>, items: seq<string>, timeoutMs: int,
                      firstOnly: bool, batches: seq<seq<string>>)
    requires ReadSpec(items, timeoutMs, batches).poll.SleepRaised?
    ensures Resume(trace, lines, DrainSpec(items, timeoutMs, firstOnly, batches))
            == Drain(trace + WaitEvents(ReadSpec(items, timeoutMs, batches), timeoutMs), Raised,
                     ReadSpec(items, timeoutMs, batches).later)
  {
  }

  /** Popped lines come first from the queue, then from the arrivals, in
      order; every line that was queued is popped. */
  lemma {:induction false} DrainTakesInOrder(items: seq<string>, timeoutMs: int, firstOnly: bool, batches: seq<seq<string>>)
    ensures var taken := Taken(DrainSpec(items, timeoutMs, firstOnly, batches).trace);
            |items| <= |taken| && taken <= items + Flatten(batches)
    decreases |items| + |Flatten(batches)|
  {
    var s := ReadSpec(items, timeoutMs, batches);
    if s.poll.Line? {
      var raw := Seen(items, timeoutMs, batches)[0];
      var next := NextTimeout(timeoutMs, firstOnly, s.poll.text);
      var d := DrainSpec(s.rest, next, firstOnly, s.later);
      DrainStep(items, timeoutMs, firstOnly, batches);
      DrainTakesInOrder(s.rest, next, firstOnly, s.later);
      StepTaken(s, timeoutMs, raw, d.trace);
      ReadConserves(items, timeoutMs, batches);
      assert !s.slept ==> items == [raw] + s.rest;
    } else {
      assert Taken(WaitEvents(s, timeoutMs)) == [];
    }
  }

  /** The sleeps of a drain use the arrival batches from the front, in
      order: what is left is a suffix of what was given. */
  lemma {:induction false} DrainUsesArrivalsInOrder(items: seq<string>, timeoutMs: int, firstOnly: bool,
                                                    batches: seq<seq<string>>)
    ensures var d := DrainSpec(items, timeoutMs, firstOnly, batches);
            d.later == batches[|batches| - |d.later|..]
    decreases |items| + |Flatten(batches)|
  {
    var s := ReadSpec(items, timeoutMs, batches);
    if s.poll.Line? {
      var next := NextTimeout(timeoutMs, firstOnly, s.poll.text);
      var d := DrainSpec(s.rest, next, firstOnly, s.later);
      DrainStep(items, timeoutMs, firstOnly, batches);
      DrainUsesArrivalsInOrder(s.rest, next, firstOnly, s.later);
      if s.later != batches {
        assert s.later == batches[1..];
        assert batches[1..][|s.later| - |d.later|..] == batches[|batches| - |d.later|..];
      }
    } else if s.later == batches {
      assert batches[0..] == batches;
    }
  }

  /** A drain that ends at its first read pops nothing, and the arrivals
      it leaves are all it was given. */
  lemma ConservesAtEnd(items: seq<string>, timeoutMs: int, batches: seq<seq<string>>)
    requires !ReadSpec(items, timeoutMs, batches).poll.Line?
    ensures var s := ReadSpec(items, timeoutMs, batches);
            items == [] && Flatten(s.later) == Flatten(batches)
  {
    var s := ReadSpec(items, timeoutMs, batches);
    if s.later != batches {
      assert Head(batches) == [] && s.later == batches[1..];
      assert Flatten(batches) == batches[0] + Flatten(batches[1..]);
    }
  }

  /** A drain neither loses nor invents a line: the lines it pops followed
      by the arrivals it left unused are the queue followed by all the
      arrivals. */
  lemma {:induction false} DrainConserves(items: seq<string>, timeoutMs: int, firstOnly: bool, batches: seq<seq<string>>)
    ensures var d := DrainSpec(items, timeoutMs, firstOnly, batches);
            Taken(d.trace) + Flatten(d.later) == items + Flatten(batches)
    decreases |items| + |Flatten(batches)|
  {
    var s := ReadSpec(items, timeoutMs, batches);
    if s.poll.Line? {
      var raw := Seen(items, timeoutMs, batches)[0];
      var next := NextTimeout(timeoutMs, firstOnly, s.poll.text);
      var d := DrainSpec(s.rest, next, firstOnly, s.later);
      DrainConserves(s.rest, next, firstOnly, s.later);
      ConservesStep(items, timeoutMs, firstOnly, batches, d);
    } else {
      ConservesAtEnd(items, timeoutMs, batches);
      assert Taken(WaitEvents(s, timeoutMs)) == [];
    }
  }

  lemma ConsShift(raw: string, taken: seq<string>, taken': seq<string>, left: seq<string>,
                  rest: seq<string>, whole: seq<string>)
    requires taken' == [raw] + taken && taken + left == rest && whole == [raw] + rest
    ensures taken' + left == whole
  {
  }

  /** The step case of DrainConserves, with the drain of what is left as a
      parameter. */
  lemma ConservesStep(items: seq<string>, timeoutMs: int, firstOnly: bool, batches: seq<seq<string>>, d: Drain)
    requires ReadSpec(items, timeoutMs, batches).poll.Line?
    requires var s := ReadSpec(items, timeoutMs, batches);
             d == DrainSpec(s.rest, NextTimeout(timeoutMs, firstOnly, s.poll.text), firstOnly, s.later) &&
             Taken(d.trace) + Flatten(d.later) == s.rest + Flatten(s.later)
    ensures var d' := DrainSpec(items, timeoutMs, firstOnly, batches);
            Taken(d'.trace) + Flatten(d'.later) == items + Flatten(batches)
  {
    var s := ReadSpec(items, timeoutMs, batches);
    var raw := Seen(items, timeoutMs, batches)[0];
    var tr := WaitEvents(s, timeoutMs) + [Took(raw)] + d.trace;
    DrainStep(items, timeoutMs, firstOnly, batches);
    assert DrainSpec(items, timeoutMs, firstOnly, batches).trace == tr;
    assert DrainSpec(items, timeoutMs, firstOnly, batches).later == d.later;
    StepTaken(s, timeoutMs, raw, d.trace);
    ReadConserves(items, timeoutMs, batches);
    ConsShift(raw, Taken(d.trace), Taken(tr), Flatten(d.later), s.rest + Flatten(s.later), items + Flatten(batches));
  }

  /** The lines returned are exactly the non-empty stripped forms of the
      lines popped, in the order they were popped. */
  lemma {:induction false} DrainCollects(items: seq<string>, timeoutMs: int, firstOnly: bool, batches: seq<seq<string>>)
    ensures var d := DrainSpec(items, timeoutMs, firstOnly, batches);
            d.outcome.Collected? ==> d.outcome.lines == Collect(Taken(d.trace))
    decreases |items| + |Flatten(batches)|
  {
    var s := ReadSpec(items, timeoutMs, batches);
    if s.poll.Line? {
      var raw := Seen(items, timeoutMs, batches)[0];
      var next := NextTimeout(timeoutMs, firstOnly, s.poll.text);
      var d := DrainSpec(s.rest, next, firstOnly, s.later);
      DrainStep(items, timeoutMs, firstOnly, batches);
      DrainCollects(s.rest, next, firstOnly, s.later);
      StepTaken(s, timeoutMs, raw, d.trace);
      assert ([raw] + Taken(d.trace))[1..] == Taken(d.trace);
    } else {
      assert Taken(WaitEvents(s, timeoutMs)) == [];
    }
  }

  /** Every sleep in `trace` lasts `ms` milliseconds, and `ms` is not zero. */
  ghost predicate WaitsLast(trace: seq<Event>, ms: int) {
    forall i :: 0 <= i < |trace| && trace[i].Waited? ==> trace[i].ms == ms && ms != 0
  }

  /** No sleep in `trace`. */
  ghost predicate NoWaits(trace: seq<Event>) {
    forall i :: 0 <= i < |trace| ==> !trace[i].Waited?
  }

  /** No sleep in `trace` comes after the pop of a line that is kept. */
  ghost predicate NoWaitAfterKept(trace: seq<Event>) {
    forall i, j :: 0 <= i < j < |trace| && trace[i].Took? && Strip(trace[i].raw) != "" ==> !trace[j].Waited?
  }

  lemma WaitsLastConcat(a: seq<Event>, b: seq<Event>, ms: int)
    requires WaitsLast(a, ms) && (WaitsLast(b, ms) || NoWaits(b))
    ensures WaitsLast(a + b, ms)
  {
    forall i | 0 <= i < |a + b| && (a + b)[i].Waited?
      ensures (a + b)[i].ms == ms && ms != 0
    {
      if i >= |a| {
        assert (a + b)[i] == b[i - |a|];
      }
    }
  }

  /** A step's events followed by the rest of the drain keep the property
      when the rest has no sleep at all once the step's line was kept. */
  lemma NoWaitAfterKeptStep(w: seq<Event>, raw: string, rest: seq<Event>)
    requires forall k :: 0 <= k < |w| ==> w[k].Waited?
    requires NoWaitAfterKept(rest)
    requires Strip(raw) != "" ==> NoWaits(rest)
    ensures NoWaitAfterKept(w + [Took(raw)] + rest)
  {
    var head := w + [Took(raw)];
    var tr := head + rest;
    forall i, j | 0 <= i < j < |tr| && tr[i].Took? && Strip(tr[i].raw) != ""
      ensures !tr[j].Waited?
    {
      if i < |head| {
        assert i == |w| && tr[i].raw == raw;
        assert tr[j] == rest[j - |head|];
      } else {
        assert tr[i] == rest[i - |head|] && tr[j] == rest[j - |head|];
      }
    }
  }

  /** Every sleep of a drain lasts the timeout it was called with, and a
      drain called with timeout zero never sleeps. */
  lemma {:induction false} DrainWaits(items: seq<string>, timeoutMs: int, firstOnly: bool, batches: seq<seq<string>>)
    ensures var tr := DrainSpec(items, timeoutMs, firstOnly, batches).trace;
            forall i :: 0 <= i < |tr| && tr[i].Waited? ==> tr[i].ms == timeoutMs && timeoutMs != 0
    decreases |items| + |Flatten(batches)|
  {
    var s := ReadSpec(items, timeoutMs, batches);
    var w := WaitEvents(s, timeoutMs);
    if s.poll.Line? {
      var raw := Seen(items, timeoutMs, batches)[0];
      var next := NextTimeout(timeoutMs, firstOnly, s.poll.text);
      var d := DrainSpec(s.rest, next, firstOnly, s.later);
      DrainStep(items, timeoutMs, firstOnly, batches);
      DrainWaits(s.rest, next, firstOnly, s.later);
      assert WaitsLast(d.trace, next);
      assert next == 0 ==> NoWaits(d.trace);
      WaitsLastConcat(w, [Took(raw)], timeoutMs);
      WaitsLastConcat(w + [Took(raw)], d.trace, timeoutMs);
    } else {
      assert WaitsLast(w, timeoutMs);
    }
  }

  /** With timeout_only_for_first_line, no sleep follows the pop of a line
      that is kept. */
  lemma {:induction false} DrainWaitsOnlyForFirstLine(items: seq<string>, timeoutMs: int, batches: seq<seq<string>>)
    ensures var tr := DrainSpec(items, timeoutMs, true, batches).trace;
            forall i, j :: 0 <= i < j < |tr| && tr[i].Took? && Strip(tr[i].raw) != "" ==> !tr[j].Waited?
    decreases |items| + |Flatten(batches)|
  {
    var s := ReadSpec(items, timeoutMs, batches);
    if s.poll.Line? {
      var raw := Seen(items, timeoutMs, batches)[0];
      var next := NextTimeout(timeoutMs, true, s.poll.text);
      var d := DrainSpec(s.rest, next, true, s.later);
      DrainStep(items, timeoutMs, true, batches);
      DrainWaitsOnlyForFirstLine(s.rest, next, s.later);
      DrainWaits(s.rest, next, true, s.later);
      assert Strip(raw) != "" ==> next == 0;
      assert next == 0 ==> NoWaits(d.trace);
      NoWaitAfterKeptStep(WaitEvents(s, timeoutMs), raw, d.trace);
    }
  }

  /** A sleep can raise only when the timeout is negative. */
  lemma {:induction false} DrainRaisesOnlyOnNegativeTimeout(items: seq<string>, timeoutMs: int, firstOnly: bool, batches: seq<seq<string>>)
    ensures DrainSpec(items, timeoutMs, firstOnly, batches).outcome.Raised? ==> timeoutMs < 0
    decreases |items| + |Flatten(batches)|
  {
    var s := ReadSpec(items, timeoutMs, batches);
    if s.poll.Line? {
      var next := NextTimeout(timeoutMs, firstOnly, s.poll.text);
      DrainRaisesOnlyOnNegativeTimeout(s.rest, next, firstOnly, s.later);
    }
  }

  /** With nothing arriving during a sleep (a zero timeout, or no producer
      at all), get_lines returns the stripped queue in FIFO order, without
      the lines that strip to "". */
  lemma {:induction false} DrainWithoutProducer(items: seq<string>, timeoutMs: int, firstOnly: bool, batches: seq<seq<string>>)
    requires timeoutMs == 0 || (timeoutMs > 0 && batches == [])
    ensures DrainSpec(items, timeoutMs, firstOnly, batches).outcome == Collected(Collect(items))
    decreases |items|
  {
    var s := ReadSpec(items, timeoutMs, batches);
    if s.poll.Line? {
      var next := NextTimeout(timeoutMs, firstOnly, s.poll.text);
      DrainWithoutProducer(s.rest, next, firstOnly, s.later);
    }
  }

  /** Collecting is FIFO across consecutive bursts. */
  lemma {:induction false} CollectConcat(a: seq<string>, b: seq<string>)
    ensures Collect(a + b) == Collect(a) + Collect(b)
    decreases |a|
  {
    if a == [] {
      assert a + b == b;
    } else {
      assert (a + b)[1..] == a[1..] + b;
      CollectConcat(a[1..], b);
    }
  }

  /** Lines framed with a terminator come back from collecting exactly as
      they were, provided none is empty or has a line feed at an end. */
  lemma {:induction false} CollectFramed(cmds: seq<string>)
    requires forall i :: 0 <= i < |cmds| ==> cmds[i] != "" && Bare(cmds[i])
    ensures Collect(Framed(cmds)) == cmds
    decreases |cmds|
  {
    if cmds != [] {
      TerminatedRoundTrip(cmds[0]);
      assert Framed(cmds)[1..] == Framed(cmds[1..]);
      CollectFramed(cmds[1..]);
    }
  }

  lemma StripLetterLine(x: char)
    requires x != '\n'
    ensures Strip([x, '\n']) == [x]
  {
    assert [x, '\n'][..1] == [x];
  }

  lemma BurstLast()
    ensures DrainSpec(["c\n"], 0, true, []) == Drain([Took("c\n")], Collected(["c"]), [])
  {
    StripLetterLine('c');
    assert ReadSpec(["c\n"], 0, []) == ReadResult(Line("c"), [], [], false);
    DrainStep(["c\n"], 0, true, []);
    assert DrainSpec([], 0, true, []) == Drain([], Collected([]), []);
    assert [] + [Took("c\n")] + [] == [Took("c\n")] && ["c"] + [] == ["c"];
  }

  lemma BurstMiddle()
    ensures DrainSpec(["b\n", "c\n"], 0, true, []) == Drain([Took("b\n"), Took("c\n")], Collected(["b", "c"]), [])
  {
    StripLetterLine('b');
    assert ReadSpec(["b\n", "c\n"], 0, []) == ReadResult(Line("b"), ["c\n"], [], false);
    DrainStep(["b\n", "c\n"], 0, true, []);
    BurstLast();
    assert [] + [Took("b\n")] + [Took("c\n")] == [Took("b\n"), Took("c\n")] && ["b"] + ["c"] == ["b", "c"];
  }

  /** A burst of "a\n", "b\n", "c\n" already queued: a drain with a 100 ms
      timeout for the first line only returns ["a", "b", "c"] and never
      sleeps. */
  lemma BurstDrain()
    ensures DrainSpec(["a\n", "b\n", "c\n"], 100, true, [])
            == Drain([Took("a\n"), Took("b\n"), Took("c\n")], Collected(["a", "b", "c"]), [])
  {
    StripLetterLine('a');
    assert ReadSpec(["a\n", "b\n", "c\n"], 100, []) == ReadResult(Line("a"), ["b\n", "c\n"], [], false);
    DrainStep(["a\n", "b\n", "c\n"], 100, true, []);
    assert NextTimeout(100, true, "a") == 0;
    BurstMiddle();
    assert [] + [Took("a\n")] + [Took("b\n"), Took("c\n")] == [Took("a\n"), Took("b\n"), Took("c\n")];
    assert ["a"] + ["b", "c"] == ["a", "b", "c"];
  }
}
