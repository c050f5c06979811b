/** The two pure string helpers of the session: framing a command with a line
    terminator before it is written, and str.strip('\n') applied to every line
    read back from a queue. */
module Text {

  /** Every character of `s` is a line feed (vacuously true of ""). */
  predicate AllNewlines(s: string) {
    forall i :: 0 <= i < |s| ==> s[i] == '\n'
  }

  predicate StartsWithNewline(s: string) {
    |s| > 0 && s[0] == '\n'
  }

  /** str.endswith('\n') */
  predicate EndsWithNewline(s: string) {
    |s| > 0 && s[|s| - 1] == '\n'
  }

  /** Neither end of `s` is a line feed: what strip('\n') leaves behind. */
  predicate Bare(s: string) {
    !StartsWithNewline(s) && !EndsWithNewline(s)
  }

  /** The command as send_command writes it: a '\n' is appended unless the
      command already ends with one. */
  function Terminated(cmd: string): (r: string)
    ensures EndsWithNewline(r)
    ensures cmd <= r && |r| <= |cmd| + 1
    ensures EndsWithNewline(cmd) ==> r == cmd
  {
    if EndsWithNewline(cmd) then cmd else cmd + "\n"
  }

  /** str.strip('\n'): the line feeds at both ends are removed, only those. */
  function Strip(s: string): (r: string)
    ensures Bare(r) && |r| <= |s|
  {
    if StartsWithNewline(s) then Strip(s[1..])
    else if EndsWithNewline(s) then Strip(s[..|s| - 1])
    else s
  }

  /** Where Strip's result starts inside `s`: the length of the leading run
      of line feeds it removes. */
  function StripStart(s: string): nat {
    if StartsWithNewline(s) then 1 + StripStart(s[1..])
    else if EndsWithNewline(s) then StripStart(s[..|s| - 1])
    else 0
  }

  /** A bare middle framed by line feeds in `s[1..]` stays so framed in `s`
      when `s` starts with one more line feed. */
  lemma FrameAfterLeading(s: string, r: string, i: nat)
    requires StartsWithNewline(s) && i + |r| <= |s| - 1
    requires r == s[1..][i..i + |r|] && AllNewlines(s[1..][..i]) && AllNewlines(s[1..][i + |r|..])
    ensures r == s[i + 1..i + 1 + |r|] && AllNewlines(s[..i + 1]) && AllNewlines(s[i + 1 + |r|..])
  {
    assert s[..i + 1] == [s[0]] + s[1..][..i];
    assert s[i + 1 + |r|..] == s[1..][i + |r|..];
  }

  /** Likewise when `s` ends with one more line feed than `s[..|s| - 1]`. */
  lemma FrameAfterTrailing(s: string, r: string, i: nat)
    requires EndsWithNewline(s) && i + |r| <= |s| - 1
    requires var s' := s[..|s| - 1];
             r == s'[i..i + |r|] && AllNewlines(s'[..i]) && AllNewlines(s'[i + |r|..])
    ensures r == s[i..i + |r|] && AllNewlines(s[..i]) && AllNewlines(s[i + |r|..])
  {
    var s' := s[..|s| - 1];
    assert s[..i] == s'[..i];
    assert s[i + |r|..] == s'[i + |r|..] + [s[|s| - 1]];
  }

  /** What Strip removes is a run of line feeds at each end, nothing else. */
  lemma {:induction false} StripShape(s: string)
    ensures var r, i := Strip(s), StripStart(s);
            i + |r| <= |s| && r == s[i..i + |r|]
            && AllNewlines(s[..i]) && AllNewlines(s[i + |r|..])
  {
    if StartsWithNewline(s) {
      StripShape(s[1..]);
      FrameAfterLeading(s, Strip(s[1..]), StripStart(s[1..]));
    } else if EndsWithNewline(s) {
      StripShape(s[..|s| - 1]);
      FrameAfterTrailing(s, Strip(s[..|s| - 1]), StripStart(s[..|s| - 1]));
    } else {
      assert s[..0] == [] && s[|s|..] == [] && s[0..|s|] == s;
    }
  }

  /** The converse of StripShape: whatever line feeds frame a bare string,
      strip('\n') gives back exactly that string. */
  lemma {:induction false} StripFramed(p: string, m: string, t: string)
    requires AllNewlines(p) && AllNewlines(t) && Bare(m)
    ensures Strip(p + m + t) == m
    decreases |p| + |t|
  {
    var s := p + m + t;
    if p != [] {
      assert s[0] == '\n' && s[1..] == p[1..] + m + t;
      StripFramed(p[1..], m, t);
    } else if t != [] {
      var t' := t[..|t| - 1];
      if m == [] {
        assert s == t && s[0] == '\n' && s[1..] == p + m + t[1..];
        StripFramed(p, m, t[1..]);
      } else {
        assert s[0] == m[0] && s[|s| - 1] == '\n';
        assert s[..|s| - 1] == p + m + t';
        StripFramed(p, m, t');
      }
    } else {
      assert s == m;
    }
  }

  /** Stripping twice is stripping once. */
  lemma StripIdempotent(s: string)
    ensures Strip(Strip(s)) == Strip(s)
  {
  }

  /** The terminator send_command adds is one strip('\n') removes. */
  lemma StripTerminated(cmd: string)
    ensures Strip(Terminated(cmd)) == Strip(cmd)
  {
    var m, i := Strip(cmd), StripStart(cmd);
    StripShape(cmd);
    var p, t := cmd[..i], cmd[i + |m|..];
    assert cmd == p + m + t;
    var t' := if EndsWithNewline(cmd) then t else t + "\n";
    assert Terminated(cmd) == p + m + t';
    StripFramed(p, m, t');
  }

  /** A command with no line feed at either end survives framing followed by
      stripping unchanged: the line a shell echoes back is the command. */
  lemma TerminatedRoundTrip(cmd: string)
    requires Bare(cmd)
    ensures Strip(Terminated(cmd)) == cmd
  {
    StripTerminated(cmd);
  }

  /** The writes send_command makes for the commands `cmds`, in order: each
      framed with its terminator. */
  function Framed(cmds: seq<string>): (raws: seq<string>)
    ensures |raws| == |cmds|
    ensures forall i :: 0 <= i < |cmds| ==> raws[i] == Terminated(cmds[i])
  {
    if cmds == [] then [] else [Terminated(cmds[0])] + Framed(cmds[1..])
  }

  /** One more command sent appends exactly its framed form, so the writes
      of successive send_command calls are the framing of the commands. */
  lemma {:induction false} FramedSnoc(cmds: seq<string>, cmd: string)
    ensures Framed(cmds + [cmd]) == Framed(cmds) + [Terminated(cmd)]
    decreases |cmds|
  {
    if cmds == [] {
      assert cmds + [cmd] == [cmd];
    } else {
      assert (cmds + [cmd])[1..] == cmds[1..] + [cmd];
      FramedSnoc(cmds[1..], cmd);
    }
  }
}
