/** The writer that condenses compilation progress (src/ghci/progress_writer.rs): complete lines are
    rewritten, and the output is queued for a writer that takes as much as it likes. */
module Progress {
  import opened Basics
  import opened ByteStrings
  import opened Utf8

  /** Move to the first column, clear the line. */
  const CLEAR: Bytes := [0x1B, 0x5B, 0x31, 0x47, 0x1B, 0x5B, 0x32, 0x4B]

  // Truncation.

  predicate IsBoundary(s: Bytes, i: nat) {
    i == 0 || i == |s| || (i < |s| && !Tail(s[i]))
  }

  /** Between the characters of a text, and only there, are its prefixes well-formed. */
  lemma {:induction false} BoundaryIffWellFormed(s: Bytes, n: nat)
    requires WellFormed(s) && n <= |s|
    ensures IsBoundary(s, n) <==> WellFormed(s[..n])
    decreases |s|
  {
    ValidIffWellFormed(s);
    ValidIffWellFormed(s[..n]);
    BoundaryIffValid(s, n);
  }

  lemma {:induction false} BoundaryIffValid(s: Bytes, n: nat)
    requires Validate(s).Valid? && n <= |s|
    ensures IsBoundary(s, n) <==> Validate(s[..n]).Valid?
    decreases |s|
  {
    if n == |s| {
      assert s[..n] == s;
    } else if n > 0 {
      var k := ReadHead(s).n;
      if n < k {
        assert ReadHead(s[..n]).Cut?;
      } else {
        assert ReadHead(s[..n]) == Char(k);
        assert s[..n][k..] == s[k..][..n - k];
        BoundaryIffValid(s[k..], n - k);
        assert s[k..][n - k] == s[n];
        if n == k {
          assert ReadHead(s[k..]).Char?;
        }
      }
    }
  }

  /** The greatest boundary up to `i`. */
  function FloorBoundary(s: Bytes, i: nat): (n: nat)
    requires i <= |s|
    ensures n <= i && IsBoundary(s, n)
    ensures forall m | n < m <= i :: !IsBoundary(s, m)
  {
    if IsBoundary(s, i) then i else FloorBoundary(s, i - 1)
  }

  function Truncated(s: Bytes, max: nat): Bytes {
    if |s| <= max then s else s[..FloorBoundary(s, max)]
  }

  method TruncateToTerminalWidth(s: Bytes, max: nat) returns (r: Bytes)
    ensures r == Truncated(s, max)
  {
    if |s| <= max { return s; }
    var end := max;
    while end > 0 && !IsBoundary(s, end)
      invariant 0 <= end <= max && FloorBoundary(s, end) == FloorBoundary(s, max)
    {
      end := end - 1;
    }
    r := s[..end];
  }

  /** A truncated text is the longest well-formed prefix within the limit. */
  lemma TruncatedIsLongest(s: Bytes, max: nat)
    requires WellFormed(s)
    ensures Truncated(s, max) <= s && |Truncated(s, max)| <= max && WellFormed(Truncated(s, max))
    ensures forall n | |Truncated(s, max)| < n <= |s| && n <= max :: !WellFormed(s[..n])
  {
    if |s| > max {
      BoundaryIffWellFormed(s, FloorBoundary(s, max));
      forall n | FloorBoundary(s, max) < n <= max ensures !WellFormed(s[..n]) {
        BoundaryIffWellFormed(s, n);
      }
    } else {
      assert s <= s;
    }
  }

  // Rewriting.

  /** How a complete line is read, and how wide the terminal is: `parse` gives the condensed text of
      a progress line. */
  datatype Terminal = Terminal(parse: Bytes -> Option<Bytes>, width: nat) {
    /** The columns an indicator may take. */
    function Columns(): nat {
      if width == 0 then 0 else width - 1
    }
  }

  datatype Chunk = Text(line: Bytes) | Indicator(text: Bytes) | Clear

  datatype Rewritten = Rewritten(chunks: seq<Chunk>, active: bool, rest: Bytes)

  function LineChunks(t: Terminal, line: Bytes, active: bool): seq<Chunk> {
    match t.parse(line)
    case Some(text) => [Indicator(Truncated(text, t.Columns()))]
    case None => if active then [Clear, Text(line)] else [Text(line)]
  }

  /** What is made of a text, given whether an indicator is on the screen. */
  function Rewrite(t: Terminal, s: Bytes, active: bool): Rewritten
    decreases |s|
  {
    var i := NewlineFrom(s, 0);
    if i == |s| then Rewritten([], active, s)
    else
      var line := s[..i + 1];
      var more := Rewrite(t, s[i + 1..], t.parse(line).Some?);
      more.(chunks := LineChunks(t, line, active) + more.chunks)
  }

  function Emit(c: Chunk): Bytes {
    match c case Text(line) => line case Indicator(text) => CLEAR + text case Clear => CLEAR
  }

  function EmitAll(cs: seq<Chunk>): Bytes {
    if cs == [] then [] else Emit(cs[0]) + EmitAll(cs[1..])
  }

  lemma {:induction false} EmitAppend(a: seq<Chunk>, b: seq<Chunk>)
    ensures EmitAll(a + b) == EmitAll(a) + EmitAll(b)
    decreases |a|
  {
    hide Emit;
    if a == [] {
      assert a + b == b;
    } else {
      EmitAppend(a[1..], b);
      assert (a + b)[1..] == a[1..] + b;
      Assoc(Emit(a[0]), EmitAll(a[1..]), EmitAll(b));
    }
  }

  /** However the input is cut into writes, the outcome is the same. */
  lemma {:induction false} RewriteIsSplitIndependent(t: Terminal, a: Bytes, b: Bytes, active: bool)
    ensures var first := Rewrite(t, a, active); var second := Rewrite(t, first.rest + b, first.active);
      Rewrite(t, a + b, active) == Rewritten(first.chunks + second.chunks, second.active, second.rest)
    decreases |a|
  {
    hide LineChunks;
    var i := NewlineFrom(a, 0);
    if i == |a| {
      var second := Rewrite(t, a + b, active);
      assert [] + second.chunks == second.chunks;
    } else {
      var line, rest := a[..i + 1], a[i + 1..];
      NewlineIs(a + b, 0, i);
      assert (a + b)[..i + 1] == line && (a + b)[i + 1..] == rest + b;
      RewriteIsSplitIndependent(t, rest, b, t.parse(line).Some?);
      var first := Rewrite(t, rest, t.parse(line).Some?);
      Assoc(LineChunks(t, line, active), first.chunks, Rewrite(t, first.rest + b, first.active).chunks);
    }
  }

  /** The complete lines of a text, newlines included. */
  function LinesOf(s: Bytes): seq<Bytes>
    decreases |s|
  {
    var i := NewlineFrom(s, 0);
    if i == |s| then [] else [s[..i + 1]] + LinesOf(s[i + 1..])
  }

  /** How a complete line appears: as it is, or as the indicator of its progress. */
  function Shown(t: Terminal, line: Bytes): Chunk {
    match t.parse(line) case Some(text) => Indicator(Truncated(text, t.Columns())) case None => Text(line)
  }

  function ShownAll(t: Terminal, lines: seq<Bytes>): seq<Chunk> {
    if lines == [] then [] else [Shown(t, lines[0])] + ShownAll(t, lines[1..])
  }

  function Visible(cs: seq<Chunk>): seq<Chunk> {
    if cs == [] then [] else (if cs[0].Clear? then [] else [cs[0]]) + Visible(cs[1..])
  }

  lemma VisibleOfLine(t: Terminal, line: Bytes, active: bool, more: seq<Chunk>)
    ensures Visible(LineChunks(t, line, active) + more) == [Shown(t, line)] + Visible(more)
  {
    var cs := LineChunks(t, line, active);
    assert (cs + more)[1..] == cs[1..] + more;
    if |cs| == 2 {
      assert cs[1..] + more == [Text(line)] + more && ([Text(line)] + more)[1..] == more;
      assert [] + Visible(cs[1..] + more) == Visible(cs[1..] + more);
    } else {
      assert cs[1..] + more == more;
    }
  }

  /** Every complete line appears once, in order: unchanged, or as its indicator. Lines and rest make
      up the input. */
  lemma {:induction false} EveryLineAppears(t: Terminal, s: Bytes, active: bool)
    ensures Visible(Rewrite(t, s, active).chunks) == ShownAll(t, LinesOf(s))
    ensures Flatten(LinesOf(s)) + Rewrite(t, s, active).rest == s
    ensures var rest := Rewrite(t, s, active).rest; NewlineFrom(rest, 0) == |rest|
    decreases |s|
  {
    hide LineChunks;
    hide Shown;
    var i := NewlineFrom(s, 0);
    if i < |s| {
      var line, rest := s[..i + 1], s[i + 1..];
      var active' := t.parse(line).Some?;
      EveryLineAppears(t, rest, active');
      VisibleOfLine(t, line, active, Rewrite(t, rest, active').chunks);
      assert ([line] + LinesOf(rest))[1..] == LinesOf(rest);
      Assoc(line, Flatten(LinesOf(rest)), Rewrite(t, rest, active').rest);
      TakeDrop(s, i + 1);
    }
  }

  /** No line is printed over an indicator, and an indicator is cleared only for a line. */
  predicate Tidy(cs: seq<Chunk>, active: bool) {
    cs == [] ||
    (match cs[0]
     case Text(_) => !active && Tidy(cs[1..], false)
     case Clear => active && cs[1..] != [] && cs[1].Text? && Tidy(cs[1..], false)
     case Indicator(_) => Tidy(cs[1..], true))
  }

  lemma {:induction false} IndicatorsAreCleared(t: Terminal, s: Bytes, active: bool)
    ensures Tidy(Rewrite(t, s, active).chunks, active)
    decreases |s|
  {
    hide Tidy;
    hide LineChunks;
    NothingIsTidy(active);
    var i := NewlineFrom(s, 0);
    if i < |s| {
      var line := s[..i + 1];
      var now := t.parse(line).Some?;
      IndicatorsAreCleared(t, s[i + 1..], now);
      TidyLine(t, line, active, Rewrite(t, s[i + 1..], now).chunks);
    }
  }

  lemma NothingIsTidy(active: bool)
    ensures Tidy([], active)
  {
  }

  lemma TidyLine(t: Terminal, line: Bytes, active: bool, more: seq<Chunk>)
    requires Tidy(more, t.parse(line).Some?)
    ensures Tidy(LineChunks(t, line, active) + more, active)
  {
    var cs := LineChunks(t, line, active);
    assert (cs + more)[1..] == cs[1..] + more;
    if |cs| == 2 {
      assert (cs[1..] + more)[0] == Text(line) && (cs[1..] + more)[1..] == more;
    } else {
      assert cs[1..] + more == more;
    }
  }

  /** What is visible and the tidiness determine the output. */
  lemma {:induction false} TidyIsUnique(a: seq<Chunk>, b: seq<Chunk>, active: bool)
    requires Tidy(a, active) && Tidy(b, active) && Visible(a) == Visible(b)
    ensures a == b
    decreases |a|
  {
    FirstVisible(a, active);
    FirstVisible(b, active);
    if a != [] {
      assert a == [a[0]] + a[1..] && b == [b[0]] + b[1..];
      if a[0].Clear? {
        assert [] + Visible(a[1..]) == Visible(a[1..]) && [] + Visible(b[1..]) == Visible(b[1..]);
        TidyIsUnique(a[1..], b[1..], false);
      } else {
        assert Visible(a)[1..] == Visible(a[1..]) && Visible(b)[1..] == Visible(b[1..]);
        TidyIsUnique(a[1..], b[1..], a[0].Indicator?);
      }
    }
  }

  lemma FirstVisible(cs: seq<Chunk>, active: bool)
    requires Tidy(cs, active)
    ensures cs == [] <==> Visible(cs) == []
    ensures cs != [] ==> (cs[0].Clear? <==> active && Visible(cs)[0].Text?)
    ensures cs != [] && !cs[0].Clear? ==> Visible(cs)[0] == cs[0]
  {
    if cs != [] && cs[0].Clear? {
      assert [] + Visible(cs[1..]) == Visible(cs[1..]);
      assert cs[1..][0] == cs[1];
    }
  }

  // The output in bytes.

  /** Line by line: the line itself, or the sequence that clears and the condensed text; a line that follows
      an indicator is preceded by the sequence that clears. */
  function Output(t: Terminal, lines: seq<Bytes>, active: bool): Bytes {
    if lines == [] then []
    else match t.parse(lines[0])
      case Some(text) => CLEAR + (Truncated(text, t.Columns()) + Output(t, lines[1..], true))
      case None => (if active then CLEAR else []) + (lines[0] + Output(t, lines[1..], false))
  }

  predicate NoProgress(t: Terminal, lines: seq<Bytes>) {
    forall i | 0 <= i < |lines| :: t.parse(lines[i]).None?
  }

  /** The lines of a text and what follows the last newline make it up; a line ends with its only newline. */
  lemma {:induction false} LinesMakeUp(t: Terminal, s: Bytes, active: bool)
    ensures Flatten(LinesOf(s)) + Rewrite(t, s, active).rest == s
    ensures forall i | 0 <= i < |LinesOf(s)| :: var line := LinesOf(s)[i];
      line != [] && NewlineFrom(line, 0) == |line| - 1
    decreases |s|
  {
    EveryLineAppears(t, s, active);
    var i := NewlineFrom(s, 0);
    if i < |s| {
      NewlineIs(s[..i + 1], 0, i);
      LinesMakeUp(t, s[i + 1..], t.parse(s[..i + 1]).Some?);
    }
  }

  lemma EmitLine(t: Terminal, line: Bytes, active: bool, more: Bytes)
    ensures EmitAll(LineChunks(t, line, active)) + more ==
      match t.parse(line)
      case Some(text) => CLEAR + (Truncated(text, t.Columns()) + more)
      case None => (if active then CLEAR else []) + (line + more)
  {
    var cs := LineChunks(t, line, active);
    EmitTwo(Clear, Text(line));
    EmitOne(cs[0]);
    match t.parse(line)
    case Some(text) => Assoc(CLEAR, Truncated(text, t.Columns()), more);
    case None =>
      Assoc(CLEAR, line, more);
      assert [] + (line + more) == line + more;
  }

  /** The chunks of a text, as bytes. */
  lemma {:induction false} RewriteIsOutput(t: Terminal, s: Bytes, active: bool)
    ensures EmitAll(Rewrite(t, s, active).chunks) == Output(t, LinesOf(s), active)
    decreases |s|
  {
    hide EmitAll;
    hide LineChunks;
    var i := NewlineFrom(s, 0);
    if i == |s| {
      assert EmitAll([]) == [] by { EmitNothing(); }
    } else {
      var line, rest := s[..i + 1], s[i + 1..];
      var now := t.parse(line).Some?;
      RewriteIsOutput(t, rest, now);
      EmitAppend(LineChunks(t, line, active), Rewrite(t, rest, now).chunks);
      EmitLine(t, line, active, Output(t, LinesOf(rest), now));
      assert ([line] + LinesOf(rest))[1..] == LinesOf(rest);
    }
  }

  lemma EmitNothing()
    ensures EmitAll([]) == []
  {
  }

  /** Lines without progress are put out as they are. */
  lemma {:induction false} PlainOutput(t: Terminal, lines: seq<Bytes>)
    requires NoProgress(t, lines)
    ensures Output(t, lines, false) == Flatten(lines)
    decreases |lines|
  {
    if lines != [] {
      PlainOutput(t, lines[1..]);
      assert [] + (lines[0] + Flatten(lines[1..])) == lines[0] + Flatten(lines[1..]);
    }
  }

  /** Text without progress lines passes through, but for the unterminated rest. */
  lemma PlainPassesThrough(t: Terminal, s: Bytes)
    requires NoProgress(t, LinesOf(s))
    ensures var x := Rewrite(t, s, false); EmitAll(x.chunks) + x.rest == s && !x.active
  {
    RewriteIsOutput(t, s, false);
    PlainOutput(t, LinesOf(s));
    LinesMakeUp(t, s, false);
    StaysInactive(t, s);
  }

  lemma {:induction false} StaysInactive(t: Terminal, s: Bytes)
    requires NoProgress(t, LinesOf(s))
    ensures !Rewrite(t, s, false).active
    decreases |s|
  {
    var i := NewlineFrom(s, 0);
    if i < |s| {
      assert LinesOf(s)[0] == s[..i + 1] && LinesOf(s)[1..] == LinesOf(s[i + 1..]);
      StaysInactive(t, s[i + 1..]);
    }
  }

  // The writer.

  /** How the inner writer answers a write: it takes some bytes, none, or fails. */
  datatype Answer = Takes(n: nat) | NotReady | Breaks

  datatype Poll = Ready(n: nat) | Pending | Failed

  /** What the inner writer makes of one write of `n` bytes, and its answers from then on. */
  function InnerPoll(n: nat, answers: seq<Answer>): Poll {
    if answers == [] then Pending
    else match answers[0]
      case NotReady => Pending
      case Breaks => Failed
      case Takes(k) => Ready(if k <= n then k else n)
  }

  function Further(answers: seq<Answer>): seq<Answer> {
    if answers == [] then [] else answers[1..]
  }

  datatype Flushed = Flushed(poll: Poll, left: nat, answers: seq<Answer>)

  /** Writing `n` queued bytes again and again: it ends when none is left, or with the first answer that
      takes none. */
  function Flushing(n: nat, answers: seq<Answer>): Flushed
    decreases |answers|
  {
    if n == 0 then Flushed(Ready(0), 0, answers)
    else
      var r := InnerPoll(n, answers);
      if !r.Ready? then Flushed(r, n, Further(answers))
      else if r.n == 0 then Flushed(Failed, n, Further(answers))
      else Flushing(n - r.n, Further(answers))
  }

  /** A writer that takes something each time, often enough, gets all. */
  lemma {:induction false} AllTaken(n: nat, answers: seq<Answer>)
    requires n <= |answers| && forall i | 0 <= i < n :: answers[i].Takes? && answers[i].n > 0
    ensures Flushing(n, answers).poll == Ready(0)
    decreases n
  {
    if n > 0 {
      var k := InnerPoll(n, answers).n;
      assert forall i | 0 <= i < |answers| - 1 :: answers[1..][i] == answers[i + 1];
      AllTaken(n - k, answers[1..]);
    }
  }

  class ProgressWriter {
    const renderProgress: bool
    const terminal: Terminal
    var lineBuffer: Bytes
    var pendingOutput: Bytes
    var progressActive: bool
    /** What has reached the inner writer, and how it will answer. */
    var written: Bytes
    var answers: seq<Answer>
    /** All bytes accepted so far. */
    ghost var input: Bytes

    /** Written and queued bytes are the rewritten input; the unterminated rest is kept back. */
    ghost predicate Valid()
      reads this
    {
      if renderProgress then
        var r := Rewrite(terminal, input, false);
        written + pendingOutput == EmitAll(r.chunks) && lineBuffer == r.rest && progressActive == r.active
      else written + pendingOutput == input && lineBuffer == [] && !progressActive
    }

    constructor (renderProgress: bool, terminal: Terminal, answers: seq<Answer>)
      ensures Valid() && input == [] && written == []
      ensures this.renderProgress == renderProgress && this.terminal == terminal && this.answers == answers
    {
      this.renderProgress, this.terminal, this.answers := renderProgress, terminal, answers;
      lineBuffer, pendingOutput, written, progressActive, input := [], [], [], false, [];
    }

    method InnerWrite(buf: Bytes) returns (r: Poll)
      modifies `written, `answers
      ensures r == InnerPoll(|buf|, old(answers)) && answers == Further(old(answers))
      ensures r.Ready? ==> r.n <= |buf| && written == old(written) + buf[..r.n]
      ensures !r.Ready? ==> written == old(written)
    {
      if answers == [] { return Pending; }
      var answer := answers[0];
      answers := answers[1..];
      match answer
      case NotReady => r := Pending;
      case Breaks => r := Failed;
      case Takes(k) =>
        var n := if k <= |buf| then k else |buf|;
        written := written + buf[..n];
        r := Ready(n);
    }

    /** Whatever the inner writer takes, nothing is lost, repeated or reordered. */
    method FlushPending() returns (r: Poll)
      modifies `written, `answers, `pendingOutput
      ensures written + pendingOutput == old(written + pendingOutput)
      ensures r.Ready? ==> pendingOutput == []
      ensures Flushed(r, |pendingOutput|, answers) == Flushing(|old(pendingOutput)|, old(answers))
    {
      while pendingOutput != []
        invariant written + pendingOutput == old(written + pendingOutput)
        invariant Flushing(|pendingOutput|, answers) == Flushing(|old(pendingOutput)|, old(answers))
        decreases |pendingOutput|
      {
        ghost var before := written;
        var result := InnerWrite(pendingOutput);
        if !result.Ready? { return result; }
        if result.n == 0 { return Failed; }
        Assoc(before, pendingOutput[..result.n], pendingOutput[result.n..]);
        TakeDrop(pendingOutput, result.n);
        pendingOutput := pendingOutput[result.n..];
      }
      r := Ready(0);
    }

    method RenderProgress(text: Bytes)
      modifies `pendingOutput, `progressActive
      ensures renderProgress ==> progressActive
      ensures var shown := Emit(Indicator(Truncated(text, terminal.Columns())));
        renderProgress ==> pendingOutput == old(pendingOutput) + shown
      ensures !renderProgress ==> pendingOutput == old(pendingOutput) && progressActive == old(progressActive)
    {
      if !renderProgress { return; }
      var truncated := TruncateToTerminalWidth(text, terminal.Columns());
      pendingOutput := pendingOutput + (CLEAR + truncated);
      progressActive := true;
    }

    method ClearProgress()
      modifies `pendingOutput, `progressActive
      ensures var shown := renderProgress && old(progressActive);
        pendingOutput == old(pendingOutput) + (if shown then Emit(Clear) else [])
        && progressActive == if shown then false else old(progressActive)
    {
      if !renderProgress || !progressActive { return; }
      pendingOutput := pendingOutput + CLEAR;
      progressActive := false;
    }

    /** One complete line. */
    method ProcessLine(line: Bytes)
      requires renderProgress
      modifies `pendingOutput, `progressActive
      ensures pendingOutput == old(pendingOutput) + EmitAll(LineChunks(terminal, line, old(progressActive)))
      ensures progressActive == terminal.parse(line).Some?
    {
      EmitTwo(Clear, Text(line));
      EmitOne(Text(line));
      match terminal.parse(line)
      case Some(text) =>
        EmitOne(LineChunks(terminal, line, progressActive)[0]);
        RenderProgress(text);
      case None =>
        ghost var before := pendingOutput;
        Assoc(before, CLEAR, line);
        if progressActive {
          ClearProgress();
        }
        pendingOutput := pendingOutput + line;
    }

    method ProcessCompleteLines()
      requires renderProgress
      modifies `pendingOutput, `progressActive, `lineBuffer
      ensures var r := Rewrite(terminal, old(lineBuffer), old(progressActive));
        pendingOutput == old(pendingOutput) + EmitAll(r.chunks) && lineBuffer == r.rest && progressActive == r.active
    {
      hide *;
      ghost var all := Rewrite(terminal, lineBuffer, progressActive);
      ghost var start := pendingOutput;
      var newline := NewlineFrom(lineBuffer, 0);
      while newline < |lineBuffer|
        invariant newline == NewlineFrom(lineBuffer, 0)
        invariant pendingOutput + EmitAll(Rewrite(terminal, lineBuffer, progressActive).chunks)
               == start + EmitAll(all.chunks)
        invariant Rewrite(terminal, lineBuffer, progressActive).rest == all.rest
        invariant Rewrite(terminal, lineBuffer, progressActive).active == all.active
        decreases |lineBuffer|
      {
        RewriteStep(terminal, lineBuffer, progressActive, pendingOutput);
        ProcessLine(lineBuffer[..newline + 1]);
        lineBuffer := lineBuffer[newline + 1..];
        newline := NewlineFrom(lineBuffer, 0);
      }
      RewriteNothing(terminal, lineBuffer, progressActive, pendingOutput);
    }

    method PollWrite(buf: Bytes) returns (r: Poll)
      requires Valid()
      modifies this
      ensures Valid()
      ensures r.Ready? ==> r.n <= |buf| && input == old(input) + buf[..r.n] && (renderProgress ==> r.n == |buf|)
      ensures !r.Ready? ==> input == old(input)
      // It accepts all as soon as the queue is empty, or is told by the inner writer.
      ensures var x := Flushing(|old(pendingOutput)|, old(answers));
        r == if !x.poll.Ready? then x.poll else if renderProgress then Ready(|buf|) else InnerPoll(|buf|, x.answers)
      // In bytes: the lines and indicators, and without progress lines just the input.
      ensures renderProgress ==> written + pendingOutput == Output(terminal, LinesOf(input), false)
      ensures renderProgress && NoProgress(terminal, LinesOf(input)) ==> written + pendingOutput + lineBuffer == input
    {
      hide Rewrite;
      hide EmitAll;
      hide Output;
      hide LinesOf;
      hide NoProgress;
      if renderProgress { InBytes(); }
      r := FlushPending();
      if !r.Ready? { return; }
      if !renderProgress {
        r := InnerWrite(buf);
        if r.Ready? { input := input + buf[..r.n]; }
        return;
      }
      ghost var first := Rewrite(terminal, input, false);
      RewriteIsSplitIndependent(terminal, input, buf, false);
      lineBuffer := lineBuffer + buf;
      ProcessCompleteLines();
      ghost var second := Rewrite(terminal, first.rest + buf, first.active);
      EmitAppend(first.chunks, second.chunks);
      input := input + buf;
      var ignored := FlushPending();
      assert buf[..|buf|] == buf;
      InBytes();
      r := Ready(|buf|);
    }

    lemma InBytes()
      requires Valid() && renderProgress
      ensures written + pendingOutput == Output(terminal, LinesOf(input), false)
      ensures NoProgress(terminal, LinesOf(input)) ==> written + pendingOutput + lineBuffer == input && !progressActive
    {
      RewriteIsOutput(terminal, input, false);
      if NoProgress(terminal, LinesOf(input)) {
        PlainPassesThrough(terminal, input);
      }
    }

    method PollFlush() returns (r: Poll)
      requires Valid()
      modifies `written, `answers, `pendingOutput
      ensures Valid()
      ensures r == Flushing(|old(pendingOutput)|, old(answers)).poll
      ensures r.Ready? && renderProgress ==> written == EmitAll(Rewrite(terminal, input, false).chunks)
      ensures r.Ready? && !renderProgress ==> written == input
      ensures r.Ready? && renderProgress ==> written == Output(terminal, LinesOf(input), false)
    {
      hide Rewrite;
      hide EmitAll;
      hide Output;
      hide LinesOf;
      if renderProgress { InBytes(); }
      r := FlushPending();
    }

    /** At the end the indicator is cleared and the unterminated rest follows as it is. */
    method PollShutdown() returns (r: Poll)
      requires Valid()
      modifies this
      ensures var x := Rewrite(terminal, input, false);
        written + pendingOutput ==
          if renderProgress then EmitAll(x.chunks) + (if x.active then CLEAR else []) + x.rest else input
      ensures r.Ready? ==> pendingOutput == []
      ensures var clear := if renderProgress && old(progressActive) then CLEAR else [];
        r == Flushing(|old(pendingOutput) + clear + old(lineBuffer)|, old(answers)).poll
      ensures lineBuffer == [] && !progressActive && input == old(input)
      ensures !renderProgress || NoProgress(terminal, LinesOf(input)) ==> written + pendingOutput == input
    {
      hide Rewrite;
      hide EmitAll;
      hide NoProgress;
      hide LinesOf;
      hide Output;
      if renderProgress { InBytes(); }
      ghost var before := pendingOutput;
      ClearProgress();
      Assoc(written, before, if renderProgress && old(progressActive) then CLEAR else []);
      ghost var cleared := pendingOutput;
      if lineBuffer != [] {
        pendingOutput := pendingOutput + lineBuffer;
        lineBuffer := [];
      }
      Assoc(written, cleared, old(lineBuffer));
      r := FlushPending();
    }
  }

  lemma RewriteStep(t: Terminal, s: Bytes, active: bool, before: Bytes)
    requires NewlineFrom(s, 0) < |s|
    ensures var i := NewlineFrom(s, 0); var line := s[..i + 1];
      var all, more := Rewrite(t, s, active), Rewrite(t, s[i + 1..], t.parse(line).Some?);
      && before + EmitAll(all.chunks) == before + EmitAll(LineChunks(t, line, active)) + EmitAll(more.chunks)
      && all.rest == more.rest && all.active == more.active
  {
    hide LineChunks;
    hide EmitAll;
    var i := NewlineFrom(s, 0);
    var line := s[..i + 1];
    var chunks, more := LineChunks(t, line, active), Rewrite(t, s[i + 1..], t.parse(line).Some?).chunks;
    EmitAppend(chunks, more);
    Assoc(before, EmitAll(chunks), EmitAll(more));
  }

  lemma RewriteNothing(t: Terminal, s: Bytes, active: bool, before: Bytes)
    requires NewlineFrom(s, 0) == |s|
    ensures Rewrite(t, s, active) == Rewritten([], active, s) && before + EmitAll([]) == before
  {
  }

  lemma EmitOne(c: Chunk)
    ensures EmitAll([c]) == Emit(c)
  {
    assert [c][1..] == [];
  }

  lemma EmitTwo(c: Chunk, d: Chunk)
    ensures EmitAll([c, d]) == Emit(c) + Emit(d)
  {
    EmitOne(d);
    assert [c, d][1..] == [d];
  }
}
