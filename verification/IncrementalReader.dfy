/** The incremental chunker of src/incremental_reader.rs, on decoded text. */
module Reader {
  import opened Basics
  import opened Lines

  datatype WriteBehavior = Write | NoFinalLine | Hide

  /** `matches` stands for `find` with a particular marker; `strip` removes ANSI escapes. */
  datatype ReadOpts = ReadOpts(matches: string -> bool, strip: string -> string, writing: WriteBehavior)

  datatype Buffers = Buffers(lines: string, line: string, forwarded: string)

  // What a call does, in terms of the pieces of the text it sees.

  /** Complete lines are matched as they are, the unterminated last one after stripping. */
  predicate Hit(ps: seq<string>, i: nat, opts: ReadOpts)
    requires i < |ps|
  {
    opts.matches(if i == |ps| - 1 then opts.strip(ps[i]) else ps[i])
  }

  /** The first piece from `i` on that is a marker. */
  function FirstHit(ps: seq<string>, i: nat, opts: ReadOpts): (m: nat)
    requires i <= |ps|
    ensures i <= m <= |ps|
    ensures forall j | i <= j < m :: !Hit(ps, j, opts)
    ensures m < |ps| ==> Hit(ps, m, opts)
    decreases |ps| - i
  {
    if i == |ps| || Hit(ps, i, opts) then i else FirstHit(ps, i + 1, opts)
  }

  /** What is forwarded of piece `i`, when piece `m` is the marker. */
  function Shown(ps: seq<string>, m: nat, i: nat, writing: WriteBehavior): string
    requires i < |ps|
  {
    if i == m then (if writing == Write then ps[i] + "\n" else "")
    else if i == |ps| - 1 || writing == Hide then ""
    else ps[i] + "\n"
  }

  function Forwarded(ps: seq<string>, m: nat, k: nat, writing: WriteBehavior): string
    requires k <= |ps|
  {
    if k == 0 then "" else Forwarded(ps, m, k - 1, writing) + Shown(ps, m, k - 1, writing)
  }

  /** Of the terminated pieces all are forwarded, or all but the marker, or none, each as a line. */
  lemma {:induction false} ForwardedLines(ps: seq<string>, m: nat, k: nat, writing: WriteBehavior)
    requires k < |ps|
    ensures Forwarded(ps, m, k, writing) ==
      if writing == Hide then ""
      else if writing == Write || k <= m then Unlines(ps[..k])
      else Unlines(ps[..m] + ps[m + 1..k])
    decreases k
  {
    if k == 0 {
      assert ps[..0] == [];
    } else {
      ForwardedLines(ps, m, k - 1, writing);
      var p := ps[k - 1];
      assert ps[..k] == ps[..k - 1] + [p];
      UnlinesSnoc(ps[..k - 1], p);
      Assoc(Unlines(ps[..k - 1]), p, "\n");
      if m + 1 < k {
        assert ps[..m] + ps[m + 1..k] == ps[..m] + ps[m + 1..k - 1] + [p];
        UnlinesSnoc(ps[..m] + ps[m + 1..k - 1], p);
        Assoc(Unlines(ps[..m] + ps[m + 1..k - 1]), p, "\n");
      } else if m + 1 == k {
        assert ps[..m] + ps[m + 1..k] == ps[..k - 1];
      }
    }
  }

  /** The lines before the marker are returned, the marker's line alone is dropped, and everything
      after it stays; without a marker everything stays. */
  function Consumed(b: Buffers, data: string, opts: ReadOpts): (Option<string>, Buffers) {
    ConsumedPieces(b, Pieces(b.line + data), opts)
  }

  function ConsumedPieces(b: Buffers, ps: seq<string>, opts: ReadOpts): (Option<string>, Buffers)
    requires ps != []
  {
    var n, m := |ps|, FirstHit(ps, 0, opts);
    var forwarded := b.forwarded + Forwarded(ps, m, n, opts.writing);
    if m == n then
      (None, Buffers(b.lines + Unlines(ps[..n - 1]), ps[n - 1], forwarded))
    else if m < n - 1 then
      (Some(b.lines + Unlines(ps[..m])), Buffers(Unlines(ps[m + 1..n - 1]), ps[n - 1], forwarded))
    else
      (Some(b.lines + Unlines(ps[..m])), Buffers("", "", forwarded))
  }

  /** A marker that no line matches. */
  function Never(writing: WriteBehavior): ReadOpts {
    ReadOpts(_ => false, s => s, writing)
  }

  /** Adding text without looking for markers. */
  function Absorbed(b: Buffers, data: string, writing: WriteBehavior): Buffers {
    Consumed(b, data, Never(writing)).1
  }

  /** A line ending of "\r\n" does not belong to the line. */
  function Chomp(p: string): string {
    if p != "" && p[|p| - 1] == '\r' then p[..|p| - 1] else p
  }

  /** The first line that is a marker. */
  function FirstLine(ls: seq<string>, opts: ReadOpts): (m: nat)
    ensures m <= |ls|
  {
    if ls == [] || opts.matches(Chomp(ls[0])) then 0 else 1 + FirstLine(ls[1..], opts)
  }

  function FullLines(lines: string): seq<string> {
    var ps := Pieces(lines); ps[..|ps| - 1]
  }

  /** A marker among the buffered lines, or in the unterminated one, ends a chunk. */
  function Taken(b: Buffers, opts: ReadOpts): (Option<string>, Buffers) {
    TakenLines(b, FullLines(b.lines), opts)
  }

  function TakenLines(b: Buffers, ls: seq<string>, opts: ReadOpts): (Option<string>, Buffers) {
    var k := FirstLine(ls, opts);
    if k < |ls| then (Some(Unlines(ls[..k])), b.(lines := Unlines(ls[k + 1..])))
    else if opts.matches(b.line) then (Some(b.lines), b.(lines := "", line := ""))
    else (None, b)
  }

  predicate Sound(b: Buffers) {
    IsLine(b.line) && (b.lines == "" || b.lines[|b.lines| - 1] == '\n')
  }

  class IncrementalReader {
    var lines: string
    var line: string
    var pending: string
    var forwarded: string

    constructor ()
      ensures State() == Buffers("", "", "") && pending == "" && Valid()
    {
      lines, line, pending, forwarded := "", "", "", "";
    }

    function State(): Buffers
      reads this
    {
      Buffers(lines, line, forwarded)
    }

    predicate Valid()
      reads this
    {
      Sound(State())
    }

    method TakeLines(writing: WriteBehavior) returns (chunk: string)
      modifies this
      ensures chunk == old(lines) && pending == old(pending)
      ensures State() == Buffers("", "", old(forwarded) + if writing == Write then old(line) + "\n" else "")
    {
      if writing == Write {
        forwarded := forwarded + (line + "\n");
      }
      line := "";
      chunk := lines;
      lines := "";
    }

    method FinishLine(writing: WriteBehavior)
      modifies this
      ensures pending == old(pending)
      ensures State() == Buffers(old(lines) + old(line) + "\n", "",
                                 old(forwarded) + if writing == Hide then "" else old(line) + "\n")
    {
      if writing != Hide {
        forwarded := forwarded + (line + "\n");
      }
      lines := lines + line + "\n";
      line := "";
    }

    /** The rest of a line has arrived: the line is the marker, or one more line. */
    method CompleteLine(first: string, opts: ReadOpts, found: Option<string>) returns (ret: Option<string>)
      modifies this
      ensures pending == old(pending)
      ensures var s := old(State()).(line := old(line) + first);
        (ret, State()) == AfterLine(s, found, found.None? && opts.matches(s.line), opts.writing)
    {
      line := line + first;
      ret := found;
      if found.None? && opts.matches(line) {
        var chunk := TakeLines(opts.writing);
        ret := Some(chunk);
      } else {
        FinishLine(opts.writing);
      }
    }

    method ConsumeStr(input: string, opts: ReadOpts) returns (ret: Option<string>)
      requires Valid()
      modifies this
      ensures Valid() && pending == old(pending)
      ensures (ret, State()) == Consumed(old(State()), input, opts)
    {
      Scanned(State(), input, opts);
      ScanningIsSound(State(), None, input, opts);
      var data := input;
      ret := None;
      while true
        invariant IsLine(line) && pending == old(pending)
        invariant Scanning(State(), ret, data, opts) == Scanning(old(State()), None, input, opts)
        decreases |data|
      {
        match SplitOnce(data) {
          case None =>
            line := line + data;
            if ret.None? && opts.matches(opts.strip(line)) {
              var chunk := TakeLines(opts.writing);
              ret := Some(chunk);
            }
            break;
          case Some((first, rest)) =>
            ret := CompleteLine(first, opts, ret);
            data := rest;
        }
      }
    }

    /** Text buffered without a marker search becomes lines, and the beginning of a line. */
    method DrainPending(writing: WriteBehavior)
      requires Valid()
      modifies this
      ensures Valid() && pending == "" && State() == Absorbed(old(State()), old(pending), writing)
    {
      Scanned(State(), pending, Never(writing));
      ScanningIsSound(State(), None, pending, Never(writing));
      while true
        invariant Scanning(State(), None, pending, Never(writing))
               == Scanning(old(State()), None, old(pending), Never(writing))
        decreases |pending|
      {
        match SplitOnce(pending) {
          case None => break;
          case Some((first, rest)) =>
            line := line + first;
            pending := rest;
            FinishLine(writing);
        }
      }
      if pending != "" {
        line := line + pending;
        pending := "";
      }
      assert line == State().line;
      assert State() == Scanning(old(State()), None, old(pending), Never(writing)).1;
    }

    method TakeChunkFromBuffer(opts: ReadOpts) returns (ret: Option<string>)
      requires Valid()
      modifies this
      ensures Valid() && pending == old(pending)
      ensures (ret, State()) == Taken(old(State()), opts)
    {
      SearchFinds(State(), opts);
      ret := SearchBuffer(opts);
    }

    method SearchBuffer(opts: ReadOpts) returns (ret: Option<string>)
      modifies this
      ensures pending == old(pending)
      ensures (ret, State()) == Searching(old(State()), 0, opts)
    {
      ghost var b := State();
      var start := 0;
      while start < |lines|
        invariant start <= |lines| && State() == b && pending == old(pending)
        invariant Searching(b, start, opts) == Searching(b, 0, opts)
      {
        var i := NewlineFrom(lines, start);
        var end := if i < |lines| then i + 1 else i;
        if opts.matches(Chomp(lines[start..i])) {
          ret := Some(lines[..start]);
          lines := lines[end..];
          return;
        }
        start := end;
      }
      if opts.matches(line) {
        ret := Some(lines);
        lines, line := "", "";
      } else {
        ret := None;
      }
    }

    /** Discards what the buffer holds up to its last marker, and counts the markers. */
    method DrainBufferedChunks(opts: ReadOpts) returns (count: nat)
      requires Valid() && SaneMarker(opts)
      modifies this
      ensures Valid() && pending == ""
      ensures var ps := Pieces(old(lines) + old(line) + old(pending));
        count == CountMarks(ps, opts) && lines + line == Text(AfterLast(ps, opts))
    {
      ghost var ps := Pieces(lines + line + pending);
      AbsorbedPieces(State(), pending, opts.writing);
      Assoc(lines, line, pending);
      DrainPending(opts.writing);
      count := 0;
      while true
        invariant Valid() && pending == ""
        invariant count + CountMarks(BufferPieces(State()), opts) == CountMarks(ps, opts)
        invariant Text(AfterLast(BufferPieces(State()), opts)) == Text(AfterLast(ps, opts))
        decreases |lines| + |line|
      {
        TakenPieces(State(), opts);
        var chunk := TakeChunkFromBuffer(opts);
        if chunk.None? {
          break;
        }
        count := count + 1;
      }
      JoinPieces(lines + line);
      TextOfBuffer(State());
    }
  }

  /** The loop of `consume_str`, from any of its iterations on. */
  function Scanning(s: Buffers, ret: Option<string>, data: string, opts: ReadOpts): (Option<string>, Buffers)
    decreases |data|
  {
    match SplitOnce(data)
    case None =>
      var last := s.(line := s.line + data);
      if ret.None? && opts.matches(opts.strip(last.line)) then AfterLine(last, ret, true, opts.writing) else (ret, last)
    case Some((first, rest)) =>
      var full := s.(line := s.line + first);
      var (next, after) := AfterLine(full, ret, ret.None? && opts.matches(full.line), opts.writing);
      Scanning(after, next, rest, opts)
  }

  /** The same, piece by piece. */
  function ScanPieces(s: Buffers, ret: Option<string>, ps: seq<string>, opts: ReadOpts): (Option<string>, Buffers)
    requires ps != []
    decreases |ps|
  {
    var full := s.(line := ps[0]);
    if |ps| == 1 then
      if ret.None? && opts.matches(opts.strip(full.line)) then AfterLine(full, ret, true, opts.writing) else (ret, full)
    else
      var (next, after) := AfterLine(full, ret, ret.None? && opts.matches(full.line), opts.writing);
      ScanPieces(after, next, ps[1..], opts)
  }

  lemma {:induction false} ScanningByPieces(s: Buffers, ret: Option<string>, data: string, opts: ReadOpts)
    requires IsLine(s.line)
    ensures Scanning(s, ret, data, opts) == ScanPieces(s, ret, Pieces(s.line + data), opts)
    decreases |data|
  {
    match SplitOnce(data) {
      case None =>
        PiecesNone(s.line + data);
      case Some((first, rest)) =>
        StepPiece(s.line, first, data, rest);
        var full := s.(line := s.line + first);
        var (next, after) := AfterLine(full, ret, ret.None? && opts.matches(full.line), opts.writing);
        assert "" + rest == rest;
        ScanningByPieces(after, next, rest, opts);
    }
  }

  lemma StepPiece(line: string, first: string, data: string, rest: string)
    requires IsLine(line) && SplitOnce(data) == Some((first, rest))
    ensures Pieces(line + data) == [line + first] + Pieces(rest) && IsLine(line + first)
  {
    AtNewline(data, NewlineAt(data));
    Assoc(first, "\n", rest);
    Assoc(line, first, "\n" + rest);
    Assoc(line + first, "\n", rest);
    PiecesLine(line + first, rest);
  }

  lemma {:induction false} ScanFrom(b: Buffers, ps: seq<string>, k: nat, opts: ReadOpts, s: Buffers,
                                    ret: Option<string>)
    requires k < |ps| && Scan(b, ps, FirstHit(ps, 0, opts), k, opts.writing, s.lines, s.forwarded, ret)
    ensures ScanPieces(s, ret, ps[k..], opts) == ConsumedPieces(b, ps, opts)
    decreases |ps| - k
  {
    var m := FirstHit(ps, 0, opts);
    var full := s.(line := ps[k]);
    assert ps[k..][0] == ps[k] && ps[k..][1..] == ps[k + 1..];
    if k + 1 == |ps| {
      ScanEnd(b, ps, m, k, opts, full, ret);
    } else {
      var (next, after) := AfterLine(full, ret, ret.None? && opts.matches(full.line), opts.writing);
      ScanLine(b, ps, m, k, opts, full, ret);
      ScanFrom(b, ps, k + 1, opts, after, next);
    }
  }

  /** The loop treats the pieces of what was buffered and read as `Consumed` says. */
  lemma Scanned(b: Buffers, data: string, opts: ReadOpts)
    requires Sound(b)
    ensures Scanning(b, None, data, opts) == Consumed(b, data, opts)
  {
    var ps := Pieces(b.line + data);
    ScanningByPieces(b, None, data, opts);
    ScanStart(b, ps, FirstHit(ps, 0, opts), opts.writing);
    assert ps[0..] == ps;
    ScanFrom(b, ps, 0, opts, b, None);
  }

  lemma {:induction false} ScanningIsSound(s: Buffers, ret: Option<string>, data: string, opts: ReadOpts)
    requires Sound(s)
    ensures Sound(Scanning(s, ret, data, opts).1)
    decreases |data|
  {
    match SplitOnce(data) {
      case None =>
      case Some((first, rest)) =>
        var full := s.(line := s.line + first);
        var (next, after) := AfterLine(full, ret, ret.None? && opts.matches(full.line), opts.writing);
        ScanningIsSound(after, next, rest, opts);
    }
  }

  /** `consume_str` halfway: the first `k` pieces are dealt with, piece `m` being the marker. */
  ghost predicate Scan(b: Buffers, ps: seq<string>, m: nat, k: nat, writing: WriteBehavior,
                       lines: string, forwarded: string, ret: Option<string>)
    requires k <= |ps|
  {
    && (ret.None? <==> k <= m)
    && (k <= m ==> lines == b.lines + Unlines(ps[..k]))
    && (m < k ==> ret.value == b.lines + Unlines(ps[..m]) && lines == Unlines(ps[m + 1..k]))
    && forwarded == b.forwarded + Forwarded(ps, m, k, writing)
  }

  lemma ScanStart(b: Buffers, ps: seq<string>, m: nat, writing: WriteBehavior)
    ensures Scan(b, ps, m, 0, writing, b.lines, b.forwarded, None)
  {
    assert b.lines + Unlines(ps[..0]) == b.lines;
    assert b.forwarded + Forwarded(ps, m, 0, writing) == b.forwarded;
  }

  /** The state after a complete line: taken if it is the marker, finished otherwise. */
  function AfterLine(s: Buffers, ret: Option<string>, hit: bool, writing: WriteBehavior): (Option<string>, Buffers) {
    if hit then (Some(s.lines), Buffers("", "", s.forwarded + if writing == Write then s.line + "\n" else ""))
    else (ret, Buffers(s.lines + s.line + "\n", "", s.forwarded + if writing == Hide then "" else s.line + "\n"))
  }

  lemma ScanLine(b: Buffers, ps: seq<string>, m: nat, k: nat, opts: ReadOpts, s: Buffers, ret: Option<string>)
    requires k + 1 < |ps| && s.line == ps[k] && Scan(b, ps, m, k, opts.writing, s.lines, s.forwarded, ret)
    requires m == FirstHit(ps, 0, opts)
    ensures var (next, after) := AfterLine(s, ret, ret.None? && opts.matches(s.line), opts.writing);
      Scan(b, ps, m, k + 1, opts.writing, after.lines, after.forwarded, next)
  {
    assert Hit(ps, k, opts) == opts.matches(s.line);
    Assoc(b.forwarded, Forwarded(ps, m, k, opts.writing), Shown(ps, m, k, opts.writing));
    assert ps[..k + 1] == ps[0..k + 1] && ps[..k] == ps[0..k];
    if k == m {
      assert ps[m + 1..k + 1] == [];
    } else if k < m {
      SnocLines(b.lines, ps, 0, k);
    } else {
      SnocLines("", ps, m + 1, k);
      assert "" + Unlines(ps[m + 1..k + 1]) == Unlines(ps[m + 1..k + 1]);
      assert "" + Unlines(ps[m + 1..k]) == Unlines(ps[m + 1..k]);
    }
  }

  lemma ScanEnd(b: Buffers, ps: seq<string>, m: nat, k: nat, opts: ReadOpts, s: Buffers, ret: Option<string>)
    requires k + 1 == |ps| && s.line == ps[k] && Scan(b, ps, m, k, opts.writing, s.lines, s.forwarded, ret)
    requires m == FirstHit(ps, 0, opts)
    ensures ConsumedPieces(b, ps, opts)
         == if ret.None? && opts.matches(opts.strip(s.line)) then AfterLine(s, ret, true, opts.writing) else (ret, s)
  {
    hide Unlines;
    assert Hit(ps, k, opts) == opts.matches(opts.strip(s.line));
    var before, shown := Forwarded(ps, m, k, opts.writing), Shown(ps, m, k, opts.writing);
    assert Forwarded(ps, m, |ps|, opts.writing) == before + shown;
    Assoc(b.forwarded, before, shown);
    if k != m {
      assert shown == "" && s.forwarded + "" == s.forwarded;
    }
  }

  lemma SnocLines(before: string, ps: seq<string>, i: nat, k: nat)
    requires k < |ps|
    ensures i <= k ==> before + Unlines(ps[i..k + 1]) == before + Unlines(ps[i..k]) + ps[k] + "\n"
  {
    if i <= k {
      assert ps[i..k + 1] == ps[i..k] + [ps[k]];
      UnlinesSnoc(ps[i..k], ps[k]);
      Assoc(before, Unlines(ps[i..k]), ps[k]);
      Assoc(before, Unlines(ps[i..k]) + ps[k], "\n");
    }
  }

  // Searching the buffer.

  /** The search of `take_chunk_from_buffer`, from one of the line starts on. */
  function Searching(b: Buffers, start: nat, opts: ReadOpts): (Option<string>, Buffers)
    requires start <= |b.lines|
    decreases |b.lines| - start
  {
    if start == |b.lines| then
      if opts.matches(b.line) then (Some(b.lines), b.(lines := "", line := "")) else (None, b)
    else
      var i := NewlineFrom(b.lines, start);
      var end := if i < |b.lines| then i + 1 else i;
      if opts.matches(Chomp(b.lines[start..i])) then (Some(b.lines[..start]), b.(lines := b.lines[end..]))
      else Searching(b, end, opts)
  }

  lemma LineAt(s: string, before: string, p: string, rest: string)
    requires IsLine(p) && s == before + (p + "\n" + rest)
    ensures var i, j := |before|, |before| + |p|;
      j < |s| && NewlineFrom(s, i) == j && s[..i] == before && s[i..j] == p && s[j + 1..] == rest
  {
    assert s[|before| + |p|] == '\n';
  }

  lemma SearchStep(b: Buffers, start: nat, end: nat, before: string, p: string, rest: string, opts: ReadOpts)
    requires start <= end < |b.lines| && NewlineFrom(b.lines, start) == end
    requires b.lines[..start] == before && b.lines[start..end] == p && b.lines[end + 1..] == rest
    ensures Searching(b, start, opts) ==
      if opts.matches(Chomp(p)) then (Some(before), b.(lines := rest)) else Searching(b, end + 1, opts)
  {
  }

  lemma SearchHead(b: Buffers, before: string, p: string, qs: seq<string>, opts: ReadOpts)
    requires IsLine(p) && b.lines == before + Unlines([p] + qs)
    ensures b.lines == before + p + "\n" + Unlines(qs)
    ensures Searching(b, |before|, opts)
         == if opts.matches(Chomp(p)) then (Some(before), b.(lines := Unlines(qs)))
            else Searching(b, |before + p + "\n"|, opts)
  {
    hide Unlines;
    hide Searching;
    hide NewlineFrom;
    hide IsLine;
    var rest := Unlines(qs);
    UnlinesCons(p, qs);
    Assoc(p, "\n", rest);
    LineAt(b.lines, before, p, rest);
    SearchStep(b, |before|, |before| + |p|, before, p, rest, opts);
    Assoc(before, p, "\n");
    Assoc(before, p + "\n", rest);
  }

  lemma {:induction false} SearchLines(b: Buffers, before: string, ls: seq<string>, opts: ReadOpts)
    requires NewlineFree(ls) && b.lines == before + Unlines(ls)
    ensures Searching(b, |before|, opts) == TakenAfter(b, before, ls, opts)
    decreases |ls|
  {
    if ls == [] {
      assert before + Unlines(ls) == before;
    } else {
      hide Unlines;
      hide Searching;
      assert ls == [ls[0]] + ls[1..];
      SearchHead(b, before, ls[0], ls[1..], opts);
      if !opts.matches(Chomp(ls[0])) {
        SearchLines(b, before + ls[0] + "\n", ls[1..], opts);
      }
    }
  }

  function TakenAfter(b: Buffers, before: string, ls: seq<string>, opts: ReadOpts): (Option<string>, Buffers)
    decreases |ls|
  {
    if ls == [] then
      if opts.matches(b.line) then (Some(b.lines), b.(lines := "", line := "")) else (None, b)
    else if opts.matches(Chomp(ls[0])) then (Some(before), b.(lines := Unlines(ls[1..])))
    else TakenAfter(b, before + ls[0] + "\n", ls[1..], opts)
  }

  lemma {:induction false} TakenAfterIs(b: Buffers, before: string, ls: seq<string>, opts: ReadOpts)
    ensures var m := FirstLine(ls, opts);
      TakenAfter(b, before, ls, opts) ==
        if m < |ls| then (Some(before + Unlines(ls[..m])), b.(lines := Unlines(ls[m + 1..])))
        else if opts.matches(b.line) then (Some(b.lines), b.(lines := "", line := ""))
        else (None, b)
    decreases |ls|
  {
    if ls == [] {
    } else if opts.matches(Chomp(ls[0])) {
      assert before + Unlines(ls[..0]) == before;
    } else {
      var p, qs := ls[0], ls[1..];
      var m := FirstLine(qs, opts);
      TakenAfterIs(b, before + p + "\n", qs, opts);
      if m < |qs| {
        assert ls[..m + 1] == [p] + qs[..m] && ls[m + 2..] == qs[m + 1..];
        UnlinesCons(p, qs[..m]);
        Assoc(before, p, "\n");
        Assoc(before, p + "\n", Unlines(qs[..m]));
      }
    }
  }

  lemma SearchFinds(b: Buffers, opts: ReadOpts)
    requires Sound(b)
    ensures Searching(b, 0, opts) == Taken(b, opts)
    ensures Sound(Taken(b, opts).1)
  {
    hide Unlines;
    hide Searching;
    hide TakenAfter;
    hide Pieces;
    var ls := FullLines(b.lines);
    var m := FirstLine(ls, opts);
    TerminatedLines(b.lines);
    assert "" + Unlines(ls) == Unlines(ls);
    SearchLines(b, "", ls, opts);
    TakenAfterIs(b, "", ls, opts);
    if m < |ls| {
      assert "" + Unlines(ls[..m]) == Unlines(ls[..m]);
      UnlinesEnd(ls[m + 1..]);
    }
  }

  // Counting the markers of a buffer.

  /** The marker is not empty and does not look at a final carriage return. */
  ghost predicate SaneMarker(opts: ReadOpts) {
    !opts.matches("") && forall p :: opts.matches(p + "\r") <==> opts.matches(p)
  }

  function CountMarks(ps: seq<string>, opts: ReadOpts): nat {
    if ps == [] then 0 else (if opts.matches(ps[0]) then 1 else 0) + CountMarks(ps[1..], opts)
  }

  /** The pieces after the last marker. */
  function AfterLast(ps: seq<string>, opts: ReadOpts): seq<string> {
    if CountMarks(ps, opts) == 0 then ps
    else if CountMarks(ps[1..], opts) == 0 then ps[1..]
    else AfterLast(ps[1..], opts)
  }

  function Text(ps: seq<string>): string {
    if ps == [] then "" else Join(ps)
  }

  function BufferPieces(b: Buffers): seq<string> {
    FullLines(b.lines) + [b.line]
  }

  lemma FullLinesOf(ls: seq<string>)
    requires NewlineFree(ls)
    ensures FullLines(Unlines(ls)) == ls
  {
    PiecesUnlines(ls, "");
    assert Unlines(ls) + "" == Unlines(ls);
    assert (ls + [""])[..|ls|] == ls;
  }

  lemma BufferIsText(b: Buffers, more: string)
    requires Sound(b)
    ensures NewlineFree(FullLines(b.lines)) && Unlines(FullLines(b.lines)) == b.lines
    ensures Pieces(b.lines + more) == FullLines(b.lines) + Pieces(more)
  {
    TerminatedLines(b.lines);
    PiecesUnlines(FullLines(b.lines), more);
  }

  lemma TextOfBuffer(b: Buffers)
    requires Sound(b)
    ensures Text(BufferPieces(b)) == b.lines + b.line
  {
    BufferIsText(b, b.line);
    PiecesNone(b.line);
    JoinPieces(b.lines + b.line);
  }

  lemma AbsorbedPieces(b: Buffers, data: string, writing: WriteBehavior)
    requires Sound(b)
    ensures BufferPieces(Absorbed(b, data, writing)) == Pieces(b.lines + (b.line + data))
  {
    hide Unlines;
    hide Pieces;
    hide Absorbed;
    var ps, ls := Pieces(b.line + data), FullLines(b.lines);
    var front := ps[..|ps| - 1];
    AbsorbedParts(b, data, writing);
    BufferIsText(b, b.line + data);
    PiecesFree(b.line + data);
    UnlinesAppend(ls, front);
    FullLinesOf(ls + front);
    assert front + [ps[|ps| - 1]] == ps;
    Assoc(ls, front, [ps[|ps| - 1]]);
  }

  lemma AbsorbedParts(b: Buffers, data: string, writing: WriteBehavior)
    ensures var ps, after := Pieces(b.line + data), Absorbed(b, data, writing);
      after.lines == b.lines + Unlines(ps[..|ps| - 1]) && after.line == ps[|ps| - 1]
  {
    var ps := Pieces(b.line + data);
    assert FirstHit(ps, 0, Never(writing)) == |ps|;
  }

  predicate Unmarked(ps: seq<string>, opts: ReadOpts) {
    forall i | 0 <= i < |ps| :: !opts.matches(ps[i])
  }

  lemma {:induction false} MarksSkip(ls: seq<string>, qs: seq<string>, opts: ReadOpts)
    requires Unmarked(ls, opts)
    ensures CountMarks(ls + qs, opts) == CountMarks(qs, opts)
    ensures CountMarks(qs, opts) > 0 ==> AfterLast(ls + qs, opts) == AfterLast(qs, opts)
    decreases |ls|
  {
    if ls == [] {
      assert ls + qs == qs;
    } else {
      assert (ls + qs)[1..] == ls[1..] + qs;
      MarksSkip(ls[1..], qs, opts);
    }
  }

  lemma MarkThen(ls: seq<string>, p: string, qs: seq<string>, opts: ReadOpts)
    requires Unmarked(ls, opts) && opts.matches(p)
    ensures CountMarks(ls + ([p] + qs), opts) == 1 + CountMarks(qs, opts)
    ensures AfterLast(ls + ([p] + qs), opts) == AfterLast(qs, opts)
  {
    assert ([p] + qs)[1..] == qs;
    MarksSkip(ls, [p] + qs, opts);
  }

  lemma ChompedMatch(p: string, opts: ReadOpts)
    requires SaneMarker(opts)
    ensures opts.matches(Chomp(p)) == opts.matches(p)
  {
    if Chomp(p) != p {
      assert p == Chomp(p) + "\r";
    }
  }

  /** The lines of the buffer up to the first marker. */
  lemma {:induction false} FirstLineUnmarked(ls: seq<string>, opts: ReadOpts)
    requires SaneMarker(opts)
    ensures var m := FirstLine(ls, opts); Unmarked(ls[..m], opts) && (m < |ls| ==> opts.matches(ls[m]))
    decreases |ls|
  {
    if ls != [] {
      ChompedMatch(ls[0], opts);
      FirstLineUnmarked(ls[1..], opts);
    }
  }

  /** Taking a chunk uses up exactly the first marker. */
  lemma TakenPieces(b: Buffers, opts: ReadOpts)
    requires Sound(b) && SaneMarker(opts)
    ensures var (ret, after) := Taken(b, opts); var ps, qs := BufferPieces(b), BufferPieces(after);
      && (ret.Some? ==> CountMarks(ps, opts) == 1 + CountMarks(qs, opts))
      && (ret.Some? ==> |after.lines| + |after.line| < |b.lines| + |b.line|)
      && (ret.None? ==> after == b && CountMarks(ps, opts) == 0)
      && Text(AfterLast(ps, opts)) == Text(AfterLast(qs, opts))
  {
    hide Unlines;
    hide Pieces;
    var ls := FullLines(b.lines);
    var m := FirstLine(ls, opts);
    BufferIsText(b, "");
    FirstLineUnmarked(ls, opts);
    if m < |ls| {
      TakenLine(b, ls, m, opts);
    } else {
      assert ls[..m] == ls;
      if opts.matches(b.line) {
        assert [b.line] + [] == [b.line];
        MarkThen(ls, b.line, [], opts);
        FullLinesOf([]);
        assert [] + [""] == [""] && [""][1..] == [];
        JoinOne("");
      } else {
        MarksSkip(ls, [b.line], opts);
        assert [b.line][1..] == [];
      }
    }
  }

  lemma TakenLine(b: Buffers, ls: seq<string>, m: nat, opts: ReadOpts)
    requires m < |ls| && NewlineFree(ls) && b.lines == Unlines(ls)
    requires Unmarked(ls[..m], opts) && opts.matches(ls[m])
    ensures FullLines(Unlines(ls[m + 1..])) == ls[m + 1..]
    ensures CountMarks(ls + [b.line], opts) == 1 + CountMarks(ls[m + 1..] + [b.line], opts)
    ensures AfterLast(ls + [b.line], opts) == AfterLast(ls[m + 1..] + [b.line], opts)
    ensures |Unlines(ls[m + 1..])| < |b.lines|
  {
    var rest := ls[m + 1..];
    assert ls + [b.line] == ls[..m] + ([ls[m]] + (rest + [b.line]));
    MarkThen(ls[..m], ls[m], rest + [b.line], opts);
    FullLinesOf(rest);
    assert ls == ls[..m + 1] + rest;
    UnlinesAppend(ls[..m + 1], rest);
  }

  // Reading a stream chunk by chunk.

  /** The chunks of a text: what precedes each marker line, back to the one before it. */
  function ChunksOf(before: string, ps: seq<string>, opts: ReadOpts): seq<string>
    decreases |ps|
  {
    if ps == [] then []
    else if opts.matches(ps[0]) then [before] + ChunksOf("", ps[1..], opts)
    else ChunksOf(before + ps[0] + "\n", ps[1..], opts)
  }

  lemma {:induction false} ChunksSkip(before: string, ls: seq<string>, qs: seq<string>, opts: ReadOpts)
    requires Unmarked(ls, opts)
    ensures ChunksOf(before, ls + qs, opts) == ChunksOf(before + Unlines(ls), qs, opts)
    decreases |ls|
  {
    if ls == [] {
      assert ls + qs == qs && before + Unlines(ls) == before;
    } else {
      hide Unlines;
      var p, rest := ls[0], ls[1..];
      assert ls == [p] + rest && (ls + qs)[1..] == rest + qs;
      ChunksSkip(before + p + "\n", rest, qs, opts);
      UnlinesCons(p, rest);
      Assoc(before, p, "\n");
      Assoc(before, p + "\n", Unlines(rest));
    }
  }

  lemma ChunksMark(before: string, ls: seq<string>, p: string, qs: seq<string>, opts: ReadOpts)
    requires Unmarked(ls, opts) && opts.matches(p)
    ensures ChunksOf(before, ls + ([p] + qs), opts) == [before + Unlines(ls)] + ChunksOf("", qs, opts)
  {
    ChunksSkip(before, ls, [p] + qs, opts);
    assert ([p] + qs)[1..] == qs;
  }

  /** Lines that are no markers, each group of them ended by a marker. */
  ghost predicate AreGroups(groups: seq<seq<string>>, marks: seq<string>, opts: ReadOpts) {
    && |groups| == |marks|
    && forall i | 0 <= i < |groups| :: Unmarked(groups[i], opts) && opts.matches(marks[i])
  }

  function Grouped(groups: seq<seq<string>>, marks: seq<string>): seq<string>
    requires |groups| == |marks|
  {
    if groups == [] then [] else groups[0] + ([marks[0]] + Grouped(groups[1..], marks[1..]))
  }

  function Texts(groups: seq<seq<string>>): (r: seq<string>)
    ensures |r| == |groups| && forall i | 0 <= i < |r| :: r[i] == Unlines(groups[i])
  {
    seq(|groups|, i requires 0 <= i < |groups| => Unlines(groups[i]))
  }

  /** A text divided by markers has the text of each group for a chunk, and what follows is left. */
  lemma {:induction false} ChunksAreGroups(
      groups: seq<seq<string>>, marks: seq<string>, tail: seq<string>, opts: ReadOpts)
    requires AreGroups(groups, marks, opts) && Unmarked(tail, opts)
    ensures var ps := Grouped(groups, marks) + tail;
      ChunksOf("", ps, opts) == Texts(groups) && AfterLast(ps, opts) == tail && CountMarks(ps, opts) == |marks|
  {
    hide Unlines;
    if groups == [] {
      assert [] + tail == tail && tail + [] == tail;
      MarksSkip(tail, [], opts);
      ChunksSkip("", tail, [], opts);
    } else {
      var more := Grouped(groups[1..], marks[1..]) + tail;
      ChunksAreGroups(groups[1..], marks[1..], tail, opts);
      assert Grouped(groups, marks) + tail == groups[0] + ([marks[0]] + more);
      ChunksMark("", groups[0], marks[0], more, opts);
      MarkThen(groups[0], marks[0], more, opts);
      assert "" + Unlines(groups[0]) == Unlines(groups[0]);
      assert [Unlines(groups[0])] + Texts(groups[1..]) == Texts(groups);
    }
  }

  lemma PiecesAppend(d: string, rest: string)
    ensures var ps := Pieces(d); Pieces(d + rest) == ps[..|ps| - 1] + Pieces(ps[|ps| - 1] + rest)
  {
    var ps := Pieces(d);
    JoinPieces(d);
    PiecesFree(d);
    Assoc(Unlines(ps[..|ps| - 1]), ps[|ps| - 1], rest);
    PiecesUnlines(ps[..|ps| - 1], ps[|ps| - 1] + rest);
  }

  /** What is buffered and what is still to come, as pieces. */
  function Ahead(b: Buffers, rest: string): seq<string> {
    FullLines(b.lines) + Pieces(b.line + rest)
  }

  /** `read_until`, repeated until the deliveries are used up: the chunks, and what is left buffered. */
  ghost function ReadOut(b: Buffers, parts: seq<string>, opts: ReadOpts): (seq<string>, Buffers)
    requires Sound(b) && SaneMarker(opts)
    decreases |parts|, |b.lines| + |b.line|
  {
    TakenPieces(b, opts);
    SearchFinds(b, opts);
    var (ret, after) := Taken(b, opts);
    if ret.Some? then
      var (more, end) := ReadOut(after, parts, opts);
      ([ret.value] + more, end)
    else if parts == [] then ([], b)
    else
      ConsumedIsSound(b, parts[0], opts);
      var (found, next) := Consumed(b, parts[0], opts);
      var (more, end) := ReadOut(next, parts[1..], opts);
      ((if found.Some? then [found.value] else []) + more, end)
  }

  lemma ConsumedIsSound(b: Buffers, data: string, opts: ReadOpts)
    requires Sound(b)
    ensures Sound(Consumed(b, data, opts).1)
  {
    Scanned(b, data, opts);
    ScanningIsSound(b, None, data, opts);
  }

  /** No delivery ends within a line whose beginning is taken for a marker. The beginning is looked at
      as it is, and also stripped if the delivery has completed no marker line; then it must be the whole
      line, and a marker as it is. `x` is the beginning of the line at the first delivery. */
  predicate SafeCuts(x: string, parts: seq<string>, opts: ReadOpts)
    decreases |parts|
  {
    && (Flatten(parts) != "" ==> !opts.matches(x))
    && (parts != [] ==>
          var ps := Pieces(x + parts[0]);
          var front, tail := ps[..|ps| - 1], ps[|ps| - 1];
          && (Unmarked(front, opts) && opts.matches(opts.strip(tail)) ==>
                opts.matches(tail) && Flatten(parts[1..]) == "")
          && SafeCuts(tail, parts[1..], opts))
  }

  // One step of reading, on the pieces of what is buffered and still to come.

  /** The next chunk is what precedes the next marker line. */
  predicate TakesLine(all: seq<string>, chunk: string, front: seq<string>, p: string, after: seq<string>,
                      opts: ReadOpts) {
    all == front + ([p] + after) && Unmarked(front, opts) && opts.matches(p) && chunk == Unlines(front) && after != []
  }

  /** The chunk is what precedes an unterminated line, of which only `tail` goes. */
  predicate TakesTail(all: seq<string>, chunk: string, front: seq<string>, tail: string, rest: string,
                      after: seq<string>, opts: ReadOpts)
  {
    && all == front + Pieces(tail + rest) && Unmarked(front, opts) && chunk == Unlines(front)
    && after == Pieces(rest) && IsLine(tail)
  }

  lemma TakeStep(b: Buffers, rest: string, opts: ReadOpts)
    requires Sound(b) && SaneMarker(opts)
    ensures var (ret, after) := Taken(b, opts); var ls := FullLines(b.lines); var m := FirstLine(ls, opts);
      && Sound(after)
      && (ret.None? ==> after == b && Unmarked(ls, opts) && !opts.matches(b.line))
      && (ret.Some? && m < |ls| ==>
            after.line == b.line && TakesLine(Ahead(b, rest), ret.value, ls[..m], ls[m], Ahead(after, rest), opts))
      && (ret.Some? && m == |ls| ==>
            && after.lines == after.line == "" && opts.matches(b.line)
            && TakesTail(Ahead(b, rest), ret.value, ls, b.line, rest, Ahead(after, rest), opts))
  {
    hide Unlines;
    hide Pieces;
    var ls := FullLines(b.lines);
    var m := FirstLine(ls, opts);
    SearchFinds(b, opts);
    BufferIsText(b, "");
    FirstLineUnmarked(ls, opts);
    FullLinesOf([]);
    UnlinesEnd([]);
    NothingBuffered(rest);
    if m < |ls| {
      FullLinesOf(ls[m + 1..]);
      var later := Pieces(b.line + rest);
      assert ls + later == ls[..m] + ([ls[m]] + (ls[m + 1..] + later));
    } else {
      assert ls[..m] == ls;
    }
  }

  lemma NothingBuffered(rest: string)
    ensures FullLines("") + Pieces("" + rest) == Pieces(rest)
  {
    PiecesNone("");
    assert FullLines("") == [] && "" + rest == rest;
  }

  lemma FirstHitIs(ps: seq<string>, opts: ReadOpts)
    requires ps != []
    ensures var m := FirstHit(ps, 0, opts); var front, tail := ps[..|ps| - 1], ps[|ps| - 1];
      && (m < |ps| - 1 ==> !Unmarked(front, opts) && Unmarked(ps[..m], opts) && opts.matches(ps[m]))
      && (m >= |ps| - 1 ==> Unmarked(front, opts))
      && (m == |ps| - 1 ==> opts.matches(opts.strip(tail)))
      && (m == |ps| ==> !opts.matches(opts.strip(tail)))
  {
    var m, n := FirstHit(ps, 0, opts), |ps|;
    forall i | 0 <= i < m && i < n - 1 ensures !opts.matches(ps[i]) {
      assert !Hit(ps, i, opts);
    }
    if m < n - 1 {
      assert ps[..n - 1][m] == ps[m];
    }
    if m == n {
      assert !Hit(ps, n - 1, opts);
    }
  }

  /** The text to come, by the pieces of a delivery. */
  lemma AheadOf(b: Buffers, d: string, rest: string)
    requires Sound(b)
    ensures var ps := Pieces(b.line + d);
      && Ahead(b, d + rest) == FullLines(b.lines) + (ps[..|ps| - 1] + Pieces(ps[|ps| - 1] + rest))
      && NewlineFree(ps) && NewlineFree(FullLines(b.lines)) && Unlines(FullLines(b.lines)) == b.lines
      && Pieces(ps[|ps| - 1] + rest) != []
  {
    Assoc(b.line, d, rest);
    PiecesAppend(b.line + d, rest);
    PiecesFree(b.line + d);
    BufferIsText(b, "");
  }

  lemma ReadNothing(b: Buffers, d: string, rest: string, opts: ReadOpts)
    requires Sound(b) && FirstHit(Pieces(b.line + d), 0, opts) == |Pieces(b.line + d)|
    ensures var ps := Pieces(b.line + d); var (ret, after) := Consumed(b, d, opts);
      ret.None? && after.line == ps[|ps| - 1] && Ahead(after, rest) == Ahead(b, d + rest)
  {
    AheadOf(b, d, rest);
    hide Unlines;
    hide Pieces;
    hide FirstHit;
    hide Forwarded;
    var ps, ls := Pieces(b.line + d), FullLines(b.lines);
    var front := ps[..|ps| - 1];
    UnlinesAppend(ls, front);
    FullLinesOf(ls + front);
    Assoc(ls, front, Pieces(ps[|ps| - 1] + rest));
  }

  lemma ReadLine(b: Buffers, d: string, rest: string, opts: ReadOpts)
    requires Sound(b) && Unmarked(FullLines(b.lines), opts)
    requires FirstHit(Pieces(b.line + d), 0, opts) < |Pieces(b.line + d)| - 1
    ensures var ps := Pieces(b.line + d); var m := FirstHit(ps, 0, opts); var (ret, after) := Consumed(b, d, opts);
      && ret.Some? && after.line == ps[|ps| - 1]
      && TakesLine(Ahead(b, d + rest), ret.value, FullLines(b.lines) + ps[..m], ps[m], Ahead(after, rest), opts)
  {
    hide Pieces;
    hide FirstHit;
    hide Forwarded;
    hide Unmarked;
    hide FullLines;
    hide NewlineFree;
    hide TakesLine;
    hide Unlines;
    hide Sound;
    hide IsLine;
    hide Hit;
    AheadOf(b, d, rest);
    var ps, ls := Pieces(b.line + d), FullLines(b.lines);
    FirstHitIs(ps, opts);
    var m := FirstHit(ps, 0, opts);
    LineTaken(ls, ps, m, Pieces(ps[|ps| - 1] + rest), opts);
  }

  lemma LineTaken(ls: seq<string>, ps: seq<string>, m: nat, later: seq<string>, opts: ReadOpts)
    requires NewlineFree(ls) && NewlineFree(ps) && m < |ps| - 1 && later != []
    requires Unmarked(ls, opts) && Unmarked(ps[..m], opts) && opts.matches(ps[m])
    ensures TakesLine(ls + (ps[..|ps| - 1] + later), Unlines(ls) + Unlines(ps[..m]), ls + ps[..m], ps[m],
                      FullLines(Unlines(ps[m + 1..|ps| - 1])) + later, opts)
  {
    hide Unlines;
    hide Pieces;
    UnmarkedAppend(ls, ps[..m], opts);
    UnlinesAppend(ls, ps[..m]);
    FullLinesOf(ps[m + 1..|ps| - 1]);
    CutAtMark(ls, ps, m, later);
  }

  lemma CutAtMark(ls: seq<string>, ps: seq<string>, m: nat, later: seq<string>)
    requires m < |ps| - 1
    ensures ls + (ps[..|ps| - 1] + later) == (ls + ps[..m]) + ([ps[m]] + (ps[m + 1..|ps| - 1] + later))
  {
    var front := ps[..|ps| - 1];
    assert front == ps[..m] + ([ps[m]] + ps[m + 1..|ps| - 1]);
    Assoc(ps[..m], [ps[m]] + ps[m + 1..|ps| - 1], later);
    Assoc([ps[m]], ps[m + 1..|ps| - 1], later);
    Assoc(ls, ps[..m], [ps[m]] + (ps[m + 1..|ps| - 1] + later));
  }

  lemma ReadTail(b: Buffers, d: string, rest: string, opts: ReadOpts)
    requires Sound(b) && Unmarked(FullLines(b.lines), opts)
    requires FirstHit(Pieces(b.line + d), 0, opts) == |Pieces(b.line + d)| - 1
    ensures var ps := Pieces(b.line + d); var front, tail := ps[..|ps| - 1], ps[|ps| - 1];
      var (ret, after) := Consumed(b, d, opts);
      && ret.Some? && after.line == ""
      && TakesTail(Ahead(b, d + rest), ret.value, FullLines(b.lines) + front, tail, rest, Ahead(after, rest), opts)
  {
    AheadOf(b, d, rest);
    FirstHitIs(Pieces(b.line + d), opts);
    NothingBuffered(rest);
    hide Unlines;
    hide Pieces;
    hide FirstHit;
    hide Forwarded;
    var ps, ls := Pieces(b.line + d), FullLines(b.lines);
    var front := ps[..|ps| - 1];
    UnmarkedAppend(ls, front, opts);
    UnlinesAppend(ls, front);
    Assoc(ls, front, Pieces(ps[|ps| - 1] + rest));
  }

  lemma UnmarkedAppend(a: seq<string>, b: seq<string>, opts: ReadOpts)
    ensures Unmarked(a, opts) && Unmarked(b, opts) ==> Unmarked(a + b, opts)
  {
  }

  // What a step is worth: chunks, and text that stays.

  /** The text of the pieces that are no markers. */
  function Weight(ps: seq<string>, opts: ReadOpts): nat {
    if ps == [] then 0
    else (if opts.matches(ps[0]) then 0 else |ps[0]| + if |ps| > 1 then 1 else 0) + Weight(ps[1..], opts)
  }

  lemma {:induction false} WeightSkip(ls: seq<string>, qs: seq<string>, opts: ReadOpts)
    requires Unmarked(ls, opts) && qs != []
    ensures Weight(ls + qs, opts) == |Unlines(ls)| + Weight(qs, opts)
    ensures CountMarks(ls + qs, opts) == CountMarks(qs, opts)
    decreases |ls|
  {
    if ls == [] {
      assert ls + qs == qs;
    } else {
      assert (ls + qs)[1..] == ls[1..] + qs && ls == [ls[0]] + ls[1..];
      WeightSkip(ls[1..], qs, opts);
      UnlinesCons(ls[0], ls[1..]);
    }
  }

  lemma LineStep(all: seq<string>, chunk: string, front: seq<string>, p: string, after: seq<string>, opts: ReadOpts)
    requires TakesLine(all, chunk, front, p, after, opts)
    ensures CountMarks(all, opts) == 1 + CountMarks(after, opts) && Weight(all, opts) == |chunk| + Weight(after, opts)
    ensures ChunksOf("", all, opts) == [chunk] + ChunksOf("", after, opts)
    ensures AfterLast(all, opts) == AfterLast(after, opts)
  {
    var later := [p] + after;
    assert later[1..] == after;
    WeightSkip(front, later, opts);
    MarkThen(front, p, after, opts);
    ChunksMark("", front, p, after, opts);
    assert "" + Unlines(front) == Unlines(front);
  }

  lemma PrependPiece(tail: string, rest: string)
    requires IsLine(tail)
    ensures var qs := Pieces(rest); Pieces(tail + rest) == [tail + qs[0]] + qs[1..] && (rest == "" <==> qs == [""])
  {
    PiecesNone(tail);
    match SplitOnce(rest) {
      case None =>
        PiecesNone(rest);
        PiecesNone(tail + rest);
      case Some((first, more)) =>
        AtNewline(rest, NewlineAt(rest));
        PiecesLine(tail + first, more);
        assert tail + rest == tail + first + "\n" + more;
    }
  }

  /** Taking the beginning of a line instead of the whole never saves a chunk, and if it costs none it
      leaves text behind, unless the beginning was the whole. */
  lemma TailStep(all: seq<string>, chunk: string, front: seq<string>, tail: string, rest: string, after: seq<string>,
                 opts: ReadOpts)
    requires TakesTail(all, chunk, front, tail, rest, after, opts) && !opts.matches("")
    ensures CountMarks(all, opts) <= 1 + CountMarks(after, opts)
    ensures rest != "" && CountMarks(all, opts) == 1 + CountMarks(after, opts) ==>
      Weight(all, opts) < |chunk| + Weight(after, opts)
    ensures rest == "" ==> after == [""] && CountMarks(after, opts) == Weight(after, opts) == 0
    ensures rest == "" ==> CountMarks(all, opts) == (if opts.matches(tail) then 1 else 0)
    ensures rest == "" && opts.matches(tail) ==> Weight(all, opts) == |chunk| && ChunksOf("", all, opts) == [chunk]
    ensures rest == "" && opts.matches(tail) ==> AfterLast(all, opts) == []
  {
    hide Pieces;
    var ps := Pieces(tail + rest);
    PrependPiece(tail, rest);
    WeightSkip(front, ps, opts);
    var qs := Pieces(rest);
    assert ps[1..] == qs[1..] && ps[0] == tail + qs[0];
    if rest == "" {
      assert qs[1..] == [] && tail + qs[0] == tail && ps == [tail] && [tail][1..] == [];
      assert [""][1..] == [];
      if opts.matches(tail) {
        assert all == front + ([tail] + []);
        ChunksMark("", front, tail, [], opts);
        MarkThen(front, tail, [], opts);
        assert "" + Unlines(front) == Unlines(front) && [chunk] + [] == [chunk];
      }
    }
  }

  function Total(chunks: seq<string>): nat {
    if chunks == [] then 0 else |chunks[0]| + Total(chunks[1..])
  }

  lemma TotalCons(c: string, chunks: seq<string>)
    ensures Total([c] + chunks) == |c| + Total(chunks)
  {
    assert ([c] + chunks)[1..] == chunks;
  }

  /** No fewer chunks than the text has, and, with as many, no less text; without `safe`, more of one of
      them. With it, exactly the chunks of the text, and what follows its last marker. */
  predicate Outcome(chunks: seq<string>, left: string, ps: seq<string>, opts: ReadOpts, safe: bool) {
    var count, total := |chunks|, Total(chunks) + |left|;
    && (count > CountMarks(ps, opts)
        || (count == CountMarks(ps, opts) && if safe then total >= Weight(ps, opts) else total > Weight(ps, opts)))
    && (safe ==> chunks == ChunksOf("", ps, opts) && left == Text(AfterLast(ps, opts)))
  }

  lemma OutcomeOfLine(all: seq<string>, chunk: string, front: seq<string>, p: string, after: seq<string>,
                      opts: ReadOpts, chunks: seq<string>, left: string, safe: bool)
    requires TakesLine(all, chunk, front, p, after, opts) && Outcome(chunks, left, after, opts, safe)
    ensures Outcome([chunk] + chunks, left, all, opts, safe)
  {
    LineStep(all, chunk, front, p, after, opts);
    TotalCons(chunk, chunks);
  }

  lemma OutcomeOfTail(all: seq<string>, chunk: string, front: seq<string>, tail: string, rest: string,
                      after: seq<string>, opts: ReadOpts, chunks: seq<string>, left: string, safe: bool)
    requires TakesTail(all, chunk, front, tail, rest, after, opts) && Outcome(chunks, left, after, opts, safe)
    requires !opts.matches("") && (rest == "" ==> safe)
    ensures Outcome([chunk] + chunks, left, all, opts, rest == "" && opts.matches(tail))
  {
    TailStep(all, chunk, front, tail, rest, after, opts);
    TotalCons(chunk, chunks);
    if rest == "" {
      assert [""][1..] == [] && ChunksOf("", [""], opts) == [];
      JoinOne("");
    }
  }

  lemma {:induction false} OnlyEmptyCuts(x: string, parts: seq<string>, opts: ReadOpts)
    requires Flatten(parts) == "" && IsLine(x) && (opts.matches(x) || !opts.matches(opts.strip(x)))
    ensures SafeCuts(x, parts, opts)
    decreases |parts|
  {
    if parts != [] {
      assert parts[0] == "" && x + "" == x;
      PiecesNone(x);
      OnlyEmptyCuts(x, parts[1..], opts);
    }
  }

  lemma NoDelivery(b: Buffers, opts: ReadOpts)
    requires Sound(b) && Unmarked(FullLines(b.lines), opts) && !opts.matches(b.line)
    ensures Outcome([], b.lines + b.line, Ahead(b, ""), opts, true)
  {
    var ls := FullLines(b.lines);
    BufferIsText(b, "");
    assert b.line + "" == b.line && [b.line][1..] == [];
    PiecesNone(b.line);
    WeightSkip(ls, [b.line], opts);
    ChunksSkip("", ls, [b.line], opts);
    TextOfBuffer(b);
  }

  /** After a delivery has been read. */
  lemma OutcomeOfRead(b: Buffers, d: string, parts: seq<string>, opts: ReadOpts, chunks: seq<string>, left: string)
    requires Sound(b) && Unmarked(FullLines(b.lines), opts) && !opts.matches(b.line)
    requires !opts.matches("") && opts.strip("") == ""
    requires var after := Consumed(b, d, opts).1; var rest := Flatten(parts);
      Outcome(chunks, left, Ahead(after, rest), opts, SafeCuts(after.line, parts, opts))
    ensures var ret := Consumed(b, d, opts).0;
      Outcome((if ret.Some? then [ret.value] else []) + chunks, left, Ahead(b, d + Flatten(parts)), opts,
              SafeCuts(b.line, [d] + parts, opts))
  {
    hide Outcome;
    hide Pieces;
    hide Ahead;
    hide Consumed;
    var ps, rest := Pieces(b.line + d), Flatten(parts);
    var front, tail := ps[..|ps| - 1], ps[|ps| - 1];
    var m := FirstHit(ps, 0, opts);
    var (ret, after) := Consumed(b, d, opts);
    var all, later := Ahead(b, d + rest), Ahead(after, rest);
    hide FirstHit;
    assert ([d] + parts)[1..] == parts;
    FirstHitIs(ps, opts);
    PiecesFree(b.line + d);
    if m == |ps| {
      ReadNothing(b, d, rest, opts);
      assert [] + chunks == chunks;
    } else if m < |ps| - 1 {
      ReadLine(b, d, rest, opts);
      OutcomeOfLine(all, ret.value, FullLines(b.lines) + ps[..m], ps[m], later, opts, chunks, left,
                    SafeCuts(tail, parts, opts));
    } else {
      ReadTail(b, d, rest, opts);
      if rest == "" {
        OnlyEmptyCuts("", parts, opts);
        if opts.matches(tail) {
          OnlyEmptyCuts(tail, parts, opts);
        }
      }
      OutcomeOfTail(all, ret.value, FullLines(b.lines) + front, tail, rest, later, opts, chunks, left,
                    SafeCuts(after.line, parts, opts));
    }
  }

  /** After a chunk has been taken from the buffer. */
  lemma OutcomeOfTake(b: Buffers, parts: seq<string>, opts: ReadOpts, chunks: seq<string>, left: string)
    requires Sound(b) && SaneMarker(opts) && opts.strip("") == "" && Taken(b, opts).0.Some?
    requires var after := Taken(b, opts).1;
      Outcome(chunks, left, Ahead(after, Flatten(parts)), opts, SafeCuts(after.line, parts, opts))
    ensures Outcome([Taken(b, opts).0.value] + chunks, left, Ahead(b, Flatten(parts)), opts,
                    SafeCuts(b.line, parts, opts))
  {
    hide Outcome;
    hide Ahead;
    hide Taken;
    var rest := Flatten(parts);
    var (ret, after) := Taken(b, opts);
    var ls := FullLines(b.lines);
    var m := FirstLine(ls, opts);
    TakeStep(b, rest, opts);
    if m < |ls| {
      OutcomeOfLine(Ahead(b, rest), ret.value, ls[..m], ls[m], Ahead(after, rest), opts, chunks, left,
                    SafeCuts(b.line, parts, opts));
    } else {
      if rest == "" {
        OnlyEmptyCuts("", parts, opts);
        OnlyEmptyCuts(b.line, parts, opts);
      }
      OutcomeOfTail(Ahead(b, rest), ret.value, ls, b.line, rest, Ahead(after, rest), opts, chunks, left,
                    SafeCuts(after.line, parts, opts));
    }
  }

  lemma {:induction false} ReadOutcome(b: Buffers, parts: seq<string>, opts: ReadOpts)
    requires Sound(b) && SaneMarker(opts) && opts.strip("") == ""
    ensures var (chunks, end) := ReadOut(b, parts, opts);
      Outcome(chunks, end.lines + end.line, Ahead(b, Flatten(parts)), opts, SafeCuts(b.line, parts, opts))
    decreases |parts|, |b.lines| + |b.line|
  {
    hide Outcome;
    hide Ahead;
    hide Taken;
    hide Consumed;
    TakenPieces(b, opts);
    TakeStep(b, Flatten(parts), opts);
    var (ret, after) := Taken(b, opts);
    if ret.Some? {
      ReadOutcome(after, parts, opts);
      var (chunks, end) := ReadOut(after, parts, opts);
      OutcomeOfTake(b, parts, opts, chunks, end.lines + end.line);
    } else if parts == [] {
      NoDelivery(b, opts);
    } else {
      ConsumedIsSound(b, parts[0], opts);
      var next := Consumed(b, parts[0], opts).1;
      ReadOutcome(next, parts[1..], opts);
      var (chunks, end) := ReadOut(next, parts[1..], opts);
      assert [parts[0]] + parts[1..] == parts;
      OutcomeOfRead(b, parts[0], parts[1..], opts, chunks, end.lines + end.line);
    }
  }

  lemma WholeText(ps: seq<string>, opts: ReadOpts)
    requires ps != []
    ensures |ChunksOf("", ps, opts)| == CountMarks(ps, opts)
    ensures Total(ChunksOf("", ps, opts)) + |Text(AfterLast(ps, opts))| == Weight(ps, opts)
  {
    WholeTextFrom("", ps, opts);
  }

  lemma {:induction false} WholeTextFrom(before: string, ps: seq<string>, opts: ReadOpts)
    requires ps != []
    ensures |ChunksOf(before, ps, opts)| == CountMarks(ps, opts)
    ensures CountMarks(ps, opts) == 0 ==> |Text(ps)| == Weight(ps, opts)
    ensures CountMarks(ps, opts) > 0 ==>
      Total(ChunksOf(before, ps, opts)) + |Text(AfterLast(ps, opts))| == |before| + Weight(ps, opts)
    decreases |ps|
  {
    var p, rest := ps[0], ps[1..];
    assert ps == [p] + rest;
    if rest == [] {
      JoinOne(p);
      TotalCons(before, []);
      assert [before] + [] == [before];
    } else {
      JoinCons(p, rest);
      WholeTextFrom("", rest, opts);
      WholeTextFrom(before + p + "\n", rest, opts);
      TotalCons(before, ChunksOf("", rest, opts));
      if CountMarks(rest, opts) == 0 {
        assert ChunksOf("", rest, opts) == [] && ChunksOf(before + p + "\n", rest, opts) == [];
      }
    }
  }

  /** The chunks read and the text left over are those of the whole text exactly when the cuts are safe. */
  lemma CutsAgreeIff(parts: seq<string>, opts: ReadOpts)
    requires SaneMarker(opts) && opts.strip("") == ""
    ensures var (chunks, end) := ReadOut(Buffers("", "", ""), parts, opts); var ps := Pieces(Flatten(parts));
      chunks == ChunksOf("", ps, opts) && end.lines + end.line == Text(AfterLast(ps, opts)) <==>
        SafeCuts("", parts, opts)
  {
    var b := Buffers("", "", "");
    ReadOutcome(b, parts, opts);
    NothingBuffered(Flatten(parts));
    WholeText(Pieces(Flatten(parts)), opts);
  }

  /** Cuts between lines are safe, when the unterminated text at the very end reads the same stripped. */
  lemma {:induction false} LineCutsAreSafe(parts: seq<string>, opts: ReadOpts)
    requires !opts.matches("") && opts.strip("") == ""
    requires forall i | 0 <= i < |parts| - 1 :: parts[i] == "" || parts[i][|parts[i]| - 1] == '\n'
    requires parts != [] ==> var ps := Pieces(parts[|parts| - 1]); opts.strip(ps[|ps| - 1]) == ps[|ps| - 1]
    ensures SafeCuts("", parts, opts)
    decreases |parts|
  {
    if parts != [] {
      var ps := Pieces(parts[0]);
      assert "" + parts[0] == parts[0];
      if |parts| == 1 {
        assert parts[1..] == [];
        assert SafeCuts(ps[|ps| - 1], [], opts);
      } else {
        TerminatedLines(parts[0]);
        LineCutsAreSafe(parts[1..], opts);
      }
    }
  }

  /** `read_until`, repeated until the deliveries are used up. */
  method ReadAll(deliveries: seq<string>, opts: ReadOpts) returns (chunks: seq<string>, left: string)
    requires SaneMarker(opts) && opts.strip("") == ""
    ensures var ps := Pieces(Flatten(deliveries));
      chunks == ChunksOf("", ps, opts) && left == Text(AfterLast(ps, opts)) <==> SafeCuts("", deliveries, opts)
    // With safe cuts, each chunk is the lines up to the next marker, and the rest is left.
    ensures forall groups, marks, tail |
      SafeCuts("", deliveries, opts) && AreGroups(groups, marks, opts) && Unmarked(tail, opts)
      && Pieces(Flatten(deliveries)) == Grouped(groups, marks) + tail ::
      chunks == Texts(groups) && left == Text(tail)
  {
    var reader := new IncrementalReader();
    var parts := deliveries;
    chunks := [];
    ghost var (all, end) := ReadOut(reader.State(), parts, opts);
    assert [] + all == all;
    while true
      invariant reader.Valid() && fresh(reader) && reader.pending == ""
      invariant chunks + ReadOut(reader.State(), parts, opts).0 == all && ReadOut(reader.State(), parts, opts).1 == end
      decreases |parts|, |reader.lines| + |reader.line|
    {
      TakenPieces(reader.State(), opts);
      ghost var before, state := chunks, reader.State();
      var chunk := reader.TakeChunkFromBuffer(opts);
      if chunk.Some? {
        chunks := chunks + [chunk.value];
        Assoc(before, [chunk.value], ReadOut(reader.State(), parts, opts).0);
      } else if parts == [] {
        break;
      } else {
        var ret := reader.ConsumeStr(parts[0], opts);
        ghost var found := if ret.Some? then [ret.value] else [];
        Assoc(before, found, ReadOut(reader.State(), parts[1..], opts).0);
        parts := parts[1..];
        chunks := if ret.Some? then chunks + [ret.value] else chunks;
        assert chunks == before + found;
      }
    }
    assert chunks + [] == chunks;
    left := reader.lines + reader.line;
    CutsAgreeIff(deliveries, opts);
    forall groups, marks, tail | AreGroups(groups, marks, opts) && Unmarked(tail, opts)
      ensures var all := Grouped(groups, marks) + tail;
        ChunksOf("", all, opts) == Texts(groups) && AfterLast(all, opts) == tail
    {
      ChunksAreGroups(groups, marks, tail, opts);
    }
  }

  // Cuts within a line.

  /** One whole line read into an empty buffer. */
  lemma OneLine(p: string, opts: ReadOpts)
    requires IsLine(p) && opts.writing == Hide && !opts.matches(opts.strip(""))
    ensures Consumed(Buffers("", "", ""), p + "\n", opts)
         == if opts.matches(p) then (Some(""), Buffers("", "", "")) else (None, Buffers(p + "\n", "", ""))
  {
    var b := Buffers("", "", "");
    Scanned(b, p + "\n", opts);
    NewlineAfter(p, "");
    var data := p + "\n";
    assert data + "" == data && data[..|p|] == p && data[|p| + 1..] == "";
    assert "" + p == p && "" + "" == "";
    assert "" + p + "\n" == p + "\n";
  }

  predicate StartsWithP(s: string) {
    s != "" && s[0] == 'P'
  }

  /** A marker recognised in an unterminated line drops only what has arrived of the line: cutting
      "Px\n" after its first character leaves the line "x" behind. */
  lemma CutMarkerLine(strip: string -> string)
    requires strip("P") == "P" && strip("") == ""
    ensures var opts := ReadOpts(StartsWithP, strip, Hide);
      && Consumed(Buffers("", "", ""), "Px" + "\n", opts) == (Some(""), Buffers("", "", ""))
      && Consumed(Buffers("", "", ""), "P", opts) == (Some(""), Buffers("", "", ""))
      && Consumed(Buffers("", "", ""), "x" + "\n", opts) == (None, Buffers("x" + "\n", "", ""))
      && !SafeCuts("", ["P", "x" + "\n"], opts)
  {
    var opts := ReadOpts(StartsWithP, strip, Hide);
    assert ["P", "x" + "\n"][1..] == ["x" + "\n"] && Flatten(["x" + "\n"]) == ("x" + "\n") + Flatten([]);
    PiecesNone("P");
    OneLine("Px", opts);
    OneLine("x", opts);
    Scanned(Buffers("", "", ""), "P", opts);
    assert "" + "P" == "P" && IsLine("P");
    assert SplitOnce("P").None?;
  }

  /** Markers that stand on one line are dropped together if they arrive together, and one by one if
      they do not. */
  lemma PiledMarkers(strip: string -> string)
    requires strip("P") == "P" && strip("PP") == "PP" && strip("") == ""
    ensures var opts := ReadOpts(StartsWithP, strip, Hide);
      && Consumed(Buffers("", "", ""), "PP", opts) == (Some(""), Buffers("", "", ""))
      && Consumed(Buffers("", "", ""), "P", opts) == (Some(""), Buffers("", "", ""))
      && SafeCuts("", ["PP"], opts) && !SafeCuts("", ["P", "P"], opts)
  {
    var opts := ReadOpts(StartsWithP, strip, Hide);
    Scanned(Buffers("", "", ""), "P", opts);
    Scanned(Buffers("", "", ""), "PP", opts);
    assert "" + "P" == "P" && IsLine("P") && SplitOnce("P").None?;
    assert "" + "PP" == "PP" && IsLine("PP") && SplitOnce("PP").None?;
    PiecesNone("P");
    PiecesNone("PP");
    assert ["P", "P"][1..] == ["P"] && Flatten(["P"]) == "P" + Flatten([]);
    assert ["PP"][1..] == [] && SafeCuts("PP", [], opts);
  }
}
