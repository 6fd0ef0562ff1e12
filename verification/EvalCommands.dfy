/** The commands in a source file that are to be evaluated, and where they are
    (src/ghci/parse/eval.rs). Positions are character indices; the program's are byte offsets, which
    the join of commands and lines compares. */
module EvalCommands {
  import opened Basics
  import opened Lines
  import opened Diagnostics

  /** A command, with the character range it comes from. */
  datatype Found = Found(start: nat, end: nat, command: string)

  datatype EvalCommand = EvalCommand(command: string, line: nat, column: nat, byteStart: nat, byteEnd: nat)

  // The parsers, on the text from the start of a line.

  datatype Item = Item(found: Option<Found>, length: nat)

  predicate Within(f: Found, n: nat) {
    f.start <= f.end <= n && f.start < n
  }

  const LINE_MARKER := "-- $>"
  const BLOCK_MARKER := "{- $>"
  const BLOCK_END := "<$ -}"

  /** Blanks, a marker, blanks: where the text after them begins. */
  function AfterMarker(s: string, i: nat, marker: string): (r: Option<nat>)
    requires i <= |s|
    ensures r.Some? ==> i + |marker| <= r.value <= |s|
  {
    var b := SpanFrom(s, i, IsBlank);
    if OccursAt(s, marker, b) then Some(SpanFrom(s, b + |marker|, IsBlank)) else None
  }

  /** The end of the line from `i` on, its ending included. */
  function RestAt(s: string, i: nat): (r: Option<nat>)
    requires i <= |s|
    ensures r.Some? ==> i < r.value <= |s|
  {
    match RestOfLine(s[i..]) case None => None case Some(n) => Some(i + n)
  }

  function LineEnding(s: string, i: nat): (n: nat)
    requires i <= |s|
    ensures i + n <= |s|
  {
    if i < |s| && s[i] == '\n' then 1
    else if i + 1 < |s| && s[i] == '\r' && s[i + 1] == '\n' then 2
    else 0
  }

  function LineEval(s: string): (r: Option<Item>)
    ensures r.Some? ==> r.value.length <= |s| && r.value.found.Some? && Within(r.value.found.value, r.value.length)
  {
    match AfterMarker(s, 0, LINE_MARKER)
    case None => None
    case Some(start) =>
      match RestAt(s, start)
      case None => None
      case Some(end) => Some(Item(Some(Found(start, end, s[start..SpanFrom(s, start, NotEnding)])), end))
  }

  /** The body of a block: lines up to one that begins with the end marker. */
  function BlockBody(s: string, i: nat): (r: Option<nat>)
    requires i <= |s|
    ensures r.Some? ==> i <= r.value < |s| && AfterEnd(s, r.value).Some?
    decreases |s| - i
  {
    if AfterEnd(s, i).Some? then Some(i)
    else match RestAt(s, i) case None => None case Some(next) => BlockBody(s, next)
  }

  function AfterEnd(s: string, i: nat): (r: Option<nat>)
    requires i <= |s|
    ensures r.Some? ==> i < r.value <= |s|
  {
    AfterMarker(s, i, BLOCK_END)
  }

  function BlockEval(s: string): (r: Option<Item>)
    ensures r.Some? ==> r.value.length <= |s| && r.value.found.Some? && Within(r.value.found.value, r.value.length)
  {
    match AfterMarker(s, 0, BLOCK_MARKER)
    case None => None
    case Some(body) =>
      var start := body + LineEnding(s, body);
      match BlockBody(s, start)
      case None => None
      case Some(end) =>
        var closed := AfterEnd(s, end).value;
        var n := LineEnding(s, closed);
        if n == 0 && closed < |s| then None
        else Some(Item(Some(Found(start, end, ":{\n" + s[start..end] + ":}")), closed + n))
  }

  function NextItem(s: string): (r: Option<Item>)
    ensures r.Some? ==> 0 < r.value.length <= |s|
    ensures r.Some? && r.value.found.Some? ==> Within(r.value.found.value, r.value.length)
  {
    if LineEval(s).Some? then LineEval(s)
    else if BlockEval(s).Some? then BlockEval(s)
    else match RestAt(s, 0) case None => None case Some(n) => Some(Item(None, n))
  }

  function Moved(f: Found, n: nat): Found {
    f.(start := f.start + n, end := f.end + n)
  }

  /** The item that begins at `i`, with positions in the whole text; its length is where it ends. */
  function ItemAt(s: string, i: nat): (r: Option<Item>)
    requires i <= |s|
    ensures r.Some? ==> i < r.value.length <= |s|
    ensures r.Some? && r.value.found.Some? ==>
      i <= r.value.found.value.start && Within(r.value.found.value, r.value.length)
  {
    match NextItem(s[i..])
    case None => None
    case Some(Item(None, n)) => Some(Item(None, i + n))
    case Some(Item(Some(f), n)) => Some(Item(Some(Moved(f, i)), i + n))
  }

  /** All commands from `i` on; the whole text must be recognised. */
  function Commands(s: string, i: nat): Option<seq<Found>>
    requires i <= |s|
    decreases |s| - i
  {
    if i == |s| then Some([])
    else match ItemAt(s, i)
      case None => None
      case Some(item) =>
        match Commands(s, item.length)
        case None => None
        case Some(more) => Some(if item.found.Some? then [item.found.value] + more else more)
  }

  predicate AreBlanks(b: string) {
    forall i | 0 <= i < |b| :: IsBlank(b[i])
  }

  /** Where the parts of an evaluation line lie. */
  lemma MarkedAt(before: string, marker: string, after: string, more: string)
    requires AreBlanks(before) && AreBlanks(after) && marker != "" && !IsBlank(marker[0])
    requires more != "" ==> !IsBlank(more[0])
    ensures var s := before + (marker + (after + more)); var start := |before + marker + after|;
      AfterMarker(s, 0, marker) == Some(start) && s[start..] == more && s == (before + marker + after) + more
  {
    var tail := after + more;
    var s := before + (marker + tail);
    SpanExact(before, marker + tail, 0, IsBlank);
    SpanExact(after, more, 0, IsBlank);
    SpanShift(before + marker, tail, 0, IsBlank);
    Assoc(before, marker, tail);
    Assoc(before + marker, after, more);
    CutRight(before + marker + after, more, 0);
    hide SpanFrom;
    Between(before, marker, tail);
  }

  lemma Between(before: string, marker: string, tail: string)
    ensures OccursAt(before + (marker + tail), marker, |before|)
  {
    assert (before + (marker + tail))[|before|..|before| + |marker|] == marker;
  }

  /** How a line can end; only the last line of a text ends in nothing. */
  predicate IsEnding(ending: string, rest: string) {
    ending == "\n" || ending == "\r\n" || (ending == "" && rest == "")
  }

  lemma RestOfEnded(p: string, ending: string, rest: string)
    requires IsPlain(p) && IsEnding(ending, rest) && p + ending != ""
    ensures RestOfLine(p + (ending + rest)) == Some(|p| + |ending|)
    ensures SpanFrom(p + (ending + rest), 0, NotEnding) == |p|
  {
    SpanExact(p, ending + rest, 0, NotEnding);
    if ending != "" {
      assert (p + (ending + rest))[|p|..] == ending + rest;
      assert (p + (ending + rest))[|p|] == ending[0];
      assert |ending| > 1 ==> (p + (ending + rest))[|p| + 1] == ending[1];
    }
  }

  /** A line with the marker is found as a command, with its text and place; indentation is allowed. */
  lemma EvalLineIsFound(before: string, after: string, command: string, ending: string, rest: string)
    requires AreBlanks(before) && AreBlanks(after) && IsEnding(ending, rest)
    requires IsPlain(command) && command + ending != "" && (command != "" ==> !IsBlank(command[0]))
    ensures var start := |before + LINE_MARKER + after|; var end := start + |command| + |ending|;
      NextItem(before + (LINE_MARKER + (after + (command + (ending + rest)))))
        == Some(Item(Some(Found(start, end, command)), end))
  {
    hide *;
    var more := command + (ending + rest);
    StartsPlain(command, ending, rest);
    MarkedAt(before, LINE_MARKER, after, more);
    EvalLineAt(before + (LINE_MARKER + (after + more)), |before + LINE_MARKER + after|, command, ending, rest);
  }

  lemma EvalLineAt(s: string, start: nat, command: string, ending: string, rest: string)
    requires AfterMarker(s, 0, LINE_MARKER) == Some(start) && s[start..] == command + (ending + rest)
    requires IsPlain(command) && command + ending != "" && IsEnding(ending, rest)
    ensures var end := start + |command| + |ending|; NextItem(s) == Some(Item(Some(Found(start, end, command)), end))
  {
    hide *;
    RestOfEnded(command, ending, rest);
    TextThere(s, start, command, ending + rest);
    LineItem(s, start, |command| + |ending|, |command|);
  }

  lemma StartsPlain(command: string, ending: string, rest: string)
    requires IsEnding(ending, rest) && (command != "" ==> !IsBlank(command[0])) && IsPlain(command)
    ensures var more := command + (ending + rest); more != "" ==> !IsBlank(more[0])
    ensures AreBlanks("") && LINE_MARKER != "" && !IsBlank(LINE_MARKER[0])
  {
  }

  lemma TextThere(s: string, start: nat, text: string, rest: string)
    requires start <= |s| && s[start..] == text + rest
    ensures start + |text| <= |s| && s[start..start + |text|] == text
    ensures SpanFrom(s, start, NotEnding) == start + SpanFrom(text + rest, 0, NotEnding)
  {
    TakeDrop(s, start);
    SpanShift(s[..start], s[start..], 0, NotEnding);
    assert s[start..][..|text|] == text;
  }

  /** An evaluation line whose text begins at `start`, with its ending `n` characters long. */
  lemma LineItem(s: string, start: nat, n: nat, m: nat)
    requires AfterMarker(s, 0, LINE_MARKER) == Some(start) && RestOfLine(s[start..]) == Some(n)
    requires SpanFrom(s, start, NotEnding) == start + m
    ensures start + n <= |s| && NextItem(s) == Some(Item(Some(Found(start, start + n, s[start..start + m])), start + n))
  {
    hide AfterMarker;
    hide RestOfLine;
    hide SpanFrom;
    hide BlockEval;
  }

  /** Looking for a marker from `i` on is looking in the text that begins there. */
  lemma AfterMarkerThere(s: string, i: nat, marker: string)
    requires i <= |s|
    ensures AfterMarker(s, i, marker)
         == match AfterMarker(s[i..], 0, marker) case None => None case Some(n) => Some(i + n)
  {
    SpanThere(s, i, 0);
    hide SpanFrom;
    var b := SpanFrom(s[i..], 0, IsBlank);
    OccursThere(s, marker, i, b);
    if OccursAt(s[i..], marker, b) {
      SpanThere(s, i, b + |marker|);
    }
    hide OccursAt;
  }

  lemma Tails(s: string, i: nat, j: nat)
    requires i + j <= |s|
    ensures s[i..][j..] == s[i + j..]
  {
  }

  lemma SpanThere(s: string, i: nat, j: nat)
    requires i + j <= |s|
    ensures SpanFrom(s, i + j, IsBlank) == i + SpanFrom(s[i..], j, IsBlank)
  {
    TakeDrop(s, i);
    SpanShift(s[..i], s[i..], j, IsBlank);
  }

  /** A line of a block's body: plain, and not its end. */
  predicate IsBodyLine(p: string) {
    IsPlain(p) && AfterMarker(p, 0, BLOCK_END).None?
  }

  /** A marker that does not begin a line is not found across its end either. */
  lemma NotMarked(p: string, more: string, marker: string)
    requires AfterMarker(p, 0, marker).None? && marker in {LINE_MARKER, BLOCK_MARKER, BLOCK_END}
    requires more != "" ==> more[0] == '\n' || more[0] == '\r'
    ensures AfterMarker(p + more, 0, marker).None?
  {
    SpanWithin(p, more, 0, IsBlank);
    NotAcross(p, more, SpanFrom(p, 0, IsBlank), marker);
  }

  /** The markers hold no line endings, so they do not reach over the end of a line. */
  lemma NotAcross(p: string, more: string, b: nat, marker: string)
    requires b <= |p| && (more != "" ==> more[0] == '\n' || more[0] == '\r')
    requires marker in {LINE_MARKER, BLOCK_MARKER, BLOCK_END}
    ensures OccursAt(p + more, marker, b) ==> OccursAt(p, marker, b)
  {
    var s := p + more;
    if OccursAt(s, marker, b) {
      assert forall i | 0 <= i < |marker| :: marker[i] != '\n' && marker[i] != '\r';
      assert forall i | b <= i < b + |marker| :: s[i] == s[b..b + |marker|][i - b];
      assert more != "" ==> s[|p|] == more[0];
      assert s[b..b + |marker|] == p[b..b + |marker|];
    }
  }

  /** The line at `i`, and the text after it. */
  lemma LineThere(s: string, i: nat, p: string, later: string)
    requires i <= |s| && s[i..] == p + "\n" + later && IsBodyLine(p)
    ensures RestAt(s, i) == Some(i + |p| + 1) && s[i + |p| + 1..] == later && AfterEnd(s, i).None?
  {
    AfterMarkerThere(s, i, BLOCK_END);
    Assoc(p, "\n", later);
    NotMarked(p, "\n" + later, BLOCK_END);
    RestOfPlain(p, later);
    Tails(s, i, |p| + 1);
    CutRight(p + "\n", later, 0);
    hide AfterMarker;
    hide RestOfLine;
  }

  lemma {:induction false} BodyIsFound(s: string, i: nat, body: seq<string>, close: string)
    requires i <= |s| && s[i..] == Unlines(body) + close && AfterMarker(close, 0, BLOCK_END).Some?
    requires forall k | 0 <= k < |body| :: IsBodyLine(body[k])
    ensures BlockBody(s, i) == Some(i + |Unlines(body)|)
    decreases |body|
  {
    hide AfterMarker;
    hide RestAt;
    if body == [] {
      AfterMarkerThere(s, i, BLOCK_END);
      assert s[i..] == close;
    } else {
      hide Unlines;
      hide IsBodyLine;
      var p, others := body[0], body[1..];
      assert body == [p] + others;
      UnlinesCons(p, others);
      Assoc(p + "\n", Unlines(others), close);
      LineThere(s, i, p, Unlines(others) + close);
      BodyIsFound(s, i + |p| + 1, others, close);
    }
  }

  function Closing(indent: string, trail: string, ending: string, rest: string): string {
    indent + (BLOCK_END + (trail + (ending + rest)))
  }

  lemma ClosingIsMarked(indent: string, trail: string, ending: string, rest: string)
    requires AreBlanks(indent) && AreBlanks(trail) && IsEnding(ending, rest)
    ensures var close, n := Closing(indent, trail, ending, rest), |indent + BLOCK_END + trail|;
      AfterMarker(close, 0, BLOCK_END) == Some(n) && close[n..] == ending + rest
  {
    hide AfterMarker;
    MarkedAt(indent, BLOCK_END, trail, ending + rest);
  }

  lemma ClosesAt(s: string, end: nat, indent: string, trail: string, ending: string, rest: string)
    requires end <= |s| && s[end..] == Closing(indent, trail, ending, rest)
    requires AreBlanks(indent) && AreBlanks(trail) && IsEnding(ending, rest)
    ensures AfterMarker(Closing(indent, trail, ending, rest), 0, BLOCK_END).Some?
    ensures var closed := end + |indent + BLOCK_END + trail|;
      AfterEnd(s, end) == Some(closed) && closed + |ending| <= |s| && LineEnding(s, closed) == |ending|
      && (ending == "" ==> closed == |s|)
  {
    hide AfterMarker;
    hide Closing;
    ClosingIsMarked(indent, trail, ending, rest);
    AfterMarkerThere(s, end, BLOCK_END);
    var n := |indent + BLOCK_END + trail|;
    Tails(s, end, n);
    var tail := s[end + n..];
    assert tail == ending + rest;
    assert ending != "" ==> tail[0] == ending[0] == s[end + n];
    assert |ending| > 1 ==> tail[1] == ending[1] == s[end + n + 1];
  }

  /** The parts of a block, from the text after its opening marker on. */
  lemma BlockParts(s: string, start: nat, body: seq<string>, indent: string, trail: string, ending: string,
                   rest: string)
    requires start <= |s| && s[start..] == Unlines(body) + Closing(indent, trail, ending, rest)
    requires AreBlanks(indent) && AreBlanks(trail) && IsEnding(ending, rest)
    requires forall k | 0 <= k < |body| :: IsBodyLine(body[k])
    ensures var end := start + |Unlines(body)|; var closed := end + |indent + BLOCK_END + trail|;
      && BlockBody(s, start) == Some(end) && end <= |s| && s[start..end] == Unlines(body)
      && AfterEnd(s, end) == Some(closed) && closed + |ending| <= |s| && LineEnding(s, closed) == |ending|
      && (ending == "" ==> closed == |s|)
  {
    hide AfterMarker;
    hide AfterEnd;
    hide BlockBody;
    hide Unlines;
    hide IsBodyLine;
    hide Closing;
    hide LineEnding;
    var text, close := Unlines(body), Closing(indent, trail, ending, rest);
    CutRight(text, close, 0);
    Tails(s, start, |text|);
    assert s[start..start + |text|] == s[start..][..|text|];
    ClosesAt(s, start + |text|, indent, trail, ending, rest);
    BodyIsFound(s, start, body, close);
  }

  lemma OpensAt(before: string, after: string, more: string)
    requires AreBlanks(before) && AreBlanks(after)
    ensures var s := before + (BLOCK_MARKER + (after + ("\n" + more))); var start := |before + BLOCK_MARKER + after|;
      && LineEval(s).None?
      && AfterMarker(s, 0, BLOCK_MARKER) == Some(start) && LineEnding(s, start) == 1 && s[start + 1..] == more
  {
    var line := "\n" + more;
    MarkedAt(before, BLOCK_MARKER, after, line);
    NoLineMarker(before, BLOCK_MARKER + (after + line));
    var s := before + (BLOCK_MARKER + (after + line));
    var start := |before + BLOCK_MARKER + after|;
    hide AfterMarker;
    hide LineEval;
    Tails(s, start, 1);
    CutRight("\n", more, 0);
    assert s[start] == s[start..][0];
  }

  /** A block is found as one command, from its first line to the one before the end marker. */
  lemma BlockIsFound(before: string, after: string, body: seq<string>, indent: string, trail: string, ending: string,
                     rest: string)
    requires AreBlanks(before) && AreBlanks(after) && AreBlanks(indent) && AreBlanks(trail) && IsEnding(ending, rest)
    requires forall k | 0 <= k < |body| :: IsBodyLine(body[k])
    ensures var start := |before + BLOCK_MARKER + after| + 1; var end := start + |Unlines(body)|;
      NextItem(before + (BLOCK_MARKER + (after + ("\n" + (Unlines(body) + Closing(indent, trail, ending, rest))))))
        == Some(Item(Some(Found(start, end, ":{\n" + Unlines(body) + ":}")),
                     end + |indent + BLOCK_END + trail| + |ending|))
  {
    hide Unlines;
    hide AfterMarker;
    hide AfterEnd;
    hide BlockBody;
    hide LineEval;
    hide IsBodyLine;
    hide Closing;
    hide LineEnding;
    var more := Unlines(body) + Closing(indent, trail, ending, rest);
    OpensAt(before, after, more);
    BlockParts(before + (BLOCK_MARKER + (after + ("\n" + more))), |before + BLOCK_MARKER + after| + 1, body, indent,
               trail, ending, rest);
  }

  lemma NoLineMarker(before: string, more: string)
    requires AreBlanks(before) && more != "" && more[0] == '{'
    ensures LineEval(before + more).None?
  {
    SpanExact(before, more, 0, IsBlank);
    assert (before + more)[|before|..] == more;
  }

  // Whole files.

  /** What a file is made of: lines that begin with no marker, evaluation lines and blocks. */
  datatype Part =
    | Ordinary(line: string, ending: string)
    | Marked(before: string, after: string, command: string, ending: string)
    | Block(before: string, after: string, body: seq<string>, indent: string, trail: string, ending: string)

  function Text(p: Part): string {
    match p
    case Ordinary(line, ending) => line + ending
    case Marked(before, after, command, ending) => before + LINE_MARKER + after + command + ending
    case Block(before, after, body, indent, trail, ending) =>
      before + BLOCK_MARKER + after + "\n" + Unlines(body) + indent + BLOCK_END + trail + ending
  }

  /** The command of a part that begins at `at`: the line's text, or the block's as one GHCi block. */
  function Said(p: Part, at: nat): seq<Found> {
    match p
    case Ordinary(_, _) => []
    case Marked(before, after, command, ending) =>
      var start := at + |before| + |LINE_MARKER| + |after|;
      [Found(start, start + |command| + |ending|, command)]
    case Block(before, after, body, _, _, _) =>
      var start := at + |before| + |BLOCK_MARKER| + |after| + 1;
      [Found(start, start + |Unlines(body)|, ":{\n" + Unlines(body) + ":}")]
  }

  /** A marker with nothing but blanks before it. */
  predicate BeginsWith(line: string, marker: string) {
    exists k | 0 <= k <= |line| :: AreBlanks(line[..k]) && OccursAt(line, marker, k)
  }

  predicate IsOrdinary(line: string) {
    IsPlain(line) && !BeginsWith(line, LINE_MARKER) && !BeginsWith(line, BLOCK_MARKER)
  }

  lemma BeginsIff(line: string, marker: string)
    requires marker != "" && !IsBlank(marker[0])
    ensures AfterMarker(line, 0, marker).Some? <==> BeginsWith(line, marker)
  {
    var b := SpanFrom(line, 0, IsBlank);
    BlanksSpan(line, 0);
    if OccursAt(line, marker, b) {
      assert AreBlanks(line[..b]);
    }
    if k :| 0 <= k <= |line| && AreBlanks(line[..k]) && OccursAt(line, marker, k) {
      assert line[k] == line[k..k + |marker|][0] == marker[0];
      assert forall i | 0 <= i < k :: IsBlank(line[..k][i]) && line[..k][i] == line[i];
      SpanStops(line, 0, IsBlank, k);
    }
  }

  lemma BlanksSpan(s: string, i: nat)
    requires i <= |s|
    ensures forall j | i <= j < SpanFrom(s, i, IsBlank) :: IsBlank(s[j])
    decreases |s| - i
  {
  }

  predicate IsPart(p: Part, rest: string) {
    IsEnding(p.ending, rest) &&
    match p
    case Ordinary(line, ending) => IsOrdinary(line) && line + ending != ""
    case Marked(before, after, command, ending) =>
      AreBlanks(before) && AreBlanks(after)
      && IsPlain(command) && command + ending != "" && (command != "" ==> !IsBlank(command[0]))
    case Block(before, after, body, indent, trail, _) =>
      AreBlanks(before) && AreBlanks(after) && AreBlanks(indent) && AreBlanks(trail)
      && forall k | 0 <= k < |body| :: IsPlain(body[k]) && !BeginsWith(body[k], BLOCK_END)
  }

  function FileText(parts: seq<Part>): string {
    if parts == [] then "" else Text(parts[0]) + FileText(parts[1..])
  }

  predicate AreParts(parts: seq<Part>) {
    parts == [] || (IsPart(parts[0], FileText(parts[1..])) && AreParts(parts[1..]))
  }

  /** The commands of all parts, in order, each with its text and its place in the file. */
  function AllSaid(parts: seq<Part>, at: nat): seq<Found> {
    if parts == [] then [] else Said(parts[0], at) + AllSaid(parts[1..], at + |Text(parts[0])|)
  }

  lemma OrdinaryIsSkipped(line: string, ending: string, rest: string)
    requires IsOrdinary(line) && IsEnding(ending, rest) && line + ending != ""
    ensures NextItem(line + (ending + rest)) == Some(Item(None, |line| + |ending|))
  {
    var s := line + (ending + rest);
    assert ending != "" ==> (ending + rest)[0] == ending[0];
    BeginsIff(line, LINE_MARKER);
    BeginsIff(line, BLOCK_MARKER);
    NotMarked(line, ending + rest, LINE_MARKER);
    NotMarked(line, ending + rest, BLOCK_MARKER);
    RestOfEnded(line, ending, rest);
    assert s[0..] == s;
    hide AfterMarker;
    hide RestOfLine;
  }

  lemma MarkedText(p: Part, rest: string)
    requires p.Marked?
    ensures Text(p) + rest == p.before + (LINE_MARKER + (p.after + (p.command + (p.ending + rest))))
    ensures |Text(p)| == |p.before + LINE_MARKER + p.after| + |p.command| + |p.ending|
  {
    Assoc(p.before + LINE_MARKER + p.after + p.command, p.ending, rest);
    Assoc(p.before + LINE_MARKER + p.after, p.command, p.ending + rest);
    Assoc(p.before + LINE_MARKER, p.after, p.command + (p.ending + rest));
    Assoc(p.before, LINE_MARKER, p.after + (p.command + (p.ending + rest)));
  }

  lemma BlockText(p: Part, rest: string)
    requires p.Block?
    ensures Text(p) + rest
         == p.before + (BLOCK_MARKER + (p.after + ("\n" + (Unlines(p.body)
            + Closing(p.indent, p.trail, p.ending, rest)))))
    ensures |Text(p)| == |p.before + BLOCK_MARKER + p.after| + 1 + |Unlines(p.body)| + |p.indent + BLOCK_END + p.trail|
                         + |p.ending|
  {
    hide Unlines;
    var text := Unlines(p.body);
    var open := p.before + BLOCK_MARKER + p.after;
    var t1 := p.ending + rest;
    var t2 := p.trail + t1;
    var t3 := BLOCK_END + t2;
    var t4 := p.indent + t3;
    Assoc(open + "\n" + text + p.indent + BLOCK_END + p.trail, p.ending, rest);
    Assoc(open + "\n" + text + p.indent + BLOCK_END, p.trail, t1);
    Assoc(open + "\n" + text + p.indent, BLOCK_END, t2);
    Assoc(open + "\n" + text, p.indent, t3);
    Assoc(open + "\n", text, t4);
    Assoc(open, "\n", text + t4);
    Assoc(p.before + BLOCK_MARKER, p.after, "\n" + (text + t4));
    Assoc(p.before, BLOCK_MARKER, p.after + ("\n" + (text + t4)));
  }

  lemma PartIsNext(p: Part, rest: string)
    requires IsPart(p, rest)
    ensures |Text(p)| > 0
    ensures NextItem(Text(p) + rest) ==
      Some(Item(if Said(p, 0) == [] then None else Some(Said(p, 0)[0]), |Text(p)|))
  {
    hide NextItem;
    hide Unlines;
    match p
    case Ordinary(line, ending) =>
      Assoc(line, ending, rest);
      OrdinaryIsSkipped(line, ending, rest);
    case Marked(before, after, command, ending) =>
      MarkedText(p, rest);
      hide Text;
      EvalLineIsFound(before, after, command, ending, rest);
    case Block(before, after, body, indent, trail, ending) =>
      BlockText(p, rest);
      hide Text;
      forall k | 0 <= k < |body| ensures IsBodyLine(body[k]) {
        BeginsIff(body[k], BLOCK_END);
      }
      BlockIsFound(before, after, body, indent, trail, ending, rest);
  }

  lemma SaidMoved(p: Part, at: nat)
    ensures |Said(p, at)| == |Said(p, 0)| <= 1
    ensures Said(p, at) != [] ==> Said(p, at) == [Moved(Said(p, 0)[0], at)]
  {
    hide Unlines;
  }

  lemma ItemThere(s: string, i: nat, found: Option<Found>, n: nat)
    requires i <= |s| && NextItem(s[i..]) == Some(Item(found, n))
    ensures ItemAt(s, i) == Some(Item(if found.None? then None else Some(Moved(found.value, i)), i + n))
  {
    hide NextItem;
  }

  lemma PartThere(p: Part, rest: string, s: string, i: nat)
    requires IsPart(p, rest) && i <= |s| && s[i..] == Text(p) + rest
    ensures i < i + |Text(p)| <= |s| && s[i + |Text(p)|..] == rest
    ensures ItemAt(s, i) == Some(Item(if Said(p, i) == [] then None else Some(Said(p, i)[0]), i + |Text(p)|))
    ensures Said(p, i) == [] || Said(p, i) == [Said(p, i)[0]]
  {
    hide *;
    PartIsNext(p, rest);
    SaidMoved(p, i);
    PlaceThere(Text(p), rest, s, i);
    ItemThere(s, i, if Said(p, 0) == [] then None else Some(Said(p, 0)[0]), |Text(p)|);
  }

  lemma PlaceThere(text: string, rest: string, s: string, i: nat)
    requires i <= |s| && s[i..] == text + rest
    ensures i + |text| <= |s| && s[i + |text|..] == rest
  {
    assert |s[i..]| == |text| + |rest|;
    Tails(s, i, |text|);
    CutRight(text, rest, 0);
  }

  lemma CommandsCons(s: string, i: nat, item: Item, more: seq<Found>)
    requires i < item.length <= |s| && ItemAt(s, i) == Some(item) && Commands(s, item.length) == Some(more)
    ensures Commands(s, i) == Some((if item.found.Some? then [item.found.value] else []) + more)
  {
    hide ItemAt;
    assert [] + more == more;
  }

  lemma PartsCons(parts: seq<Part>, at: nat)
    requires parts != [] && AreParts(parts)
    ensures IsPart(parts[0], FileText(parts[1..])) && AreParts(parts[1..])
    ensures FileText(parts) == Text(parts[0]) + FileText(parts[1..])
    ensures AllSaid(parts, at) == Said(parts[0], at) + AllSaid(parts[1..], at + |Text(parts[0])|)
  {
    hide IsPart;
    hide Text;
    hide Said;
  }

  lemma NoParts(s: string, i: nat)
    requires i <= |s| && s[i..] == FileText([])
    ensures Commands(s, i) == Some(AllSaid([], i))
  {
    assert |s[i..]| == |s| - i;
  }

  /** The commands found in a file are exactly those of its parts. */
  lemma {:induction false} CommandsOfParts(parts: seq<Part>, s: string, i: nat)
    requires AreParts(parts) && i <= |s| && s[i..] == FileText(parts)
    ensures Commands(s, i) == Some(AllSaid(parts, i))
    decreases |parts|
  {
    hide *;
    if parts == [] {
      NoParts(s, i);
    } else {
      PartsCons(parts, i);
      PartThere(parts[0], FileText(parts[1..]), s, i);
      var next := i + |Text(parts[0])|;
      CommandsOfParts(parts[1..], s, next);
      CommandsCons(s, i, ItemAt(s, i).value, AllSaid(parts[1..], next));
    }
  }

  // Items are whole lines.

  predicate EndsLine(s: string, n: nat)
    requires n <= |s|
  {
    n == |s| || (n > 0 && s[n - 1] == '\n')
  }

  lemma RestEndsLine(s: string, i: nat)
    requires i <= |s| && RestAt(s, i).Some?
    ensures EndsLine(s, RestAt(s, i).value)
  {
  }

  lemma ItemsEndLines(s: string)
    requires NextItem(s).Some?
    ensures EndsLine(s, NextItem(s).value.length)
  {
    hide BlockBody;
    hide AfterMarker;
    hide SpanFrom;
    hide RestAt;
    if LineEval(s).Some? {
      RestEndsLine(s, AfterMarker(s, 0, LINE_MARKER).value);
    } else if BlockEval(s).None? {
      RestEndsLine(s, 0);
    }
  }

  /** At most one command begins on each line: each begins after the end of the line of the one
      before it. */
  ghost predicate Spread(s: string, fs: seq<Found>, i: nat) {
    && (forall k | 0 <= k < |fs| :: i <= fs[k].start && Within(fs[k], |s|))
    && (forall j, k | 0 <= j < k < |fs| :: LineOf(s, fs[j]) < fs[k].start)
  }

  /** Where the line ends that a command begins on. */
  function LineOf(s: string, f: Found): nat {
    if f.start <= |s| then NewlineFrom(s, f.start) else |s|
  }

  lemma SpreadCons(s: string, f: Found, more: seq<Found>, i: nat, next: nat)
    requires Spread(s, more, next) && i <= f.start && Within(f, next) && next <= |s| && EndsLine(s, next)
    ensures Spread(s, [f] + more, i)
  {
    var all := [f] + more;
    assert forall k | 0 < k < |all| :: all[k] == more[k - 1];
    assert more != [] ==> next <= more[0].start < |s|;
    assert more != [] ==> s[next - 1] == '\n';
    assert more != [] ==> LineOf(s, f) <= next - 1;
  }

  lemma {:induction false} CommandsAreSpread(s: string, i: nat)
    requires i <= |s| && Commands(s, i).Some?
    ensures Spread(s, Commands(s, i).value, i)
    decreases |s| - i
  {
    if i < |s| {
      EndsLineThere(s, i);
      hide ItemAt;
      hide EndsLine;
      hide Spread;
      var item := ItemAt(s, i).value;
      CommandsAreSpread(s, item.length);
      var more := Commands(s, item.length).value;
      if item.found.Some? {
        SpreadCons(s, item.found.value, more, i, item.length);
      } else {
        SpreadFrom(s, more, i, item.length);
      }
    }
  }

  lemma SpreadFrom(s: string, fs: seq<Found>, i: nat, j: nat)
    requires Spread(s, fs, j) && i <= j
    ensures Spread(s, fs, i)
  {
  }

  lemma EndsLineThere(s: string, i: nat)
    requires i < |s| && ItemAt(s, i).Some?
    ensures EndsLine(s, ItemAt(s, i).value.length)
  {
    hide NextItem;
    hide Within;
    ItemsEndLines(s[i..]);
    LineEndThere(s, i, NextItem(s[i..]).value.length);
    hide EndsLine;
  }

  lemma LineEndThere(s: string, i: nat, n: nat)
    requires i + n <= |s| && n > 0 && EndsLine(s[i..], n)
    ensures EndsLine(s, i + n)
  {
  }

  // Positions.

  /** Newlines before an index. */
  function Newlines(s: string, i: nat): nat
    requires i <= |s|
  {
    if i == 0 then 0 else Newlines(s, i - 1) + if s[i - 1] == '\n' then 1 else 0
  }

  function LineStart(s: string, i: nat): (a: nat)
    requires i <= |s|
    ensures a <= i
  {
    if i == 0 || s[i - 1] == '\n' then i else LineStart(s, i - 1)
  }

  /** Positions counted directly in the text. */
  function Located(s: string, f: Found): EvalCommand
    requires Within(f, |s|)
  {
    EvalCommand(f.command, Newlines(s, f.start) + 1, f.start - LineStart(s, f.start) + 1,
                Offset(s, f.start), Offset(s, f.end))
  }

  lemma SpreadIsAscending(s: string, fs: seq<Found>, i: nat, j: nat, k: nat)
    requires Spread(s, fs, i) && j < k < |fs|
    ensures i <= fs[j].start < fs[k].start < |s|
    ensures Newlines(s, fs[j].start) < Newlines(s, fs[k].start)
  {
    var newline := LineOf(s, fs[j]);
    assert newline < fs[k].start;
    hide Spread;
    NewlinesGrow(s, fs[j].start, newline);
    NewlinesGrow(s, newline + 1, fs[k].start);
  }

  lemma NewlinesGrow(s: string, i: nat, j: nat)
    requires i <= j <= |s|
    ensures Newlines(s, i) <= Newlines(s, j)
    decreases j - i
  {
    if i < j {
      NewlinesGrow(s, i, j - 1);
    }
  }

  /** The bytes of a character in UTF-8. */
  function Utf8Len(c: char): (n: nat)
    ensures 1 <= n <= 4
  {
    var x := c as int;
    if x < 0x80 then 1 else if x < 0x800 then 2 else if x < 0x1_0000 then 3 else 4
  }

  function Offset(s: string, i: nat): nat
    requires i <= |s|
  {
    if i == 0 then 0 else Offset(s, i - 1) + Utf8Len(s[i - 1])
  }

  lemma OffsetsGrow(s: string, i: nat, j: nat)
    requires i < j <= |s|
    ensures Offset(s, i) < Offset(s, j)
    decreases j - i
  {
    if i < j - 1 {
      OffsetsGrow(s, i, j - 1);
    }
  }

  /** Comparing byte offsets is comparing positions. */
  lemma SameOrder(s: string, i: nat, j: nat)
    requires i <= |s| && j <= |s|
    ensures Offset(s, i) <= Offset(s, j) <==> i <= j
  {
    if i < j {
      OffsetsGrow(s, i, j);
    } else if j < i {
      OffsetsGrow(s, j, i);
    }
  }

  // The join of commands and lines.

  lemma WithinLine(s: string, a: nat, i: nat)
    requires a <= i <= |s| && (a == 0 || s[a - 1] == '\n') && forall k | a <= k < i :: s[k] != '\n'
    ensures LineStart(s, i) == a && Newlines(s, i) == Newlines(s, a)
    decreases i - a
  {
    if a < i {
      WithinLine(s, a, i - 1);
    }
  }

  /** The first character of a line whose offset is not below the given one, counted from one. */
  method Column(s: string, a: nat, b: nat, offset: nat, ghost i: nat) returns (column: nat)
    requires a <= i < b <= |s| && offset == Offset(s, i) - Offset(s, a)
    ensures column == i - a + 1
  {
    column := 1;
    var j, charOffset := a, 0;
    while j < b
      invariant a <= j <= b && charOffset == Offset(s, j) - Offset(s, a)
      invariant j <= i
    {
      SameOrder(s, i, j);
      if offset <= charOffset {
        column := j - a + 1;
        break;
      }
      charOffset := charOffset + Utf8Len(s[j]);
      j := j + 1;
    }
  }

  ghost predicate AllLocated(s: string, fs: seq<Found>, cs: seq<EvalCommand>)
  {
    |cs| == |fs| && forall k | 0 <= k < |fs| :: Within(fs[k], |s|) && cs[k] == Located(s, fs[k])
  }

  /** The command that begins on a line, at the position the line and column say. */
  lemma OnLine(s: string, f: Found, a: nat, b: nat)
    requires Within(f, |s|) && a <= f.start < b <= |s| && (a == 0 || s[a - 1] == '\n')
    requires forall i | a <= i < b - 1 :: s[i] != '\n'
    ensures Located(s, f)
         == EvalCommand(f.command, Newlines(s, a) + 1, f.start - a + 1, Offset(s, f.start), Offset(s, f.end))
  {
    WithinLine(s, a, f.start);
  }

  lemma NextLine(s: string, a: nat, b: nat)
    requires a < b <= |s| && (b < |s| ==> s[b - 1] == '\n') && forall i | a <= i < b - 1 :: s[i] != '\n'
    ensures b < |s| ==> Newlines(s, b) == Newlines(s, a) + 1
    ensures forall i | a <= i < b :: b < |s| ==> NewlineFrom(s, i) == b - 1
    ensures forall i | a <= i < b :: b == |s| ==> NewlineFrom(s, i) >= |s| - 1
  {
    if b < |s| {
      SameLine(s, a, b - 1);
      forall i | a <= i < b ensures NewlineFrom(s, i) == b - 1 {
        var j := NewlineFrom(s, i);
      }
    }
  }

  lemma SameLine(s: string, a: nat, i: nat)
    requires a <= i <= |s| && forall k | a <= k < i :: s[k] != '\n'
    ensures Newlines(s, i) == Newlines(s, a)
    decreases i - a
  {
    if a < i {
      SameLine(s, a, i - 1);
    }
  }

  /** The line from `a` to `b` and the next one. */
  ghost predicate IsLineAt(s: string, a: nat, b: nat) {
    && a < b <= |s|
    && (a == 0 || s[a - 1] == '\n')
    && (b < |s| ==> s[b - 1] == '\n')
    && forall i | a <= i < b - 1 :: s[i] != '\n'
  }

  lemma LaterOnLater(s: string, fs: seq<Found>, k: nat)
    requires Spread(s, fs, 0) && k < |fs|
    ensures Within(fs[k], |s|)
    ensures k + 1 < |fs| ==> NewlineFrom(s, fs[k].start) < fs[k + 1].start && Within(fs[k + 1], |s|)
  {
    assert k + 1 < |fs| ==> LineOf(s, fs[k]) < fs[k + 1].start;
  }

  lemma LineFacts(s: string, f: Found, a: nat, b: nat)
    requires Within(f, |s|) && IsLineAt(s, a, b)
    ensures b < |s| ==> Newlines(s, b) == Newlines(s, a) + 1
    ensures Offset(s, a) <= Offset(s, f.start) < Offset(s, b) <==> a <= f.start < b
    ensures a <= f.start < b ==> NewlineFrom(s, f.start) + 1 >= b
    ensures a <= f.start < b ==>
      Located(s, f) == EvalCommand(f.command, Newlines(s, a) + 1, f.start - a + 1, Offset(s, f.start), Offset(s, f.end))
  {
    NextLine(s, a, b);
    SameOrder(s, a, f.start);
    SameOrder(s, b, f.start);
    hide Located;
    hide Newlines;
    hide Offset;
    if a <= f.start < b {
      OnLine(s, f, a, b);
    }
  }

  /** The command, if it begins on the line from `a` to `b`; the comparison is between byte offsets. */
  method LocateOn(s: string, f: Found, a: nat, b: nat, lineNumber: nat) returns (r: Option<EvalCommand>)
    requires Within(f, |s|) && IsLineAt(s, a, b) && lineNumber == Newlines(s, a) + 1
    ensures r == if a <= f.start < b then Some(Located(s, f)) else None
  {
    LineFacts(s, f, a, b);
    hide IsLineAt;
    if Offset(s, a) <= Offset(s, f.start) && Offset(s, b) > Offset(s, f.start) {
      var column := Column(s, a, b, Offset(s, f.start) - Offset(s, a), f.start);
      r := Some(EvalCommand(f.command, lineNumber, column, Offset(s, f.start), Offset(s, f.end)));
    } else {
      r := None;
    }
  }

  ghost predicate AtLine(s: string, a: nat, lineNumber: nat) {
    a < |s| ==> lineNumber == Newlines(s, a) + 1 && (a == 0 || s[a - 1] == '\n')
  }

  method LineAfter(s: string, a: nat, ghost lineNumber: nat) returns (b: nat)
    requires a < |s| && AtLine(s, a, lineNumber)
    ensures IsLineAt(s, a, b) && AtLine(s, b, lineNumber + 1) && a < b <= |s|
    ensures forall i | a <= i < b :: NewlineFrom(s, i) + 1 >= b
  {
    var newline := NewlineFrom(s, a);
    b := if newline < |s| then newline + 1 else |s|;
    NextLine(s, a, b);
  }

  /** One pass over lines and commands gives every command its position. */
  method Join(s: string, fs: seq<Found>) returns (cs: seq<EvalCommand>)
    requires Spread(s, fs, 0)
    ensures AllLocated(s, fs, cs)
  {
    cs := [];
    if fs == [] { return; }
    LaterOnLater(s, fs, 0);
    var next := 0;
    var a, lineNumber := 0, 1;
    while a < |s|
      invariant a <= |s| && next == |cs| < |fs| && AtLine(s, a, lineNumber)
      invariant a <= fs[next].start && Within(fs[next], |s|)
      invariant AllLocated(s, fs[..next], cs)
      decreases |s| - a
    {
      hide *;
      var b := LineAfter(s, a, lineNumber);
      AtLineNumber(s, a, lineNumber);
      var found := LocateOn(s, fs[next], a, b, lineNumber);
      if found.Some? {
        OneMoreLocated(s, fs, next, cs);
        LaterOnLater(s, fs, next);
        cs := cs + [found.value];
        next := next + 1;
        if next == |fs| {
          assert fs[..next] == fs;
          return;
        }
      }
      a, lineNumber := b, lineNumber + 1;
    }
  }

  lemma AtLineNumber(s: string, a: nat, lineNumber: nat)
    requires a < |s| && AtLine(s, a, lineNumber)
    ensures lineNumber == Newlines(s, a) + 1
  {
  }

  lemma OneMoreLocated(s: string, fs: seq<Found>, k: nat, cs: seq<EvalCommand>)
    requires k < |fs| && AllLocated(s, fs[..k], cs) && Within(fs[k], |s|)
    ensures AllLocated(s, fs[..k + 1], cs + [Located(s, fs[k])])
  {
  }

  /** `parse_eval_commands`: when the file is recognised, no command is lost, and each has the position
      that counting in the file gives it. */
  method ParseEvalCommands(s: string) returns (r: Option<seq<EvalCommand>>)
    ensures r.Some? <==> Commands(s, 0).Some?
    ensures r.Some? ==> AllLocated(s, Commands(s, 0).value, r.value)
    // A file made of ordinary lines, evaluation lines and blocks has exactly their commands.
    ensures forall parts | AreParts(parts) && FileText(parts) == s ::
      r.Some? && AllLocated(s, AllSaid(parts, 0), r.value)
  {
    forall parts | AreParts(parts) && FileText(parts) == s ensures Commands(s, 0) == Some(AllSaid(parts, 0)) {
      assert s[0..] == s;
      CommandsOfParts(parts, s, 0);
    }
    hide AreParts;
    hide FileText;
    hide AllSaid;
    match Commands(s, 0)
    case None => r := None;
    case Some(fs) =>
      CommandsAreSpread(s, 0);
      var cs := Join(s, fs);
      r := Some(cs);
  }
}
