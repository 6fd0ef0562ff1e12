/** Printing GHC diagnostics (src/ghci/parse/ghc_message/mod.rs) and parsing them back
    (src/ghci/parse/ghc_message/ and src/ghci/parse/lines.rs). A parser takes a text and returns what
    it recognised with the text that is left. */
module Diagnostics {
  import opened Basics
  import opened Lines

  const USIZE_MAX: nat := 0xFFFF_FFFF_FFFF_FFFF

  datatype Severity = Warning | Error

  datatype Position = Position(line: nat, column: nat)

  datatype Span = Span(start: Position, end: Position)

  const ZERO := Span(Position(0, 0), Position(0, 0))

  datatype Diagnostic = Diagnostic(severity: Severity, path: Option<string>, span: Span, message: string)

  // Printing.

  function Digit(n: nat): char
    requires n < 10
  {
    '0' + n as char
  }

  function Dec(n: nat): string {
    if n < 10 then [Digit(n)] else Dec(n / 10) + [Digit(n % 10)]
  }

  function PrintSeverity(s: Severity): string {
    if s == Warning then "warning" else "error"
  }

  function PrintSpan(s: Span): string {
    if s.start.line == s.end.line then
      if s.start.column == s.end.column then Dec(s.start.line) + (":" + Dec(s.start.column))
      else Dec(s.start.line) + (":" + (Dec(s.start.column) + ("-" + Dec(s.end.column))))
    else
      "(" + (Dec(s.start.line) + ("," + (Dec(s.start.column)
        + (")-(" + (Dec(s.end.line) + ("," + (Dec(s.end.column) + ")")))))))
  }

  const NO_LOCATION := "<no location info>"

  function PathText(d: Diagnostic): string {
    if d.path.Some? then d.path.value else NO_LOCATION
  }

  function Print(d: Diagnostic): string {
    PathText(d) + ((if d.span != ZERO then ":" + PrintSpan(d.span) else "")
      + (": " + (PrintSeverity(d.severity) + (":"
      + ((if d.message != "" && d.message[0] == '\n' then "" else " ") + d.message)))))
  }

  // The elementary parsers.

  /** How far the characters from `i` on belong to a class. */
  function SpanFrom(s: string, i: nat, p: char -> bool): (n: nat)
    requires i <= |s|
    ensures i <= n <= |s|
    decreases |s| - i
  {
    if i == |s| || !p(s[i]) then i else SpanFrom(s, i + 1, p)
  }

  predicate IsDigit(c: char) { '0' <= c <= '9' }

  predicate IsBlank(c: char) { c == ' ' || c == '\t' }

  predicate IsGutter(c: char) { IsBlank(c) || IsDigit(c) }

  predicate InPath(c: char) { c != ':' && c != '\n' }

  predicate NotColon(c: char) { c != ':' }

  predicate NotEnding(c: char) { c != '\n' && c != '\r' }

  type Parsed<T> = Option<(T, string)>

  function TakeSome(s: string, p: char -> bool): (r: Parsed<string>)
    ensures r.Some? ==> |r.value.1| < |s|
  {
    var n := SpanFrom(s, 0, p);
    if n == 0 then None else Some((s[..n], s[n..]))
  }

  function Tag(t: string, s: string): (r: Option<string>)
    ensures r.Some? ==> |r.value| + |t| == |s|
  {
    if t <= s then Some(s[|t|..]) else None
  }

  function Space0(s: string): (rest: string)
    ensures |rest| <= |s|
  {
    s[SpanFrom(s, 0, IsBlank)..]
  }

  function Value(digits: string): nat {
    if digits == "" then 0
    else
      var c := digits[|digits| - 1];
      10 * Value(digits[..|digits| - 1]) + if IsDigit(c) then (c - '0') as nat else 0
  }

  /** `digit1.parse_to::<usize>()`. */
  function Number(s: string): (r: Parsed<nat>)
    ensures r.Some? ==> |r.value.1| < |s|
  {
    match TakeSome(s, IsDigit)
    case None => None
    case Some((digits, rest)) => if Value(digits) > USIZE_MAX then None else Some((Value(digits), rest))
  }

  function PathColon(s: string): (r: Parsed<string>)
    ensures r.Some? ==> |r.value.1| < |s|
  {
    match TakeSome(s, InPath)
    case None => None
    case Some((path, rest)) =>
      match Tag(":", rest) case None => None case Some(after) => Some((path, after))
  }

  function SeverityColon(s: string): (r: Parsed<Severity>)
    ensures r.Some? ==> |r.value.1| < |s|
  {
    match TakeSome(s, NotColon)
    case None => None
    case Some((word, rest)) =>
      match Tag(":", rest)
      case None => None
      case Some(after) =>
        if word == "warning" || word == "Warning" then Some((Warning, after))
        else if word == "error" || word == "Error" then Some((Error, after))
        else None
  }

  function NumberThen(t: string, s: string): (r: Parsed<nat>)
    ensures r.Some? ==> |r.value.1| < |s|
  {
    match Number(s)
    case None => None
    case Some((n, rest)) => match Tag(t, rest) case None => None case Some(after) => Some((n, after))
  }

  function FullRange(s: string): (r: Parsed<Span>)
    ensures r.Some? ==> |r.value.1| < |s|
  {
    match Tag("(", s) case None => None case Some(s0) =>
    match NumberThen(",", s0) case None => None case Some((l1, s1)) =>
    match NumberThen(")-(", s1) case None => None case Some((c1, s2)) =>
    match NumberThen(",", s2) case None => None case Some((l2, s3)) =>
    match NumberThen("):", s3) case None => None case Some((c2, s4)) =>
      Some((Span(Position(l1, c1), Position(l2, c2)), s4))
  }

  function LineRange(s: string): (r: Parsed<Span>)
    ensures r.Some? ==> |r.value.1| < |s|
  {
    match NumberThen(":", s) case None => None case Some((l, s1)) =>
    match Number(s1) case None => None case Some((c1, s2)) =>
      var (c2, s3) := match Tag("-", s2)
        case None => (c1, s2)
        case Some(after) => match Number(after) case None => (c1, s2) case Some(end) => end;
      match Tag(":", s3) case None => None case Some(s4) => Some((Span(Position(l, c1), Position(l, c2)), s4))
  }

  function PositionRange(s: string): (r: Parsed<Span>)
    ensures r.Some? ==> |r.value.1| < |s|
  {
    match FullRange(s) case Some(r) => Some(r) case None => LineRange(s)
  }

  /** The length of the rest of a line and its ending; a carriage return must begin an ending. */
  function RestOfLine(s: string): (n: Option<nat>)
    ensures n.Some? ==> 0 < n.value <= |s|
  {
    var i := SpanFrom(s, 0, NotEnding);
    if i == |s| then (if i == 0 then None else Some(i))
    else if s[i] == '\n' then Some(i + 1)
    else if i + 1 < |s| && s[i + 1] == '\n' then Some(i + 2)
    else None
  }

  function BodyLine(s: string): (n: Option<nat>)
    ensures n.Some? ==> 0 < n.value <= |s|
  {
    var blanks := SpanFrom(s, 0, IsBlank);
    var gutter := SpanFrom(s, 0, IsGutter);
    var start :=
      if blanks > 0 then blanks
      else if gutter > 0 && gutter < |s| && s[gutter] == '|' then gutter + 1
      else 0;
    if start == 0 then None
    else match RestOfLine(s[start..]) case None => None case Some(n) => Some(start + n)
  }

  function BodyLines(s: string): (n: nat)
    ensures n <= |s|
    decreases |s|
  {
    match BodyLine(s) case None => 0 case Some(n) => n + BodyLines(s[n..])
  }

  function MessageBody(s: string): (r: Parsed<string>)
    ensures r.Some? ==> |r.value.1| < |s|
  {
    match RestOfLine(s)
    case None => None
    case Some(n) => var m := n + BodyLines(s[n..]); Some((s[..m], s[m..]))
  }

  function GenericDiagnostic(s: string): (r: Parsed<Diagnostic>)
    ensures r.Some? ==> |r.value.1| < |s|
  {
    match PathColon(s) case None => None case Some((path, s1)) =>
      var (span, s2) := match PositionRange(s1) case Some(r) => r case None => (ZERO, s1);
      match TakeSome(s2, IsBlank) case None => None case Some((_, s3)) =>
      match SeverityColon(s3) case None => None case Some((severity, s4)) =>
      match MessageBody(Space0(s4)) case None => None case Some((message, s5)) =>
        Some((Diagnostic(severity, Some(path), span, message), s5))
  }

  // Numbers.

  lemma SpanExact(a: string, rest: string, i: nat, p: char -> bool)
    requires i <= |a| && (forall j | i <= j < |a| :: p(a[j])) && (rest != "" ==> !p(rest[0]))
    ensures SpanFrom(a + rest, i, p) == |a|
    decreases |a| - i
  {
    if i < |a| {
      SpanExact(a, rest, i + 1, p);
    }
  }

  lemma TakeExact(a: string, rest: string, p: char -> bool)
    requires a != "" && (forall j | 0 <= j < |a| :: p(a[j])) && (rest != "" ==> !p(rest[0]))
    ensures TakeSome(a + rest, p) == Some((a, rest))
  {
    SpanExact(a, rest, 0, p);
    assert (a + rest)[..|a|] == a && (a + rest)[|a|..] == rest;
  }

  lemma TagExact(t: string, rest: string)
    ensures Tag(t, t + rest) == Some(rest)
  {
    assert (t + rest)[..|t|] == t && (t + rest)[|t|..] == rest;
  }

  predicate AllDigits(s: string) {
    s != "" && forall j | 0 <= j < |s| :: IsDigit(s[j])
  }

  lemma DecParses(n: nat)
    ensures AllDigits(Dec(n)) && Value(Dec(n)) == n
  {
    var last := Digit(n % 10);
    assert IsDigit(last) && (last - '0') as nat == n % 10;
    if n < 10 {
      assert Dec(n)[..0] == "" && Value("") == 0;
    } else {
      DecParses(n / 10);
      assert Dec(n)[..|Dec(n)| - 1] == Dec(n / 10);
    }
  }

  lemma NumberPrints(n: nat, rest: string)
    requires n <= USIZE_MAX && (rest != "" ==> !IsDigit(rest[0]))
    ensures Number(Dec(n) + rest) == Some((n, rest))
  {
    DecParses(n);
    TakeExact(Dec(n), rest, IsDigit);
  }

  lemma NumberThenPrints(n: nat, t: string, rest: string)
    requires n <= USIZE_MAX && t != "" && !IsDigit(t[0])
    ensures NumberThen(t, Dec(n) + (t + rest)) == Some((n, rest))
  {
    NumberPrints(n, t + rest);
    TagExact(t, rest);
  }

  /** The decimal numeral is the one without leading zeros. */
  lemma {:induction false} DecIsCanonical(t: string)
    requires AllDigits(t) && (|t| > 1 ==> t[0] != '0')
    ensures t == Dec(Value(t))
    decreases |t|
  {
    var c, front := t[|t| - 1], t[..|t| - 1];
    assert t == front + [c];
    var d := (c - '0') as nat;
    assert d < 10 && Digit(d) == c;
    if front == "" {
      assert Value(t) == d;
    } else {
      assert AllDigits(front) && front[0] == t[0];
      DecIsCanonical(front);
      PositiveValue(front);
      assert Value(t) == 10 * Value(front) + d;
      assert Value(t) / 10 == Value(front) && Value(t) % 10 == d;
    }
  }

  lemma {:induction false} PositiveValue(t: string)
    requires AllDigits(t) && t[0] != '0'
    ensures Value(t) > 0
    decreases |t|
  {
    var front := t[..|t| - 1];
    if front == "" {
      assert t[|t| - 1] == t[0];
    } else {
      assert AllDigits(front) && front[0] == t[0];
      PositiveValue(front);
    }
  }

  // Spans.

  predicate Fits(s: Span) {
    s.start.line <= USIZE_MAX && s.start.column <= USIZE_MAX && s.end.line <= USIZE_MAX && s.end.column <= USIZE_MAX
  }

  lemma DigitsFirst(n: nat, rest: string)
    ensures Dec(n) != "" && IsDigit((Dec(n) + rest)[0]) && Tag("(", Dec(n) + rest).None?
  {
    DecParses(n);
  }

  lemma NoDash(rest: string)
    ensures Tag("-", ":" + rest).None?
  {
    var s := ":" + rest;
    assert s[0] == ':' && "-"[0] == '-';
    assert s[..1] != "-";
  }

  lemma LineSpanPrints(l: nat, c1: nat, c2: nat, rest: string)
    requires l <= USIZE_MAX && c1 <= USIZE_MAX && c2 <= USIZE_MAX
    ensures PositionRange(Dec(l) + (":" + (Dec(c1) + ("-" + (Dec(c2) + (":" + rest))))))
         == Some((Span(Position(l, c1), Position(l, c2)), rest))
    ensures PositionRange(Dec(l) + (":" + (Dec(c1) + (":" + rest))))
         == Some((Span(Position(l, c1), Position(l, c1)), rest))
  {
    hide Dec;
    hide Number;
    hide Tag;
    var ranged, single := "-" + (Dec(c2) + (":" + rest)), ":" + rest;
    DigitsFirst(l, ":" + (Dec(c1) + ranged));
    DigitsFirst(l, ":" + (Dec(c1) + single));
    NumberThenPrints(l, ":", Dec(c1) + ranged);
    NumberThenPrints(l, ":", Dec(c1) + single);
    NumberPrints(c1, ranged);
    NumberPrints(c1, single);
    TagExact("-", Dec(c2) + (":" + rest));
    NumberPrints(c2, ":" + rest);
    TagExact(":", rest);
    NoDash(rest);
  }

  lemma FullSpanPrints(l1: nat, c1: nat, l2: nat, c2: nat, rest: string)
    requires l1 <= USIZE_MAX && c1 <= USIZE_MAX && l2 <= USIZE_MAX && c2 <= USIZE_MAX
    ensures FullRange("(" + (Dec(l1) + ("," + (Dec(c1) + (")-(" + (Dec(l2) + ("," + (Dec(c2) + ("):" + rest)))))))))
         == Some((Span(Position(l1, c1), Position(l2, c2)), rest))
  {
    hide Dec;
    hide Number;
    hide Tag;
    hide NumberThen;
    var s3 := Dec(c2) + ("):" + rest);
    var s2 := Dec(l2) + ("," + s3);
    var s1 := Dec(c1) + (")-(" + s2);
    TagExact("(", Dec(l1) + ("," + s1));
    NumberThenPrints(l1, ",", s1);
    NumberThenPrints(c1, ")-(", s2);
    NumberThenPrints(l2, ",", s3);
    NumberThenPrints(c2, "):", rest);
  }

  predicate Holds(s: string, c: char) {
    exists i | 0 <= i < |s| :: s[i] == c
  }

  lemma HoldsJoin(a: string, b: string, c: char)
    ensures Holds(a + b, c) <==> Holds(a, c) || Holds(b, c)
  {
    if i :| 0 <= i < |a| && a[i] == c { assert (a + b)[i] == c; }
    if i :| 0 <= i < |b| && b[i] == c { assert (a + b)[|a| + i] == c; }
  }

  lemma DecHolds(n: nat)
    ensures forall c | !IsDigit(c) :: !Holds(Dec(n), c)
  {
    DecParses(n);
  }

  /** The format is the shortest that says all: one position where there is one, a range of columns on one
      line, and both positions only across lines. */
  lemma SpanForm(s: Span)
    ensures Holds(PrintSpan(s), '(') <==> s.start.line != s.end.line
    ensures Holds(PrintSpan(s), '-') <==> s.start != s.end
  {
    var l1, c1, l2, c2 := Dec(s.start.line), Dec(s.start.column), Dec(s.end.line), Dec(s.end.column);
    DecHolds(s.start.line);
    DecHolds(s.start.column);
    DecHolds(s.end.line);
    DecHolds(s.end.column);
    assert ":"[0] == ':' && "-"[0] == '-' && "("[0] == '(' && ")-("[1] == '-';
    hide Dec;
    forall c | c == '(' || c == '-'
      ensures Holds(l1 + (":" + c1), c) <==> Holds(":", c)
      ensures Holds(l1 + (":" + (c1 + ("-" + c2))), c) <==> Holds(":", c) || Holds("-", c)
    {
      HoldsJoin(":", c1, c);
      HoldsJoin(l1, ":" + c1, c);
      HoldsJoin("-", c2, c);
      HoldsJoin(c1, "-" + c2, c);
      HoldsJoin(":", c1 + ("-" + c2), c);
      HoldsJoin(l1, ":" + (c1 + ("-" + c2)), c);
    }
    var t := l2 + ("," + (c2 + ")"));
    HoldsJoin(")-(", t, '-');
    HoldsJoin(c1, ")-(" + t, '-');
    HoldsJoin(",", c1 + (")-(" + t), '-');
    HoldsJoin(l1, "," + (c1 + (")-(" + t)), '-');
    HoldsJoin("(", l1 + ("," + (c1 + (")-(" + t))), '-');
    HoldsJoin("(", l1 + ("," + (c1 + (")-(" + t))), '(');
  }

  /** All three span formats are read back. */
  lemma SpanPrints(s: Span, rest: string)
    requires Fits(s)
    ensures PositionRange(PrintSpan(s) + (":" + rest)) == Some((s, rest))
  {
    hide Dec;
    hide LineRange;
    hide FullRange;
    var l1, c1, l2, c2 := Dec(s.start.line), Dec(s.start.column), Dec(s.end.line), Dec(s.end.column);
    if s.start.line == s.end.line {
      hide PositionRange;
      LineSpanPrints(s.start.line, s.start.column, s.end.column, rest);
      if s.start.column == s.end.column {
        Assoc(l1, ":" + c1, ":" + rest);
        Assoc(":", c1, ":" + rest);
      } else {
        Assoc(l1, ":" + (c1 + ("-" + c2)), ":" + rest);
        Assoc(":", c1 + ("-" + c2), ":" + rest);
        Assoc(c1, "-" + c2, ":" + rest);
        Assoc("-", c2, ":" + rest);
      }
    } else {
      FullSpanPrints(s.start.line, s.start.column, s.end.line, s.end.column, rest);
      var close := ")" + (":" + rest);
      assert close == "):" + rest;
      var t7 := c2 + ")";
      var t6 := "," + t7;
      var t5 := l2 + t6;
      var t4 := ")-(" + t5;
      var t3 := c1 + t4;
      var t2 := "," + t3;
      var t1 := l1 + t2;
      Assoc("(", t1, ":" + rest);
      Assoc(l1, t2, ":" + rest);
      Assoc(",", t3, ":" + rest);
      Assoc(c1, t4, ":" + rest);
      Assoc(")-(", t5, ":" + rest);
      Assoc(l2, t6, ":" + rest);
      Assoc(",", t7, ":" + rest);
      Assoc(c2, ")", ":" + rest);
    }
  }

  // Message bodies.

  /** A line without line-ending characters. */
  predicate IsPlain(p: string) {
    forall j | 0 <= j < |p| :: NotEnding(p[j])
  }

  /** A line that continues a message: indented, or a line number before a pipe. */
  predicate Continues(p: string) {
    p != "" && (IsBlank(p[0]) || exists g | 0 < g < |p| :: p[g] == '|' && forall j | 0 <= j < g :: IsGutter(p[j]))
  }

  predicate IsBody(ls: seq<string>) {
    ls != [] && (forall i | 0 <= i < |ls| :: IsPlain(ls[i])) && (forall i | 1 <= i < |ls| :: Continues(ls[i]))
  }

  /** Text after which a message body ends. */
  predicate EndsBody(rest: string) {
    rest == "" || !IsGutter(rest[0])
  }

  lemma RestOfPlain(p: string, rest: string)
    requires IsPlain(p)
    ensures RestOfLine(p + "\n" + rest) == Some(|p| + 1)
  {
    Assoc(p, "\n", rest);
    SpanExact(p, "\n" + rest, 0, NotEnding);
  }

  lemma SpanWithin(p: string, rest: string, i: nat, c: char -> bool)
    requires i <= |p| && (rest != "" ==> !c(rest[0]))
    ensures SpanFrom(p + rest, i, c) == SpanFrom(p, i, c)
    decreases |p| - i
  {
    if i < |p| && c(p[i]) {
      SpanWithin(p, rest, i + 1, c);
    } else if i < |p| {
      assert (p + rest)[i] == p[i];
    }
  }

  lemma SpanStops(p: string, i: nat, c: char -> bool, g: nat)
    requires i <= g < |p| && !c(p[g]) && forall j | i <= j < g :: c(p[j])
    ensures SpanFrom(p, i, c) == g
    decreases g - i
  {
    if i < g {
      SpanStops(p, i + 1, c, g);
    }
  }

  lemma BodyLineOf(p: string, rest: string)
    requires IsPlain(p) && Continues(p)
    ensures BodyLine(p + "\n" + rest) == Some(|p| + 1)
  {
    var s := p + "\n" + rest;
    var more := "\n" + rest;
    Assoc(p, "\n", rest);
    SpanWithin(p, more, 0, IsBlank);
    SpanWithin(p, more, 0, IsGutter);
    var blanks := SpanFrom(p, 0, IsBlank);
    var start := blanks;
    if blanks == 0 {
      var g :| 0 < g < |p| && p[g] == '|' && forall j | 0 <= j < g :: IsGutter(p[j]);
      SpanStops(p, 0, IsGutter, g);
      start := g + 1;
    }
    assert s[start..] == p[start..] + "\n" + rest;
    RestOfPlain(p[start..], rest);
  }

  lemma NoBodyLine(rest: string)
    requires EndsBody(rest)
    ensures BodyLine(rest).None?
  {
  }

  lemma {:induction false} BodyLinesOf(ls: seq<string>, rest: string)
    requires (forall i | 0 <= i < |ls| :: IsPlain(ls[i]) && Continues(ls[i])) && EndsBody(rest)
    ensures BodyLines(Unlines(ls) + rest) == |Unlines(ls)|
    decreases |ls|
  {
    if ls == [] {
      assert Unlines(ls) + rest == rest;
      NoBodyLine(rest);
    } else {
      hide Unlines;
      hide BodyLine;
      var p, others := ls[0], ls[1..];
      assert ls == [p] + others;
      UnlinesCons(p, others);
      Assoc(p + "\n", Unlines(others), rest);
      var s := p + "\n" + (Unlines(others) + rest);
      BodyLineOf(p, Unlines(others) + rest);
      assert s[|p| + 1..] == Unlines(others) + rest;
      BodyLinesOf(others, rest);
    }
  }

  /** A body is recognised whole, and nothing after it. */
  lemma BodyParses(ls: seq<string>, rest: string)
    requires IsBody(ls) && EndsBody(rest)
    ensures MessageBody(Unlines(ls) + rest) == Some((Unlines(ls), rest))
  {
    hide Unlines;
    hide RestOfLine;
    hide BodyLines;
    var p, others := ls[0], ls[1..];
    assert ls == [p] + others;
    UnlinesCons(p, others);
    Assoc(p + "\n", Unlines(others), rest);
    var s := Unlines(ls) + rest;
    RestOfPlain(p, Unlines(others) + rest);
    assert s[|p| + 1..] == Unlines(others) + rest;
    BodyLinesOf(others, rest);
    assert s[..|Unlines(ls)|] == Unlines(ls) && s[|Unlines(ls)|..] == rest;
  }

  // One diagnostic.

  predicate IsPath(p: string) {
    p != "" && (forall j | 0 <= j < |p| :: InPath(p[j])) && !IsGutter(p[0]) && p[0] != '[' && p[0] != '{'
  }

  function LinesOf(message: string): seq<string> {
    var ps := Pieces(message); ps[..|ps| - 1]
  }

  predicate IsMessage(m: string) {
    m != "" && m[|m| - 1] == '\n' && IsBody(LinesOf(m))
  }

  /** What can be written to the error file and still be told apart: a path that is one, a span that
      fits, and a message shaped like a body. */
  predicate Printable(d: Diagnostic) {
    (d.path.Some? ==> IsPath(d.path.value)) && Fits(d.span) && IsMessage(d.message)
  }

  function DropBlanks(m: string): string {
    m[SpanFrom(m, 0, IsBlank)..]
  }

  /** What comes back: the path is always there, and leading blanks of the message are gone. */
  function ReadBack(d: Diagnostic): Diagnostic {
    d.(path := Some(PathText(d)), message := DropBlanks(d.message))
  }

  lemma FirstTrimmed(ls: seq<string>)
    requires IsBody(ls)
    ensures IsBody([DropBlanks(ls[0])] + ls[1..])
  {
    hide Continues;
    var first := DropBlanks(ls[0]);
    var n := |ls[0]| - |first|;
    assert forall j | 0 <= j < |first| :: first[j] == ls[0][n + j];
    assert forall i | 1 <= i < |ls| :: ([first] + ls[1..])[i] == ls[i];
  }

  lemma DropFromLine(p: string, more: string)
    requires more != "" && !IsBlank(more[0])
    ensures DropBlanks(p + more) == DropBlanks(p) + more
  {
    SpanWithin(p, more, 0, IsBlank);
    CutLeft(p, more, SpanFrom(p, 0, IsBlank));
  }

  lemma MessageLines(m: string)
    requires IsMessage(m)
    ensures Unlines(LinesOf(m)) == m
    ensures var ls := LinesOf(m); var first := DropBlanks(ls[0]);
      DropBlanks(m) == Unlines([first] + ls[1..]) && IsBody([first] + ls[1..])
  {
    TerminatedLines(m);
    var ls := LinesOf(m);
    FirstTrimmed(ls);
    hide Unlines;
    hide Pieces;
    hide LinesOf;
    hide IsBody;
    hide DropBlanks;
    var p, others := ls[0], ls[1..];
    assert ls == [p] + others;
    UnlinesCons(p, others);
    UnlinesCons(DropBlanks(p), others);
    Assoc(p, "\n", Unlines(others));
    Assoc(DropBlanks(p), "\n", Unlines(others));
    DropFromLine(p, "\n" + Unlines(others));
  }

  /** The separator and the message, up to the next diagnostic. */
  function Tail(m: string): string {
    (if m != "" && m[0] == '\n' then "" else " ") + m
  }

  lemma TailBlanks(m: string, rest: string)
    requires m != "" && m[|m| - 1] == '\n'
    ensures Space0(Tail(m) + rest) == DropBlanks(m) + rest
  {
    var n := SpanFrom(m, 0, IsBlank);
    BlanksEnd(m);
    SpanBefore(m, rest, 0, IsBlank);
    CutLeft(m, rest, n);
    if m[0] != '\n' {
      Assoc(" ", m, rest);
      SpanAfter(" ", m + rest, IsBlank);
      CutRight(" ", m + rest, n);
    } else {
      assert Tail(m) == m;
    }
  }

  lemma TailParses(m: string, rest: string)
    requires IsMessage(m) && EndsBody(rest)
    ensures MessageBody(Space0(Tail(m) + rest)) == Some((DropBlanks(m), rest))
  {
    MessageLines(m);
    TailBlanks(m, rest);
    var ls := LinesOf(m);
    hide MessageBody;
    hide LinesOf;
    hide IsBody;
    hide Space0;
    hide Tail;
    hide Unlines;
    BodyParses([DropBlanks(ls[0])] + ls[1..], rest);
  }

  lemma BlanksEnd(m: string)
    requires m != "" && m[|m| - 1] == '\n'
    ensures SpanFrom(m, 0, IsBlank) < |m|
  {
    SpanAll(m, 0, IsBlank);
  }

  lemma SpanAll(m: string, i: nat, c: char -> bool)
    requires i < |m| && !c(m[|m| - 1])
    ensures SpanFrom(m, i, c) < |m|
    decreases |m| - i
  {
  }

  lemma SpanBefore(m: string, rest: string, i: nat, c: char -> bool)
    requires i <= SpanFrom(m, 0, c) < |m| && SpanFrom(m, i, c) == SpanFrom(m, 0, c)
    ensures SpanFrom(m + rest, i, c) == SpanFrom(m, 0, c)
    decreases |m| - i
  {
    assert (m + rest)[i] == m[i];
    if c(m[i]) {
      SpanBefore(m, rest, i + 1, c);
    }
  }

  lemma SpanShift(a: string, s: string, i: nat, c: char -> bool)
    requires i <= |s|
    ensures SpanFrom(a + s, |a| + i, c) == |a| + SpanFrom(s, i, c)
    decreases |s| - i
  {
    if i < |s| {
      assert (a + s)[|a| + i] == s[i];
      SpanShift(a, s, i + 1, c);
    }
  }

  lemma SpanAfter(a: string, s: string, c: char -> bool)
    requires |a| == 1 && c(a[0])
    ensures SpanFrom(a + s, 0, c) == 1 + SpanFrom(s, 0, c)
  {
    SpanShift(a, s, 0, c);
    assert (a + s)[0] == a[0];
  }

  lemma SeverityPrints(s: Severity, rest: string)
    ensures SeverityColon(PrintSeverity(s) + (":" + rest)) == Some((s, rest))
    ensures (PrintSeverity(s) + (":" + rest))[0] in {'w', 'e'}
  {
    TakeExact(PrintSeverity(s), ":" + rest, NotColon);
    TagExact(":", rest);
  }

  lemma PathPrints(p: string, rest: string)
    requires p != "" && forall j | 0 <= j < |p| :: InPath(p[j])
    ensures PathColon(p + (":" + rest)) == Some((p, rest))
  {
    TakeExact(p, ":" + rest, InPath);
    TagExact(":", rest);
  }

  /** Without a position the blank before the severity follows the path's colon. */
  lemma NoPosition(rest: string)
    ensures PositionRange(" " + rest).None?
  {
    var s := " " + rest;
    assert s[0] == ' ';
    assert Tag("(", s).None? by { assert s[..1] != "("; }
    assert SpanFrom(s, 0, IsDigit) == 0;
  }

  lemma NoLocationIsAPath()
    ensures IsPath(NO_LOCATION)
  {
  }

  /** The text of a diagnostic as the parser comes across it. */
  lemma PrintShape(d: Diagnostic, rest: string)
    ensures var severity := " " + (PrintSeverity(d.severity) + (":" + (Tail(d.message) + rest)));
      Print(d) + rest == PathText(d) + (":" + if d.span != ZERO then PrintSpan(d.span) + (":" + severity) else severity)
  {
    hide PrintSpan;
    hide PrintSeverity;
    hide PathText;
    var t0 := Tail(d.message);
    var t1 := ":" + t0;
    var t2 := PrintSeverity(d.severity) + t1;
    var t3 := ": " + t2;
    var at := if d.span != ZERO then ":" + PrintSpan(d.span) else "";
    Assoc(PathText(d), at + t3, rest);
    Assoc(at, t3, rest);
    Assoc(": ", t2, rest);
    Assoc(PrintSeverity(d.severity), t1, rest);
    Assoc(":", t0, rest);
    assert ": " + (t2 + rest) == ":" + (" " + (t2 + rest));
    Assoc(":", PrintSpan(d.span), ": " + (t2 + rest));
    assert "" + (t3 + rest) == t3 + rest;
  }

  /** One printed diagnostic is read back from the front of any text that does not continue its body. */
  lemma DiagnosticPrints(d: Diagnostic, rest: string)
    requires Printable(d) && EndsBody(rest)
    ensures GenericDiagnostic(Print(d) + rest) == Some((ReadBack(d), rest))
  {
    NoLocationIsAPath();
    PrintShape(d, rest);
    var s4 := Tail(d.message) + rest;
    var s3 := PrintSeverity(d.severity) + (":" + s4);
    var s2 := " " + s3;
    var s1 := if d.span != ZERO then PrintSpan(d.span) + (":" + s2) else s2;
    PathPrints(PathText(d), s1);
    SpanPrints(d.span, s2);
    NoPosition(s3);
    SeverityPrints(d.severity, s4);
    TakeExact(" ", s3, IsBlank);
    TailParses(d.message, rest);
    hide Print;
    hide PathColon;
    hide PositionRange;
    hide PrintSpan;
    hide SeverityColon;
    hide PrintSeverity;
    hide MessageBody;
    hide Tail;
    hide TakeSome;
    hide Space0;
    hide Printable;
  }

  // Whole files.

  datatype Message = Diag(diagnostic: Diagnostic) | Elsewhere(text: string)

  /** The alternatives other than the generic diagnostic, from their openings on: the two tried before it
      and those after it. Each returns messages and how much it consumed. */
  datatype Grammar = Grammar(
    compiling: string -> Option<(Message, nat)>,
    json: string -> Option<(Message, nat)>,
    later: string -> Option<(seq<Message>, nat)>)

  /** A progress line begins with a bracket, a JSON diagnostic, after blanks, with a brace. */
  function Earlier(g: Grammar, s: string): Option<(Message, nat)> {
    if s != "" && s[0] == '[' && g.compiling(s).Some? then g.compiling(s)
    else if Tag("{", Space0(s)).Some? then g.json(s)
    else None
  }

  /** How the compilation summary, the diagnostics without a location, the import cycle and the loaded
      configuration begin. */
  const OPENINGS: seq<string> := [
    "Ok, ", "Failed, ", "<no location info>:", "<compiler-generated code>:", "<interactive>:",
    "Module imports form a cycle:", "Module graph contains a cycle:", "Loaded GHCi configuration from "]

  function Later(g: Grammar, s: string): Option<(seq<Message>, nat)> {
    if exists i | 0 <= i < |OPENINGS| :: Tag(OPENINGS[i], s).Some? then g.later(s) else None
  }

  function Skip(s: string, n: nat): (rest: string)
    requires s != ""
    ensures |rest| < |s|
  {
    if 0 < n <= |s| then s[n..] else s[1..]
  }

  /** What the first alternative that matches makes of the front of a text. */
  function NextItem(g: Grammar, s: string): (r: Option<(seq<Message>, string)>)
    requires s != ""
    ensures r.Some? ==> |r.value.1| < |s|
  {
    match Earlier(g, s)
    case Some((m, n)) => Some(([m], Skip(s, n)))
    case None =>
      match GenericDiagnostic(s)
      case Some((d, rest)) => Some(([Diag(d)], rest))
      case None =>
        match Later(g, s)
        case Some((ms, n)) => Some((ms, Skip(s, n)))
        case None => match RestOfLine(s) case None => None case Some(n) => Some(([], s[n..]))
  }

  /** The whole text, or a failure if some of it is not recognised. */
  function ParseMessages(g: Grammar, s: string): Option<seq<Message>>
    decreases |s|
  {
    if s == "" then Some([])
    else match NextItem(g, s)
      case None => None
      case Some((ms, rest)) =>
        match ParseMessages(g, rest) case None => None case Some(more) => Some(ms + more)
  }

  /** Terminal escapes are taken out of the text first. */
  function ParseGhcMessages(g: Grammar, strip: string -> string, s: string): Option<seq<Message>> {
    ParseMessages(g, strip(s))
  }

  function PrintAll(ds: seq<Diagnostic>): string {
    if ds == [] then "" else Print(ds[0]) + PrintAll(ds[1..])
  }

  lemma FirstOfPrint(d: Diagnostic, rest: string)
    requires Printable(d)
    ensures Print(d) + rest != "" && (Print(d) + rest)[0] == PathText(d)[0] && IsPath(PathText(d))
  {
    NoLocationIsAPath();
  }

  lemma NotEarlier(g: Grammar, s: string)
    requires s != "" && !IsGutter(s[0]) && s[0] != '[' && s[0] != '{'
    ensures Earlier(g, s).None?
  {
    assert SpanFrom(s, 0, IsBlank) == 0 && s[0..] == s;
    assert s[..1] != "{";
  }

  lemma PrintAllEndsBody(ds: seq<Diagnostic>)
    requires forall i | 0 <= i < |ds| :: Printable(ds[i])
    ensures EndsBody(PrintAll(ds))
  {
    if ds != [] {
      FirstOfPrint(ds[0], PrintAll(ds[1..]));
    }
  }

  function ReadBackAll(ds: seq<Diagnostic>): seq<Message> {
    if ds == [] then [] else [Diag(ReadBack(ds[0]))] + ReadBackAll(ds[1..])
  }

  lemma FirstReadBack(g: Grammar, d: Diagnostic, rest: string)
    requires Printable(d) && EndsBody(rest)
    ensures ParseMessages(g, Print(d) + rest) ==
      match ParseMessages(g, rest) case None => None case Some(more) => Some([Diag(ReadBack(d))] + more)
  {
    FirstOfPrint(d, rest);
    NotEarlier(g, Print(d) + rest);
    DiagnosticPrints(d, rest);
    hide Print;
    hide GenericDiagnostic;
    hide Earlier;
    hide Printable;
    hide IsPath;
    hide EndsBody;
  }

  /** What follows printed diagnostics, if it does not continue the last of them, is parsed after them. */
  lemma {:induction false} AllReadBackBefore(g: Grammar, ds: seq<Diagnostic>, rest: string)
    requires (forall i | 0 <= i < |ds| :: Printable(ds[i])) && EndsBody(rest)
    ensures ParseMessages(g, PrintAll(ds) + rest) ==
      match ParseMessages(g, rest) case None => None case Some(more) => Some(ReadBackAll(ds) + more)
    decreases |ds|
  {
    hide ParseMessages;
    hide Print;
    hide Printable;
    hide EndsBody;
    if ds == [] {
      assert PrintAll(ds) + rest == rest;
      assert ParseMessages(g, rest).Some? ==> [] + ParseMessages(g, rest).value == ParseMessages(g, rest).value;
    } else {
      Assoc(Print(ds[0]), PrintAll(ds[1..]), rest);
      TailEndsBody(ds[1..], rest);
      FirstReadBack(g, ds[0], PrintAll(ds[1..]) + rest);
      AllReadBackBefore(g, ds[1..], rest);
      if ParseMessages(g, rest).Some? {
        Assoc([Diag(ReadBack(ds[0]))], ReadBackAll(ds[1..]), ParseMessages(g, rest).value);
      }
    }
  }

  lemma TailEndsBody(ds: seq<Diagnostic>, rest: string)
    requires (forall i | 0 <= i < |ds| :: Printable(ds[i])) && EndsBody(rest)
    ensures EndsBody(PrintAll(ds) + rest)
  {
    hide PrintAll;
    hide Printable;
    PrintAllEndsBody(ds);
    if PrintAll(ds) == "" {
      assert PrintAll(ds) + rest == rest;
    } else {
      assert (PrintAll(ds) + rest)[0] == PrintAll(ds)[0];
    }
  }

  /** Printed diagnostics put together are parsed to each of them, in order, and nothing else. */
  lemma AllReadBack(g: Grammar, ds: seq<Diagnostic>)
    requires forall i | 0 <= i < |ds| :: Printable(ds[i])
    ensures ParseMessages(g, PrintAll(ds)) == Some(ReadBackAll(ds))
  {
    AllReadBackBefore(g, ds, "");
    assert ParseMessages(g, "") == Some([]);
    hide *;
    assert PrintAll(ds) + "" == PrintAll(ds) && ReadBackAll(ds) + [] == ReadBackAll(ds);
  }

  predicate NeedsNoRepair(d: Diagnostic) {
    d.path.Some? && (d.message != "" ==> !IsBlank(d.message[0]))
  }

  lemma RepairedIffNeeded(d: Diagnostic)
    ensures ReadBack(d) == d <==> NeedsNoRepair(d)
  {
    var m := d.message;
    assert m[0..] == m;
    assert m != "" && IsBlank(m[0]) ==> |DropBlanks(m)| < |m|;
  }

  function AsMessages(ds: seq<Diagnostic>): seq<Message> {
    seq(|ds|, i requires 0 <= i < |ds| => Diag(ds[i]))
  }

  lemma AsMessagesIff(ds: seq<Diagnostic>)
    ensures ReadBackAll(ds) == AsMessages(ds) <==> forall i | 0 <= i < |ds| :: NeedsNoRepair(ds[i])
  {
    ReadBackAt(ds);
    hide NeedsNoRepair;
    hide ReadBack;
    forall i | 0 <= i < |ds| ensures ReadBack(ds[i]) == ds[i] <==> NeedsNoRepair(ds[i]) {
      RepairedIffNeeded(ds[i]);
    }
    if i :| 0 <= i < |ds| && !NeedsNoRepair(ds[i]) {
      assert ReadBackAll(ds)[i] != AsMessages(ds)[i];
    } else {
      assert ReadBackAll(ds) == AsMessages(ds);
    }
  }

  lemma {:induction false} ReadBackAt(ds: seq<Diagnostic>)
    ensures |ReadBackAll(ds)| == |ds| && forall i | 0 <= i < |ds| :: ReadBackAll(ds)[i] == Diag(ReadBack(ds[i]))
    decreases |ds|
  {
    if ds != [] {
      ReadBackAt(ds[1..]);
    }
  }

  // Escapes.

  /** The characters that a terminal does not show; the newline is kept. */
  predicate IsControl(c: char) {
    c != '\n' && (c < ' ' || '\U{80}' <= c <= '\U{9f}')
  }

  predicate Clean(s: string) {
    forall i | 0 <= i < |s| :: !IsControl(s[i])
  }

  /** `strip_ansi_escapes::strip_str`: no control character is left, and text without any stays as it is. */
  ghost predicate Strips(strip: string -> string) {
    forall s :: Clean(strip(s)) && (Clean(s) ==> strip(s) == s)
  }

  predicate CleanDiagnostic(d: Diagnostic) {
    (d.path.Some? ==> Clean(d.path.value)) && Clean(d.message)
  }

  predicate CleanMessages(ms: seq<Message>) {
    forall i | 0 <= i < |ms| && ms[i].Diag? :: CleanDiagnostic(ms[i].diagnostic)
  }

  /** What the other alternatives make of the front of a text. */
  function OtherMessages(g: Grammar, s: string): seq<Message> {
    match Earlier(g, s)
    case Some((m, _)) => [m]
    case None => match Later(g, s) case Some((ms, _)) => ms case None => []
  }

  /** Wherever they are tried in a text, the other alternatives give no control characters; a JSON
      diagnostic could, by escapes of its own. */
  predicate Literal(g: Grammar, s: string)
    decreases |s|
  {
    s != "" ==>
      CleanMessages(OtherMessages(g, s)) && (NextItem(g, s).Some? ==> Literal(g, NextItem(g, s).value.1))
  }

  lemma CleanJoin(a: string, b: string)
    ensures Clean(a + b) <==> Clean(a) && Clean(b)
  {
    var s := a + b;
    assert forall i | 0 <= i < |a| :: s[i] == a[i];
    assert forall i | 0 <= i < |b| :: s[|a| + i] == b[i];
  }

  lemma CleanTag(t: string, s: string)
    requires Clean(s)
    ensures var r := Tag(t, s); r.Some? ==> Clean(r.value)
  {
  }

  lemma CleanTake(s: string, p: char -> bool)
    requires Clean(s)
    ensures var r := TakeSome(s, p); r.Some? ==> Clean(r.value.0) && Clean(r.value.1)
  {
  }

  lemma CleanNumber(t: string, s: string)
    requires Clean(s)
    ensures Number(s).Some? ==> Clean(Number(s).value.1)
    ensures NumberThen(t, s).Some? ==> Clean(NumberThen(t, s).value.1)
  {
    hide Value;
    hide TakeSome;
    hide Tag;
    CleanTake(s, IsDigit);
    if Number(s).Some? {
      CleanTag(t, Number(s).value.1);
    }
  }

  lemma CleanFull(s: string)
    requires Clean(s)
    ensures FullRange(s).Some? ==> Clean(FullRange(s).value.1)
  {
    hide NumberThen;
    hide Tag;
    hide Clean;
    if FullRange(s).Some? {
      CleanTag("(", s);
      var s0 := Tag("(", s).value;
      CleanNumber(",", s0);
      var s1 := NumberThen(",", s0).value.1;
      CleanNumber(")-(", s1);
      var s2 := NumberThen(")-(", s1).value.1;
      CleanNumber(",", s2);
      CleanNumber("):", NumberThen(",", s2).value.1);
    }
  }

  lemma CleanLine(s: string)
    requires Clean(s)
    ensures LineRange(s).Some? ==> Clean(LineRange(s).value.1)
  {
    hide NumberThen;
    hide Number;
    hide Tag;
    hide Clean;
    if LineRange(s).Some? {
      CleanNumber(":", s);
      var s1 := NumberThen(":", s).value.1;
      CleanNumber(":", s1);
      var s2 := Number(s1).value.1;
      CleanTag("-", s2);
      CleanTag(":", s2);
      if Tag("-", s2).Some? {
        var after := Tag("-", s2).value;
        CleanNumber(":", after);
        if Number(after).Some? {
          CleanTag(":", Number(after).value.1);
        }
      }
    }
  }

  lemma CleanPath(s: string)
    requires Clean(s)
    ensures var r := PathColon(s); r.Some? ==> Clean(r.value.0) && Clean(r.value.1)
  {
    hide TakeSome;
    hide Tag;
    CleanTake(s, InPath);
    if TakeSome(s, InPath).Some? {
      CleanTag(":", TakeSome(s, InPath).value.1);
    }
  }

  lemma CleanSeverity(s: string)
    requires Clean(s)
    ensures var r := SeverityColon(s); r.Some? ==> Clean(r.value.1)
  {
    hide TakeSome;
    hide Tag;
    CleanTake(s, NotColon);
    if TakeSome(s, NotColon).Some? {
      CleanTag(":", TakeSome(s, NotColon).value.1);
    }
  }

  lemma CleanBody(s: string)
    requires Clean(s)
    ensures var r := MessageBody(s); r.Some? ==> Clean(r.value.0) && Clean(r.value.1)
  {
    hide RestOfLine;
    hide BodyLines;
  }

  /** The generic diagnostic is made of the text it was read from. */
  lemma CleanGeneric(s: string)
    requires Clean(s)
    ensures var r := GenericDiagnostic(s); r.Some? ==> CleanDiagnostic(r.value.0) && Clean(r.value.1)
  {
    hide PathColon;
    hide FullRange;
    hide LineRange;
    hide TakeSome;
    hide Space0;
    hide SeverityColon;
    hide MessageBody;
    hide Clean;
    if GenericDiagnostic(s).Some? {
      CleanPath(s);
      var s1 := PathColon(s).value.1;
      CleanFull(s1);
      CleanLine(s1);
      var s2 := match PositionRange(s1) case Some(r) => r.1 case None => s1;
      CleanTake(s2, IsBlank);
      var s3 := TakeSome(s2, IsBlank).value.1;
      CleanSeverity(s3);
      var s4 := SeverityColon(s3).value.1;
      CleanSpace(s4);
      CleanBody(Space0(s4));
    }
  }

  lemma CleanSpace(s: string)
    requires Clean(s)
    ensures Clean(Space0(s))
  {
  }

  lemma CleanItem(g: Grammar, s: string)
    requires s != "" && Clean(s) && CleanMessages(OtherMessages(g, s))
    ensures var r := NextItem(g, s); r.Some? ==> CleanMessages(r.value.0) && Clean(r.value.1)
  {
    hide Earlier;
    hide Later;
    hide GenericDiagnostic;
    hide RestOfLine;
    hide CleanDiagnostic;
    CleanGeneric(s);
  }

  lemma {:induction false} ParsedIsClean(g: Grammar, s: string)
    requires Clean(s) && Literal(g, s)
    ensures var r := ParseMessages(g, s); r.Some? ==> CleanMessages(r.value)
    decreases |s|
  {
    hide NextItem;
    hide OtherMessages;
    hide Clean;
    hide CleanDiagnostic;
    if s != "" && ParseMessages(g, s).Some? {
      CleanItem(g, s);
      var (ms, rest) := NextItem(g, s).value;
      ParsedIsClean(g, rest);
      assert ParseMessages(g, s).value == ms + ParseMessages(g, rest).value;
    }
  }

  lemma CleanDec(n: nat)
    ensures Clean(Dec(n))
  {
    DecParses(n);
  }

  lemma CleanSpan(span: Span)
    ensures Clean(PrintSpan(span))
  {
    hide Clean;
    hide Dec;
    var l1, c1, l2, c2 := Dec(span.start.line), Dec(span.start.column), Dec(span.end.line), Dec(span.end.column);
    CleanDec(span.start.line);
    CleanDec(span.start.column);
    CleanDec(span.end.line);
    CleanDec(span.end.column);
    CleanConstants();
    CleanJoin(":", c1);
    CleanJoin(l1, ":" + c1);
    CleanJoin("-", c2);
    CleanJoin(c1, "-" + c2);
    CleanJoin(":", c1 + ("-" + c2));
    CleanJoin(l1, ":" + (c1 + ("-" + c2)));
    CleanJoin(c2, ")");
    CleanJoin(",", c2 + ")");
    CleanJoin(l2, "," + (c2 + ")"));
    CleanJoin(")-(", l2 + ("," + (c2 + ")")));
    CleanJoin(c1, ")-(" + (l2 + ("," + (c2 + ")"))));
    CleanJoin(",", c1 + (")-(" + (l2 + ("," + (c2 + ")")))));
    CleanJoin(l1, "," + (c1 + (")-(" + (l2 + ("," + (c2 + ")"))))));
    CleanJoin("(", l1 + ("," + (c1 + (")-(" + (l2 + ("," + (c2 + ")")))))));
  }

  lemma CleanConstants()
    ensures Clean(":") && Clean("-") && Clean(",") && Clean("(") && Clean(")") && Clean(")-(") && Clean(": ")
    ensures Clean(" ") && Clean("") && Clean("warning") && Clean("error") && Clean(NO_LOCATION)
  {
  }

  /** Only the path and the message can put control characters into the printed text. */
  lemma CleanPrint(d: Diagnostic)
    ensures Clean(Print(d)) <==> CleanDiagnostic(d)
  {
    hide Clean;
    hide PrintSpan;
    CleanConstants();
    CleanSpan(d.span);
    var t0 := Tail(d.message);
    var t1 := ":" + t0;
    var t2 := PrintSeverity(d.severity) + t1;
    var t3 := ": " + t2;
    var at := if d.span != ZERO then ":" + PrintSpan(d.span) else "";
    CleanJoin(if d.message != "" && d.message[0] == '\n' then "" else " ", d.message);
    CleanJoin(":", t0);
    CleanJoin(PrintSeverity(d.severity), t1);
    CleanJoin(": ", t2);
    CleanJoin(":", PrintSpan(d.span));
    CleanJoin(at, t3);
    CleanJoin(PathText(d), at + t3);
  }

  lemma {:induction false} CleanPrintAll(ds: seq<Diagnostic>)
    ensures Clean(PrintAll(ds)) <==> forall i | 0 <= i < |ds| :: CleanDiagnostic(ds[i])
    decreases |ds|
  {
    hide Print;
    hide CleanDiagnostic;
    if ds != [] {
      CleanPrint(ds[0]);
      CleanPrintAll(ds[1..]);
      hide Clean;
      CleanJoin(Print(ds[0]), PrintAll(ds[1..]));
      assert ds == [ds[0]] + ds[1..];
    }
  }

  /** A file without terminal escapes holds each diagnostic, in order, and nothing else. */
  lemma FileReadsBack(g: Grammar, strip: string -> string, ds: seq<Diagnostic>)
    requires forall i | 0 <= i < |ds| :: Printable(ds[i])
    requires Strips(strip) && forall i | 0 <= i < |ds| :: CleanDiagnostic(ds[i])
    ensures ParseGhcMessages(g, strip, PrintAll(ds)) == Some(ReadBackAll(ds))
  {
    CleanPrintAll(ds);
    AllReadBack(g, ds);
  }

  lemma StripsIff(strip: string -> string, s: string)
    requires Strips(strip)
    ensures Clean(strip(s)) && (strip(s) == s <==> Clean(s))
  {
    hide Clean;
  }

  lemma NotAllClean(ds: seq<Diagnostic>)
    requires CleanMessages(AsMessages(ds))
    ensures forall i | 0 <= i < |ds| :: CleanDiagnostic(ds[i])
  {
    hide CleanDiagnostic;
    forall i | 0 <= i < |ds| ensures CleanDiagnostic(ds[i]) {
      assert AsMessages(ds)[i] == Diag(ds[i]);
    }
  }

  /** A file comes back unchanged exactly when there is nothing to strip from it, every diagnostic has a
      path and no message begins with a blank. */
  lemma RoundTripIff(g: Grammar, strip: string -> string, ds: seq<Diagnostic>)
    requires Strips(strip) && forall i | 0 <= i < |ds| :: Printable(ds[i])
    requires var s := strip(PrintAll(ds)); s != PrintAll(ds) ==> Literal(g, s)
    ensures ParseGhcMessages(g, strip, PrintAll(ds)) == Some(AsMessages(ds)) <==>
      strip(PrintAll(ds)) == PrintAll(ds) && forall i | 0 <= i < |ds| :: NeedsNoRepair(ds[i])
    ensures strip(PrintAll(ds)) == PrintAll(ds) <==> forall i | 0 <= i < |ds| :: CleanDiagnostic(ds[i])
  {
    hide PrintAll;
    hide ReadBackAll;
    hide ParseMessages;
    hide Printable;
    hide NeedsNoRepair;
    hide CleanDiagnostic;
    hide Literal;
    hide Clean;
    hide Strips;
    hide AsMessages;
    hide CleanMessages;
    var s := strip(PrintAll(ds));
    StripsIff(strip, PrintAll(ds));
    CleanPrintAll(ds);
    if s == PrintAll(ds) {
      AllReadBack(g, ds);
      AsMessagesIff(ds);
    } else {
      ParsedIsClean(g, s);
      if ParseMessages(g, s) == Some(AsMessages(ds)) {
        NotAllClean(ds);
      }
    }
  }

  /** A coloured message has a path and no leading blank, and yet does not come back as it was. */
  lemma ColourIsLost(g: Grammar, strip: string -> string)
    requires Strips(strip)
    ensures var d := Diagnostic(Error, Some("a.hs"), ZERO, "x\U{1b}[31my\n");
      Printable(d) && NeedsNoRepair(d)
      && (Literal(g, strip(PrintAll([d]))) ==>
        ParseGhcMessages(g, strip, PrintAll([d])) != Some(AsMessages([d])))
  {
    var m := "x\U{1b}[31my\n";
    var d := Diagnostic(Error, Some("a.hs"), ZERO, m);
    ColouredLines(m);
    assert IsControl(m[1]);
    assert !CleanDiagnostic(d);
    assert IsPath("a.hs");
    hide LinesOf;
    assert IsMessage(m);
    hide *;
    assert [d][0] == d;
    if Literal(g, strip(PrintAll([d]))) {
      OneComesBack(g, strip, d);
    }
  }

  lemma OneComesBack(g: Grammar, strip: string -> string, d: Diagnostic)
    requires Strips(strip) && Printable(d) && !CleanDiagnostic(d) && Literal(g, strip(PrintAll([d])))
    ensures ParseGhcMessages(g, strip, PrintAll([d])) != Some(AsMessages([d]))
  {
    hide *;
    RoundTripIff(g, strip, [d]);
    assert [d][0] == d;
  }

  lemma ColouredLines(m: string)
    requires m == "x\U{1b}[31my\n"
    ensures LinesOf(m) == ["x\U{1b}[31my"] && IsBody(LinesOf(m))
  {
    var line := "x\U{1b}[31my";
    assert IsPlain(line) && IsLine(line);
    assert m == line + "\n" + "";
    PiecesLine(line, "");
    PiecesNone("");
    hide Pieces;
    assert Pieces(m) == [line, ""];
  }
}
