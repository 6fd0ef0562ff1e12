/** The error file (src/ghci/error_log.rs): what one write puts in it, and what an editor that reads
    it as GHC output gets back. */
module ErrorLogs {
  import opened Basics
  import opened Lines
  import opened Diagnostics

  datatype Loaded = Count(n: nat) | All

  datatype Summary = Summary(ok: bool, loaded: Loaded)

  datatype CompilationLog = CompilationLog(
    summary: Option<Summary>,
    diagnostics: seq<Diagnostic>,
    stdoutDiagnostics: seq<Diagnostic>,
    stderr: string)

  const U64: nat := 0x1_0000_0000_0000_0000

  function LoadedText(l: Loaded): string {
    match l case Count(n) => Dec(n) case All => "all"
  }

  function AllGood(l: Loaded): string {
    "All good (" + LoadedText(l) + (if l == Count(1) then " module" else " modules") + ")"
  }

  function Headline(s: Option<Summary>): string {
    if s.Some? && s.value.ok then AllGood(s.value.loaded) + "\n" else ""
  }

  function Shown(log: CompilationLog): seq<Diagnostic> {
    if log.stderr == "" then log.diagnostics else log.stdoutDiagnostics
  }

  function FileText(log: CompilationLog): string {
    Headline(log.summary) + PrintAll(Shown(log)) + log.stderr
  }

  class ErrorLog {
    const path: Option<string>
    var tempNonce: nat
    /** The text under the log's own path, and the one under the temporary name. */
    var published: string
    var temporary: string
    /** How many more operations on the disk succeed. */
    var room: nat

    constructor (path: Option<string>, published: string, room: nat)
      ensures this.path == path && tempNonce == 0 && this.published == published && this.room == room
    {
      this.path := path;
      tempNonce, temporary := 0, "";
      this.published, this.room := published, room;
    }

    method Disk() returns (ok: bool)
      modifies `room
      ensures ok == (old(room) > 0) && (ok ==> room == old(room) - 1)
    {
      ok := room > 0;
      if ok { room := room - 1; }
    }

    method WriteAll(text: string) returns (ok: bool)
      modifies `room, `temporary
      ensures ok == (old(room) > 0) && (ok ==> room == old(room) - 1 && temporary == old(temporary) + text)
    {
      ok := Disk();
      if ok { temporary := temporary + text; }
    }

    method WriteEach(diagnostics: seq<Diagnostic>) returns (ok: bool)
      modifies `room, `temporary
      ensures ok == (old(room) >= |diagnostics|)
      ensures ok ==> room == old(room) - |diagnostics| && temporary == old(temporary) + PrintAll(diagnostics)
    {
      hide Print;
      assert diagnostics[..0] == [] && temporary == temporary + "";
      for i := 0 to |diagnostics|
        invariant temporary == old(temporary) + PrintAll(diagnostics[..i])
        invariant old(room) == room + i
      {
        ok := WriteAll(Print(diagnostics[i]));
        if !ok { return; }
        assert diagnostics[..i + 1] == diagnostics[..i] + [diagnostics[i]];
        PrintAllSnoc(diagnostics[..i], diagnostics[i]);
        Assoc(old(temporary), PrintAll(diagnostics[..i]), Print(diagnostics[i]));
      }
      assert diagnostics[..|diagnostics|] == diagnostics;
      ok := true;
    }

    /** The published file is replaced as a whole or, when anything fails, not at all. */
    method Write(log: CompilationLog) returns (ok: bool)
      modifies this
      ensures published == if path.Some? && ok then FileText(log) else old(published)
      ensures path.None? ==> ok && tempNonce == old(tempNonce)
      ensures path.Some? ==> tempNonce == (old(tempNonce) + 1) % U64
      ensures path.Some? ==> ok == (old(room) >= 4 + |Shown(log)| + if Headline(log.summary) != "" then 1 else 0)
    {
      hide PrintAll;
      hide AllGood;
      if path.None? { return true; }
      tempNonce := (tempNonce + 1) % U64;
      ok := Disk();
      if !ok { return; }
      temporary := "";
      if log.summary.Some? {
        if log.summary.value.ok {
          ok := WriteAll(AllGood(log.summary.value.loaded) + "\n");
          if !ok { return; }
        }
      }
      ok := WriteEach(if log.stderr == "" then log.diagnostics else log.stdoutDiagnostics);
      if !ok { return; }
      ok := WriteAll(log.stderr);
      if !ok { return; }
      ok := Disk();
      if !ok { return; }
      ok := Disk();
      if !ok { return; }
      published := temporary;
    }
  }

  lemma {:induction false} PrintAllSnoc(ds: seq<Diagnostic>, d: Diagnostic)
    ensures PrintAll(ds + [d]) == PrintAll(ds) + Print(d)
  {
    hide Print;
    if ds != [] {
      PrintAllSnoc(ds[1..], d);
      assert (ds + [d])[1..] == ds[1..] + [d];
      Assoc(Print(ds[0]), PrintAll(ds[1..]), Print(d));
    }
  }

  lemma AllGoodInPath(l: Loaded)
    ensures forall j | 0 <= j < |AllGood(l)| :: InPath(AllGood(l)[j]) && NotEnding(AllGood(l)[j])
  {
    if l.Count? {
      DecParses(l.n);
    }
    var t := LoadedText(l);
    assert forall j | 0 <= j < |t| :: InPath(t[j]) && NotEnding(t[j]);
    hide LoadedText;
    JoinClear("All good (", t);
    JoinClear("All good (" + t, if l == Count(1) then " module" else " modules");
    JoinClear("All good (" + t + (if l == Count(1) then " module" else " modules"), ")");
  }

  lemma JoinClear(a: string, b: string)
    requires forall j | 0 <= j < |a| :: InPath(a[j]) && NotEnding(a[j])
    requires forall j | 0 <= j < |b| :: InPath(b[j]) && NotEnding(b[j])
    ensures forall j | 0 <= j < |a + b| :: InPath((a + b)[j]) && NotEnding((a + b)[j])
  {
  }

  lemma AllGoodIsPlain(l: Loaded)
    ensures IsPlain(AllGood(l)) && IsLine(AllGood(l)) && AllGood(l)[0] == 'A'
  {
    AllGoodInPath(l);
  }

  /** No colon comes before the end of the line. */
  lemma NotADiagnostic(p: string, rest: string)
    requires p != "" && forall j | 0 <= j < |p| :: InPath(p[j])
    ensures GenericDiagnostic(p + ("\n" + rest)).None?
  {
    TakeExact(p, "\n" + rest, InPath);
    assert ("\n" + rest)[..1] != ":";
  }

  lemma NotLater(g: Grammar, s: string)
    requires s != "" && s[0] == 'A'
    ensures Later(g, s).None?
  {
    forall i | 0 <= i < |OPENINGS| ensures Tag(OPENINGS[i], s).None? {
      assert OPENINGS[i] != "" && OPENINGS[i][0] != 'A';
    }
  }

  lemma AllGoodIsClean(l: Loaded)
    ensures Clean(Headline(Some(Summary(true, l))))
  {
    if l.Count? {
      CleanDec(l.n);
    }
    var t, end := LoadedText(l), if l == Count(1) then " module" else " modules";
    assert Clean("All good (") && Clean(t) && Clean(end) && Clean(")") && Clean("\n");
    hide Clean;
    hide LoadedText;
    CleanJoin("All good (", t);
    CleanJoin("All good (" + t, end);
    CleanJoin("All good (" + t + end, ")");
    CleanJoin(AllGood(l), "\n");
  }

  /** The headline is no message, and hides none. */
  lemma HeadlineIsSkipped(g: Grammar, l: Loaded, rest: string)
    ensures ParseMessages(g, AllGood(l) + "\n" + rest) == ParseMessages(g, rest)
  {
    var s := AllGood(l) + "\n" + rest;
    AllGoodIsPlain(l);
    AllGoodInPath(l);
    Assoc(AllGood(l), "\n", rest);
    assert s[0] == 'A';
    NotEarlier(g, s);
    NotLater(g, s);
    NotADiagnostic(AllGood(l), rest);
    RestOfPlain(AllGood(l), rest);
    assert s[|AllGood(l)| + 1..] == rest;
    hide AllGood;
    hide GenericDiagnostic;
    hide Earlier;
    hide Later;
    hide RestOfLine;
    assert NextItem(g, s) == Some(([], rest));
    if ParseMessages(g, rest).Some? {
      assert [] + ParseMessages(g, rest).value == ParseMessages(g, rest).value;
    }
  }

  /** Without raw stderr, whatever the summary, the written file holds exactly the diagnostics, if they
      hold no terminal escapes. */
  lemma WrittenFileReadsBack(g: Grammar, strip: string -> string, log: CompilationLog)
    requires Strips(strip) && log.stderr == ""
    requires forall i | 0 <= i < |log.diagnostics| ::
      Printable(log.diagnostics[i]) && CleanDiagnostic(log.diagnostics[i])
    ensures ParseGhcMessages(g, strip, FileText(log)) == Some(ReadBackAll(log.diagnostics))
  {
    var head, body := Headline(log.summary), PrintAll(log.diagnostics);
    assert FileText(log) == head + body;
    CleanPrintAll(log.diagnostics);
    CleanJoin(head, body);
    AllReadBack(g, log.diagnostics);
    if head != "" {
      AllGoodIsClean(log.summary.value.loaded);
      HeadlineIsSkipped(g, log.summary.value.loaded, body);
      assert log.summary == Some(Summary(true, log.summary.value.loaded));
    } else {
      assert FileText(log) == body;
    }
    hide *;
    StripsIff(strip, FileText(log));
  }

  /** With raw stderr, the written file holds the diagnostics of stdout alone, and then whatever stderr itself
      is read as: nothing said there is read twice. */
  lemma StderrReadsBack(g: Grammar, strip: string -> string, log: CompilationLog)
    requires Strips(strip) && log.stderr != "" && Clean(log.stderr) && EndsBody(log.stderr)
    requires forall i | 0 <= i < |log.stdoutDiagnostics| ::
      Printable(log.stdoutDiagnostics[i]) && CleanDiagnostic(log.stdoutDiagnostics[i])
    ensures ParseGhcMessages(g, strip, FileText(log)) ==
      match ParseMessages(g, log.stderr)
      case None => None
      case Some(more) => Some(ReadBackAll(log.stdoutDiagnostics) + more)
    ensures log.stderr == FileText(log)[|FileText(log)| - |log.stderr|..]
  {
    var head, body, tail := Headline(log.summary), PrintAll(log.stdoutDiagnostics), log.stderr;
    assert FileText(log) == head + body + tail;
    Assoc(head, body, tail);
    assert (head + body + tail)[|head + body|..] == tail;
    CleanPrintAll(log.stdoutDiagnostics);
    CleanJoin(body, tail);
    CleanJoin(head, body + tail);
    AllReadBackBefore(g, log.stdoutDiagnostics, tail);
    if head != "" {
      AllGoodIsClean(log.summary.value.loaded);
      HeadlineIsSkipped(g, log.summary.value.loaded, body + tail);
      assert log.summary == Some(Summary(true, log.summary.value.loaded));
    } else {
      assert FileText(log) == body + tail;
    }
    hide *;
    StripsIff(strip, FileText(log));
  }
}
