/** The stderr of a session (src/ghci/stderr.rs): what is shown, and what is handed out up to a
    synchronization marker. */
module Stderr {
  import opened Basics
  import opened Lines

  // Markers in lines.

  /** The first occurrence of `m` from `i` on. */
  function IndexFrom(s: string, m: string, i: nat): (r: Option<nat>)
    ensures r.Some? ==> i <= r.value && OccursAt(s, m, r.value)
    ensures forall j | i <= j && OccursAt(s, m, j) :: r.Some? && r.value <= j
    decreases |s| - i
  {
    if OccursAt(s, m, i) then Some(i) else if i < |s| then IndexFrom(s, m, i + 1) else None
  }

  /** The text around the first occurrence of the marker. */
  function LineWithoutMarker(line: string, marker: string): Option<string> {
    match IndexFrom(line, marker, 0) case None => None case Some(i) => Some(line[..i] + line[i + |marker|..])
  }

  /** A marker that does not overlap the text around it is taken out of the middle of it. */
  lemma SplicedTextIsKept(before: string, marker: string, after: string)
    requires forall j | 0 <= j < |before| :: !OccursAt(before + marker + after, marker, j)
    ensures LineWithoutMarker(before + marker + after, marker) == Some(before + after)
  {
    var line := before + marker + after;
    assert line[|before|..|before| + |marker|] == marker;
    assert OccursAt(line, marker, |before|);
    var i := IndexFrom(line, marker, 0).value;
    assert i == |before|;
    assert line[..i] == before && line[i + |marker|..] == after;
  }

  // Lines up to a marker.

  /** How many lines come before the first one with the marker. */
  function LinesBefore(lines: seq<string>, marker: string): (k: nat)
    ensures k <= |lines|
    ensures k < |lines| ==> LineWithoutMarker(lines[k], marker).Some?
    ensures forall i | 0 <= i < k :: LineWithoutMarker(lines[i], marker).None?
  {
    if lines == [] || LineWithoutMarker(lines[0], marker).Some? then 0 else 1 + LinesBefore(lines[1..], marker)
  }

  /** What a request for the output up to a marker takes in: the lines before it, and the text it was
      spliced into. */
  function Through(lines: seq<string>, marker: string): seq<string> {
    var k := LinesBefore(lines, marker);
    if k == |lines| then lines
    else
      var rest := LineWithoutMarker(lines[k], marker).value;
      lines[..k] + if rest == "" then [] else [rest]
  }

  datatype Reply = Sent(text: string) | Cancelled | Closed

  class GhciStderr {
    /** Whether a line holds an error diagnostic. */
    const isError: string -> bool
    var incoming: seq<string>
    var buffer: string
    var suppressed: string
    var forwarding: bool
    var written: string
    /** An operation to be told of the next error, and how many were told. */
    var armed: bool
    var notified: nat
    /** Everything taken in, in order: `shown` as far as it was not deliberately dropped, and
        `unread` since the buffer was last handed out or cleared. */
    ghost var shown: string
    ghost var unread: string

    ghost predicate Valid()
      reads `buffer, `unread, `forwarding, `written, `suppressed, `shown
    {
      buffer == unread && (if forwarding then written else written + suppressed) == shown
    }

    constructor (isError: string -> bool, incoming: seq<string>)
      ensures Valid() && this.isError == isError && this.incoming == incoming
      ensures forwarding && written == "" && buffer == "" && !armed && notified == 0 && shown == unread == ""
    {
      this.isError, this.incoming := isError, incoming;
      buffer, suppressed, written, shown, unread := "", "", "", "", "";
      forwarding, armed, notified := true, false, 0;
    }

    method IngestLine(line: string)
      requires Valid()
      modifies this
      ensures Valid() && incoming == old(incoming) && forwarding == old(forwarding)
      ensures shown == old(shown) + (line + "\n") && unread == old(unread) + (line + "\n")
      ensures !forwarding ==> written == old(written)
      ensures var told := old(armed) && isError(line + "\n");
        armed == (old(armed) && !told) && notified == old(notified) + (if told then 1 else 0)
    {
      var text := line + "\n";
      if isError(text) {
        if armed { armed, notified := false, notified + 1; }
      }
      Assoc(written, suppressed, text);
      buffer := buffer + text;
      if !forwarding {
        suppressed := suppressed + text;
      }
      if forwarding {
        written := written + text;
      }
      shown, unread := shown + text, unread + text;
    }

    method ClearBuffer()
      requires Valid()
      modifies `buffer, `unread
      ensures Valid() && unread == ""
    {
      buffer, unread := "", "";
    }

    /** Enabling with a replay shows, in order and once, what was held back; without one it is dropped. */
    method SetForwarding(enabled: bool, replayBuffer: bool)
      requires Valid()
      modifies `forwarding, `suppressed, `written, `shown
      ensures Valid() && forwarding == enabled
      ensures enabled && replayBuffer ==> written == old(shown)
      ensures shown == if enabled && !old(forwarding) && !replayBuffer then old(written) else old(shown)
      ensures !enabled ==> written == old(written)
    {
      if enabled && !forwarding {
        if replayBuffer {
          written := written + suppressed;
        } else {
          shown := written;
        }
        suppressed := "";
      } else if !enabled && forwarding {
        suppressed := "";
        assert written + "" == written;
      }
      forwarding := enabled;
    }

    /** Takes in lines up to the marker and hands out everything since the last hand-out. The caller
        may go away after `patience` lines; then nothing is handed out and nothing is lost. */
    method GetBufferThrough(marker: string, patience: nat) returns (reply: Reply, taken: nat)
      requires Valid()
      modifies this
      ensures Valid() && forwarding == old(forwarding)
      ensures var k := LinesBefore(old(incoming), marker);
        reply == if k < |old(incoming)| && k < patience then Sent(old(unread) + Unlines(Through(old(incoming), marker)))
                 else if patience <= k then Cancelled else Closed
      ensures reply.Sent? ==> unread == "" && incoming == old(incoming)[LinesBefore(old(incoming), marker) + 1..]
      ensures reply.Sent? ==> shown == old(shown) + Unlines(Through(old(incoming), marker))
      ensures !reply.Sent? ==> taken <= |old(incoming)| && incoming == old(incoming)[taken..]
      ensures !reply.Sent? ==> unread == old(unread) + Unlines(old(incoming)[..taken])
      ensures !reply.Sent? ==> shown == old(shown) + Unlines(old(incoming)[..taken])
    {
      hide *;
      ghost var all, unread0, shown0 := incoming, unread, shown;
      taken := 0;
      NothingTaken(all);
      while true
        invariant Valid() && forwarding == old(forwarding)
        invariant taken <= LinesBefore(all, marker) && taken <= patience && taken <= |all| && incoming == all[taken..]
        invariant unread == unread0 + Unlines(all[..taken]) && shown == shown0 + Unlines(all[..taken])
        decreases |incoming|
      {
        if taken == patience { return Cancelled, taken; }
        if incoming == [] { return Closed, taken; }
        MarkerHere(all, marker, taken);
        var diagnosticLine := LineWithoutMarker(incoming[0], marker);
        if diagnosticLine.Some? {
          WithSpliced(all[..taken], diagnosticLine.value, unread0);
          WithSpliced(all[..taken], diagnosticLine.value, shown0);
          incoming := incoming[1..];
          if diagnosticLine.value != "" {
            IngestLine(diagnosticLine.value);
          }
          break;
        }
        IngestNext(all, taken, unread0, shown0);
        taken := taken + 1;
      }
      reply := HandOut();
    }

    method HandOut() returns (reply: Reply)
      requires Valid()
      modifies `buffer, `unread
      ensures Valid() && unread == "" && reply == Sent(old(unread))
    {
      reply := Sent(buffer);
      buffer, unread := "", "";
    }

    /** After the process has gone: everything there is. */
    method DrainBuffer() returns (text: string)
      requires Valid()
      modifies this
      ensures Valid() && incoming == [] && forwarding == old(forwarding)
      ensures text == unread == old(unread) + Unlines(old(incoming)) && shown == old(shown) + Unlines(old(incoming))
    {
      hide *;
      ghost var all, n, unread0, shown0 := incoming, 0, unread, shown;
      NothingTaken(all);
      while incoming != []
        invariant Valid() && forwarding == old(forwarding) && n <= |all| && incoming == all[n..]
        invariant unread == unread0 + Unlines(all[..n]) && shown == shown0 + Unlines(all[..n])
        decreases |incoming|
      {
        IngestNext(all, n, unread0, shown0);
        n := n + 1;
      }
      assert all[..n] == all;
      text := Everything();
    }

    method Everything() returns (text: string)
      requires Valid()
      ensures text == unread
    {
      text := buffer;
    }

    /** Reads and takes in the next line, which is number `n` of all. */
    method IngestNext(ghost all: seq<string>, ghost n: nat, ghost unread0: string, ghost shown0: string)
      requires Valid() && n < |all| && incoming == all[n..]
      requires unread == unread0 + Unlines(all[..n]) && shown == shown0 + Unlines(all[..n])
      modifies this
      ensures Valid() && forwarding == old(forwarding) && incoming == all[n + 1..]
      ensures unread == unread0 + Unlines(all[..n + 1]) && shown == shown0 + Unlines(all[..n + 1])
    {
      hide *;
      OneMoreLine(all, n, unread0);
      OneMoreLine(all, n, shown0);
      assert all[n..][1..] == all[n + 1..];
      var line := incoming[0];
      incoming := incoming[1..];
      IngestLine(line);
    }
  }

  lemma NothingTaken(all: seq<string>)
    ensures all[..0] == [] && all[0..] == all && Unlines([]) == ""
    ensures forall s: string :: s + "" == s
  {
  }

  lemma MarkerHere(all: seq<string>, marker: string, n: nat)
    requires n <= LinesBefore(all, marker) && n < |all|
    ensures var line := LineWithoutMarker(all[n], marker);
      && (line.Some? <==> n == LinesBefore(all, marker))
      && (line.Some? ==> Through(all, marker) == all[..n] + if line.value == "" then [] else [line.value])
  {
  }

  lemma OneMoreLine(all: seq<string>, n: nat, before: string)
    requires n < |all|
    ensures before + Unlines(all[..n]) + (all[n] + "\n") == before + Unlines(all[..n + 1])
  {
    assert all[..n + 1] == all[..n] + [all[n]];
    UnlinesSnoc(all[..n], all[n]);
    Assoc(before, Unlines(all[..n]), all[n] + "\n");
    Assoc(Unlines(all[..n]), all[n], "\n");
  }

  lemma WithSpliced(lines: seq<string>, rest: string, before: string)
    ensures before + Unlines(lines + if rest == "" then [] else [rest])
         == before + Unlines(lines) + if rest == "" then "" else rest + "\n"
  {
    if rest == "" {
      assert lines + [] == lines;
    } else {
      UnlinesSnoc(lines, rest);
      Assoc(before, Unlines(lines), rest + "\n");
      Assoc(Unlines(lines), rest, "\n");
    }
  }
}
