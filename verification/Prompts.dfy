/** The prompt and stderr protocol between ghciwatch and GHCi (src/ghci/mod.rs `sync_barrier`,
    src/ghci/stdin.rs, src/ghci/stdout.rs, src/ghci/stderr.rs). GHCi reads its input lines in order
    and prints its current prompt once after each; it runs concurrently, as does the reader that
    collects stderr. */
module Prompts {
  import opened Basics

  datatype Prompt = Normal | Sync(nonce: nat)

  datatype Command = SetPrompt(prompt: Prompt) | PrintMarker(nonce: nat) | Other

  /** What a command prints on stdout before the next prompt: nothing, whole lines, or text that ends
      within a line. Prompts end in no newline, so after nothing the next prompt stands on the line of
      the one before. */
  datatype Printed = Nothing | FullLines | Dangling

  /** An input line, numbered in the order written, with what it will say on stderr. */
  datatype Line = Line(index: nat, command: Command, printed: Printed, diagnostics: seq<string>)

  /** A prompt on stdout, the input line it answers, and what stands before it. */
  datatype Token = Token(shown: Prompt, answers: nat, after: Printed)

  /** Setting a prompt and printing a marker on stderr print nothing on stdout. */
  function PrintedBy(command: Command, printed: Printed): Printed {
    if command.Other? then printed else Nothing
  }

  datatype ErrItem = Text(text: string) | Marker(nonce: nat)

  /** What a command says: on stdout, and on stderr. */
  datatype Reply = Reply(printed: Printed, diagnostics: seq<string>)

  function PromptAfter(prompt: Prompt, line: Line): Prompt {
    if line.command.SetPrompt? then line.command.prompt else prompt
  }

  function Texts(texts: seq<string>): seq<ErrItem> {
    seq(|texts|, i requires 0 <= i < |texts| => Text(texts[i]))
  }

  function Says(line: Line): seq<ErrItem> {
    Texts(line.diagnostics) + if line.command.PrintMarker? then [Marker(line.command.nonce)] else []
  }

  /** The prompts GHCi is going to print, the prompt it will be left with, and its stderr. */
  function Due(prompt: Prompt, input: seq<Line>): seq<Token>
    decreases |input|
  {
    if input == [] then []
    else
      var next := PromptAfter(prompt, input[0]);
      [Token(next, input[0].index, input[0].printed)] + Due(next, input[1..])
  }

  function Final(prompt: Prompt, input: seq<Line>): Prompt
    decreases |input|
  {
    if input == [] then prompt else Final(PromptAfter(prompt, input[0]), input[1..])
  }

  function Said(input: seq<Line>): seq<ErrItem> {
    if input == [] then [] else Says(input[0]) + Said(input[1..])
  }

  lemma {:induction false} OneMore(prompt: Prompt, input: seq<Line>, line: Line)
    ensures Due(prompt, input + [line])
         == Due(prompt, input) + [Token(PromptAfter(Final(prompt, input), line), line.index, line.printed)]
    ensures Final(prompt, input + [line]) == PromptAfter(Final(prompt, input), line)
    ensures Said(input + [line]) == Said(input) + Says(line)
    decreases |input|
  {
    if input == [] {
      assert [] + [line] == [line] && [line][1..] == [];
      assert Said([line]) == Says(line) + [] == Says(line);
    } else {
      assert (input + [line])[1..] == input[1..] + [line];
      OneMore(PromptAfter(prompt, input[0]), input[1..], line);
      Assoc(Says(input[0]), Said(input[1..]), Says(line));
    }
  }

  /** Where a prompt is recognised. */
  datatype FindAt = LineStart | Anywhere

  /** Whether the `i`-th unread prompt is the one looked for. At the start of a line stands a prompt
      after whole lines, and the first unread one if nothing was printed before it and nothing of a line
      is left over. */
  predicate Matches(tokens: seq<Token>, i: nat, p: Prompt, find: FindAt, cut: bool)
    requires i < |tokens|
  {
    tokens[i].shown == p &&
    (find == Anywhere || tokens[i].after == FullLines || (tokens[i].after == Nothing && i == 0 && !cut))
  }

  predicate Shows(tokens: seq<Token>, n: nat, p: Prompt, find: FindAt, cut: bool)
    requires n <= |tokens|
  {
    exists i | 0 <= i < n :: Matches(tokens, i, p, find, cut)
  }

  /** Unread prompts as a wait divides them: those passed over, the one recognised, those dropped with
      it, and those left. */
  datatype Pick = Pick(skipped: seq<Token>, got: Token, dropped: seq<Token>, rest: seq<Token>)

  /** The first prompt recognised is taken; with it goes what has arrived of its line: prompts after it,
      none of which begins a line. */
  predicate Found(tokens: seq<Token>, p: Prompt, find: FindAt, cut: bool, pick: Pick) {
    && tokens == pick.skipped + [pick.got] + pick.dropped + pick.rest
    && Matches(tokens, |pick.skipped|, p, find, cut) && !Shows(tokens, |pick.skipped|, p, find, cut)
    && forall i | 0 <= i < |pick.dropped| :: pick.dropped[i].after != FullLines
  }

  lemma FirstIsUnique(tokens: seq<Token>, p: Prompt, find: FindAt, cut: bool, n: nat, pick: Pick)
    requires n < |tokens| && Matches(tokens, n, p, find, cut) && !Shows(tokens, n, p, find, cut)
    requires Found(tokens, p, find, cut, pick)
    ensures pick.skipped == tokens[..n] && pick.got == tokens[n] && pick.dropped + pick.rest == tokens[n + 1..]
  {
    var m := |pick.skipped|;
    assert m == n;
    assert tokens[m] == pick.got && tokens[..m] == pick.skipped && tokens[m + 1..] == pick.dropped + pick.rest;
  }

  lemma NextToken(all: seq<Token>, skipped: seq<Token>, token: Token, rest: seq<Token>, p: Prompt, find: FindAt,
                  cut: bool)
    requires all == skipped + ([token] + rest) && !Shows(all, |skipped|, p, find, cut)
    ensures all == (skipped + [token]) + rest
    ensures Matches(all, |skipped|, p, find, cut) <==> (
      token.shown == p
      && (find == Anywhere || token.after == FullLines || (token.after == Nothing && skipped == [] && !cut)))
    ensures !Matches(all, |skipped|, p, find, cut) ==> !Shows(all, |skipped| + 1, p, find, cut)
  {
    Assoc(skipped, [token], rest);
    assert all[|skipped|] == token;
  }

  lemma IsFound(all: seq<Token>, skipped: seq<Token>, token: Token, dropped: seq<Token>, rest: seq<Token>, p: Prompt,
                find: FindAt, cut: bool)
    requires all == (skipped + [token]) + (dropped + rest)
    requires Matches(all, |skipped|, p, find, cut) && !Shows(all, |skipped|, p, find, cut)
    requires forall i | 0 <= i < |dropped| :: dropped[i].after != FullLines
    ensures Found(all, p, find, cut, Pick(skipped, token, dropped, rest))
  {
    Assoc(skipped + [token], dropped, rest);
  }

  /** The session as ghciwatch sees it: what it has not read yet, whether printed or still due. */
  datatype View = View(tokens: seq<Token>, prompt: Prompt, stderr: seq<ErrItem>)

  /** A session at some moment, for comparison with a later one. */
  datatype Moment = Moment(seen: View, collecting: Option<nat>, held: bool, written: nat, syncNonce: nat,
                           stderrNonce: nat, cut: bool, timeouts: nat)

  class Session {
    // GHCi's side.
    var input: seq<Line>
    var prompt: Prompt
    var output: seq<Token>
    /** Whether the rest of a prompt that was dropped in part is still to be read. */
    var cut: bool
    var errPipe: seq<ErrItem>
    // The stderr task.
    var errBuffer: seq<ErrItem>
    var collecting: Option<nat>
    // ghciwatch's side.
    var written: nat
    var syncNonce: nat
    var stderrNonce: nat
    /** How often waiting was given up although more could come. */
    ghost var timeouts: nat

    function Seen(): View
      reads this
    {
      View(output + Due(prompt, input), Final(prompt, input), errBuffer + errPipe + Said(input))
    }

    ghost function Now(): Moment
      reads this
    {
      Moment(Seen(), collecting, Held(), written, syncNonce, stderrNonce, cut, timeouts)
    }

    /** Since then nothing was written, read or handed over; GHCi and the stderr task may have gone on. */
    ghost predicate OnlyTime(was: Moment)
      reads this
    {
      Seen() == was.seen && collecting == was.collecting && (was.held ==> Held())
      && written == was.written && syncNonce == was.syncNonce && stderrNonce == was.stderrNonce && cut == was.cut
      && timeouts == was.timeouts
    }

    /** The stderr task has not run past the marker it is waiting for. */
    predicate Held()
      reads this
    {
      collecting.Some? ==> Marker(collecting.value) !in errBuffer
    }

    function Work(): nat
      reads this
    {
      2 * |input| + |output|
    }

    /** GHCi executes its next input line. */
    method Execute()
      requires input != []
      modifies this
      ensures OnlyTime(old(Now())) && Work() < old(Work()) && input == old(input)[1..]
      ensures output == old(output) + [Token(prompt, old(input)[0].index, old(input)[0].printed)]
      ensures errBuffer == old(errBuffer)
    {
      var line := input[0];
      Assoc(output, [Token(PromptAfter(prompt, line), line.index, line.printed)],
            Due(PromptAfter(prompt, line), input[1..]));
      Assoc(errBuffer, errPipe, Says(line));
      Assoc(errBuffer + errPipe, Says(line), Said(input[1..]));
      prompt := PromptAfter(prompt, line);
      output := output + [Token(prompt, line.index, line.printed)];
      errPipe := errPipe + Says(line);
      input := input[1..];
    }

    /** The stderr task reads a line, unless it is the marker it is waiting for. */
    method Ingest()
      requires errPipe != [] && (collecting.Some? ==> errPipe[0] != Marker(collecting.value))
      modifies this
      ensures OnlyTime(old(Now())) && Work() == old(Work()) && |errPipe| < |old(errPipe)|
      ensures input == old(input) && output == old(output)
      ensures errBuffer == old(errBuffer) + [old(errPipe)[0]]
    {
      assert errPipe == [errPipe[0]] + errPipe[1..];
      Assoc(errBuffer, [errPipe[0]], errPipe[1..]);
      errBuffer := errBuffer + [errPipe[0]];
      errPipe := errPipe[1..];
    }

    /** Time passes: any interleaving of the two. */
    method Wait()
      modifies this
      ensures OnlyTime(old(Now())) && Work() <= old(Work())
    {
      while *
        invariant OnlyTime(old(Now())) && Work() <= old(Work())
        decreases Work(), |errPipe|
      {
        var execute: bool := *;
        if execute && input != [] {
          Execute();
        } else if errPipe != [] && (collecting.Some? ==> errPipe[0] != Marker(collecting.value)) {
          Ingest();
        } else {
          break;
        }
      }
    }

    method Write(command: Command, printed: Printed, diagnostics: seq<string>) returns (index: nat)
      modifies this
      ensures index == old(written) && written == index + 1 && cut == old(cut) && timeouts == old(timeouts)
      ensures syncNonce == old(syncNonce) && stderrNonce == old(stderrNonce) && collecting == old(collecting)
      ensures old(Held()) ==> Held()
      ensures var line := Line(index, command, PrintedBy(command, printed), diagnostics);
        Seen() == View(old(Seen()).tokens + [Token(PromptAfter(old(Seen()).prompt, line), index, line.printed)],
                       PromptAfter(old(Seen()).prompt, line), old(Seen()).stderr + Says(line))
    {
      index := written;
      var line := Line(index, command, PrintedBy(command, printed), diagnostics);
      OneMore(prompt, input, line);
      Assoc(output, Due(prompt, input), [Token(PromptAfter(Final(prompt, input), line), index, line.printed)]);
      Assoc(errBuffer + errPipe, Said(input), Says(line));
      input := input + [line];
      written := written + 1;
    }

    /** Drops what has arrived on the line of a recognised prompt: any number of the prompts that follow
        on it, the last perhaps in part. */
    method DropLine() returns (ghost dropped: seq<Token>)
      modifies `output, `cut
      ensures old(Seen()).tokens == dropped + Seen().tokens
      ensures Seen() == old(Seen()).(tokens := Seen().tokens)
      ensures forall i | 0 <= i < |dropped| :: dropped[i].after != FullLines
      ensures dropped == [] ==> !cut
    {
      dropped, cut := [], false;
      while output != [] && output[0].after != FullLines
        invariant old(Seen()).tokens == dropped + Seen().tokens
        invariant forall i | 0 <= i < |dropped| :: dropped[i].after != FullLines
        invariant dropped == [] ==> !cut
      {
        var arrived: bool := *;
        if !arrived { return; }
        assert Seen().tokens == [output[0]] + (output[1..] + Due(prompt, input));
        Assoc(dropped, [output[0]], output[1..] + Due(prompt, input));
        dropped := dropped + [output[0]];
        cut := *;
        output := output[1..];
      }
    }

    lemma NothingLeft(skipped: seq<Token>)
      requires output == []
      ensures input == [] ==> Seen().tokens == [] && skipped + Seen().tokens == skipped
    {
    }

    method TakeToken() returns (token: Token)
      requires output != []
      modifies `output
      ensures Work() < old(Work()) && Held() == old(Held())
      ensures old(Seen()).tokens == [token] + Seen().tokens && Seen() == old(Seen()).(tokens := Seen().tokens)
    {
      token := output[0];
      assert Seen().tokens == [token] + (output[1..] + Due(prompt, input));
      output := output[1..];
    }

    /** The next printed prompt: taken with its line if it is the one looked for, else passed over. */
    method ReadToken(p: Prompt, find: FindAt, first: bool, ghost all: seq<Token>, ghost skipped: seq<Token>)
      returns (found: bool, ghost pick: Pick)
      requires output != [] && all == skipped + Seen().tokens && !Shows(all, |skipped|, p, find, cut)
      requires first <==> skipped == []
      modifies `output, `cut
      ensures Seen() == old(Seen()).(tokens := Seen().tokens) && Held() == old(Held())
      ensures found ==>
        Found(all, p, find, old(cut), pick) && Seen().tokens == pick.rest && (pick.dropped == [] ==> !cut)
      ensures !found ==> Work() < old(Work()) && cut == old(cut) && pick.skipped == skipped + [pick.got]
      ensures !found ==> all == pick.skipped + Seen().tokens && !Shows(all, |pick.skipped|, p, find, cut)
    {
      hide Matches;
      hide Shows;
      hide Found;
      hide Due;
      var token := TakeToken();
      NextToken(all, skipped, token, Seen().tokens, p, find, cut);
      found := token.shown == p
        && (find == Anywhere || token.after == FullLines || (token.after == Nothing && first && !cut));
      if found {
        ghost var dropped := DropLine();
        IsFound(all, skipped, token, dropped, Seen().tokens, p, find, old(cut));
        pick := Pick(skipped, token, dropped, Seen().tokens);
      } else {
        pick := Pick(skipped + [token], token, [], []);
      }
    }

    /** Waiting is given up. */
    method GiveUp()
      modifies `timeouts
      ensures timeouts == old(timeouts) + 1 && Seen() == old(Seen()) && Held() == old(Held())
    {
      timeouts := timeouts + 1;
    }

    /** `read_until` a prompt: everything before it is dropped. */
    method AwaitPrompt(p: Prompt, find: FindAt) returns (found: bool, ghost pick: Pick)
      modifies this
      ensures written == old(written) && syncNonce == old(syncNonce) && stderrNonce == old(stderrNonce)
      ensures collecting == old(collecting) && (old(Held()) ==> Held())
      ensures Seen().prompt == old(Seen()).prompt && Seen().stderr == old(Seen()).stderr
      ensures found ==> Found(old(Seen()).tokens, p, find, old(cut), pick) && Seen().tokens == pick.rest
      ensures found && pick.dropped == [] ==> !cut
      ensures timeouts >= old(timeouts) && (found ==> timeouts == old(timeouts))
      ensures !found && timeouts == old(timeouts) ==>
        !Shows(old(Seen()).tokens, |old(Seen()).tokens|, p, find, old(cut))
    {
      hide Seen;
      hide Held;
      hide Shows;
      hide Found;
      hide Matches;
      hide Work;
      ghost var all, skipped := Seen().tokens, [];
      var first := true;
      NonePassed(all, p, find, cut);
      while true
        invariant written == old(written) && syncNonce == old(syncNonce) && stderrNonce == old(stderrNonce)
        invariant collecting == old(collecting) && (old(Held()) ==> Held())
        invariant cut == old(cut) && timeouts == old(timeouts)
        invariant Seen().prompt == old(Seen()).prompt && Seen().stderr == old(Seen()).stderr
        invariant all == skipped + Seen().tokens && !Shows(all, |skipped|, p, find, cut)
        invariant first <==> skipped == []
        decreases Work()
      {
        Wait();
        if output == [] {
          var timeout: bool := *;
          if input == [] {
            NothingLeft(skipped);
            return false, Pick([], Token(p, 0, Nothing), [], []);
          } else if timeout {
            GiveUp();
            return false, Pick([], Token(p, 0, Nothing), [], []);
          }
          Execute();
        } else {
          found, pick := ReadToken(p, find, first, all, skipped);
          if found { return; }
          first, skipped := false, pick.skipped;
        }
      }
    }

    /** The stderr task reads through its marker and hands over, and forgets, what it has. */
    method Collect(nonce: nat) returns (data: Option<seq<ErrItem>>)
      requires collecting == Some(nonce) && Held()
      modifies this
      ensures written == old(written) && syncNonce == old(syncNonce) && stderrNonce == old(stderrNonce)
      ensures collecting.None? && cut == old(cut)
      ensures Seen().prompt == old(Seen()).prompt && Seen().tokens == old(Seen()).tokens
      ensures data.Some? ==>
        Marker(nonce) !in data.value && old(Seen()).stderr == data.value + [Marker(nonce)] + Seen().stderr
      ensures data.None? ==> Seen().stderr == old(Seen()).stderr
      ensures timeouts >= old(timeouts) && (data.Some? ==> timeouts == old(timeouts))
      ensures data.None? && timeouts == old(timeouts) ==> Marker(nonce) !in old(Seen()).stderr
    {
      while true
        invariant OnlyTime(old(Now())) && Held()
        decreases Work(), |errPipe|
      {
        if errPipe == [] {
          var timeout: bool := *;
          if input == [] {
            assert Seen().stderr == errBuffer;
            data, collecting := None, None;
            return;
          } else if timeout {
            GiveUp();
            data, collecting := None, None;
            return;
          }
          Execute();
        } else if errPipe[0] == Marker(nonce) {
          assert errPipe == [Marker(nonce)] + errPipe[1..];
          Assoc(errBuffer, [Marker(nonce)], errPipe[1..]);
          Assoc(errBuffer + [Marker(nonce)], errPipe[1..], Said(input));
          data := Some(errBuffer);
          errBuffer, errPipe, collecting := [], errPipe[1..], None;
          assert [] + errPipe == errPipe;
          return;
        } else {
          Ingest();
        }
      }
    }

    /** No marker or sync prompt has been seen that is still to be used. */
    predicate Fresh()
      reads this
    {
      && (forall i | 0 <= i < |Seen().stderr| && Seen().stderr[i].Marker? :: Seen().stderr[i].nonce < stderrNonce)
      && (forall i | 0 <= i < |Seen().tokens| && Seen().tokens[i].shown.Sync? ::
            Seen().tokens[i].shown.nonce <= syncNonce)
    }

    /** Nothing is outstanding: no prompt to be read, nor the rest of one, no diagnostic to be collected. */
    predicate Clean()
      reads this
    {
      Seen() == View([], Normal, []) && collecting.None? && !cut
    }

    /** `stderr_buffer_through_marker`: everything said on stderr before the marker is handed over. */
    method StderrThroughMarker() returns (data: Option<seq<ErrItem>>, ghost pick: Pick, ghost index: nat)
      requires Fresh() && Seen().prompt == Normal
      modifies this
      ensures syncNonce == old(syncNonce) && written == old(written) + 1 && index == old(written)
      ensures data.Some? ==> data.value == old(Seen()).stderr && Seen().stderr == [] && Seen().prompt == Normal
      ensures data.Some? ==> collecting.None? && Seen().tokens == pick.rest && (pick.dropped == [] ==> !cut)
      ensures data.Some? ==>
        Found(old(Seen()).tokens + [Token(Normal, index, Nothing)], Normal, Anywhere, old(cut), pick)
      ensures timeouts >= old(timeouts) && (data.Some? <==> timeouts == old(timeouts))
    {
      var nonce := stderrNonce;
      ghost var before, tokens := Seen().stderr, Seen().tokens;
      assert Marker(nonce) !in before;
      assert Marker(nonce) !in errBuffer by {
        assert forall i | 0 <= i < |errBuffer| :: errBuffer[i] == before[i];
      }
      stderrNonce := stderrNonce + 1;
      collecting := Some(nonce);
      var at := Write(PrintMarker(nonce), Nothing, []);
      index := at;
      assert Seen().stderr == before + [Marker(nonce)];
      assert Matches(Seen().tokens, |tokens|, Normal, Anywhere, cut);
      var found;
      found, pick := AwaitPrompt(Normal, Anywhere);
      if !found {
        data, collecting := None, None;
        return;
      }
      data := Collect(nonce);
      assert (before + [Marker(nonce)])[|before|] == Marker(nonce);
      if data.Some? {
        MarkerSplits(before, nonce, data.value, Seen().stderr);
      }
    }

    /** `prompt`: a prompt at the start of a line, then the stderr of the operation it ends. */
    method AwaitOperation()
      returns (data: Option<seq<ErrItem>>, ghost first: Pick, ghost second: Pick, ghost index: nat)
      requires Fresh() && Seen().prompt == Normal
      modifies this
      ensures syncNonce == old(syncNonce) && written <= old(written) + 1 && index == old(written)
      ensures data.Some? ==> data.value == old(Seen()).stderr && Seen().stderr == [] && Seen().prompt == Normal
      ensures data.Some? ==> collecting.None? && written == index + 1
      ensures data.Some? ==> Found(old(Seen()).tokens, Normal, LineStart, old(cut), first)
      ensures data.Some? ==> exists cut' ::
        Found(first.rest + [Token(Normal, index, Nothing)], Normal, Anywhere, cut', second)
      ensures data.Some? ==> Seen().tokens == second.rest && (second.dropped == [] ==> !cut)
      ensures timeouts >= old(timeouts) && (data.Some? ==> timeouts == old(timeouts))
      ensures timeouts == old(timeouts) && Shows(old(Seen()).tokens, |old(Seen()).tokens|, Normal, LineStart, old(cut))
        ==> data.Some?
    {
      index := written;
      data := None;
      var found;
      found, first := AwaitPrompt(Normal, LineStart);
      second := first;
      if !found {
        return;
      }
      ghost var i;
      assert forall j | 0 <= j < |Seen().tokens| :: Seen().tokens[j] in old(Seen()).tokens;
      data, second, i := StderrThroughMarker();
    }

    /** `sync_barrier`. From any state whatsoever of prompts and diagnostics, a successful barrier leaves
        nothing outstanding, and hands over every diagnostic that was. */
    method SyncBarrier() returns (data: Option<seq<ErrItem>>)
      requires Fresh()
      modifies this
      ensures data.Some? ==> Clean() && data.value == old(Seen()).stderr
      ensures timeouts >= old(timeouts) && (data.Some? <==> timeouts == old(timeouts))
    {
      data := None;
      ghost var stale := Seen().tokens;
      assert forall i | 0 <= i < |stale| && stale[i].shown.Sync? :: stale[i].shown.nonce <= syncNonce;
      syncNonce := syncNonce + 1;
      var nonce := syncNonce;
      assert forall i | 0 <= i < |stale| :: stale[i].shown != Sync(nonce);
      var index := Write(SetPrompt(Sync(nonce)), Nothing, []);
      ghost var tokens := Seen().tokens;
      assert Texts([]) == [] && Seen().stderr == old(Seen()).stderr;
      assert forall i | 0 <= i < |stale| :: tokens[i] == stale[i];
      assert Matches(tokens, |stale|, Sync(nonce), Anywhere, cut);
      assert !Shows(tokens, |stale|, Sync(nonce), Anywhere, cut);
      ghost var wasCut := cut;
      var found;
      ghost var pick;
      found, pick := AwaitPrompt(Sync(nonce), Anywhere);
      if !found {
        return;
      }
      FirstIsUnique(tokens, Sync(nonce), Anywhere, wasCut, |stale|, pick);
      assert |pick.dropped + pick.rest| == 0;
      assert pick.dropped == [] && Seen().tokens == [];
      data := RestorePrompt();
    }

    method RestorePrompt() returns (data: Option<seq<ErrItem>>)
      requires Fresh() && Seen().tokens == [] && !cut
      modifies this
      ensures data.Some? ==> Clean() && data.value == old(Seen()).stderr
      ensures timeouts >= old(timeouts) && (data.Some? <==> timeouts == old(timeouts))
    {
      hide Due;
      hide Final;
      hide Said;
      var at := Write(SetPrompt(Normal), Nothing, []);
      assert Texts([]) == [] && Seen().stderr == old(Seen()).stderr;
      assert Seen().tokens == [Token(Normal, at, Nothing)];
      assert Matches(Seen().tokens, 0, Normal, LineStart, cut);
      ghost var first, second, i;
      data, first, second, i := AwaitOperation();
      if data.Some? {
        TwoPrompts(Token(Normal, at, Nothing), i, first, second);
      }
    }

    /** A command line is written. */
    method Submit(printed: Printed, diagnostics: seq<string>) returns (index: nat)
      requires Fresh() && Seen().prompt == Normal
      modifies this
      ensures Fresh() && index == old(written) && written == index + 1 && timeouts == old(timeouts)
      ensures cut == old(cut) && collecting == old(collecting)
      ensures Seen() == View(old(Seen()).tokens + [Token(Normal, index, printed)], Normal,
                             old(Seen()).stderr + Texts(diagnostics))
    {
      hide Due;
      hide Final;
      hide Said;
      ghost var before := Seen();
      assert forall d <- Texts(diagnostics) :: d.Text?;
      assert Texts(diagnostics) + [] == Texts(diagnostics);
      index := Write(Other, printed, diagnostics);
      assert forall i | 0 <= i < |before.tokens| :: Seen().tokens[i] == before.tokens[i];
    }

    /** One command line and its answer: the prompt recognised answers this line, and what is handed over
        are this line's diagnostics. A prompt that does not begin a line is not recognised. */
    method RunCommand(said: Reply) returns (data: Option<seq<ErrItem>>, ghost index: nat, ghost answers: nat)
      requires Fresh() && Clean()
      modifies this
      ensures index == old(written)
      ensures data.Some? ==> Clean() && Fresh() && written == index + 2
      ensures data.Some? ==> answers == index && data.value == Texts(said.diagnostics)
      ensures timeouts >= old(timeouts)
      ensures data.Some? <==> said.printed != Dangling && timeouts == old(timeouts)
    {
      ClearStderr();
      index := Submit(said.printed, said.diagnostics);
      answers := index;
      ghost var token := Token(Normal, index, said.printed);
      assert Seen().tokens == [token] && Seen().stderr == Texts(said.diagnostics);
      assert Matches(Seen().tokens, 0, Normal, LineStart, cut) <==> said.printed != Dangling;
      ghost var first, second, i;
      data, first, second, i := AwaitOperation();
      if data.Some? {
        TwoPrompts(token, i, first, second);
        answers := first.got.answers;
      }
    }

    /** From a clean session on, the i-th prompt recognised answers the i-th command, and the diagnostics
        handed over with it are that command's. Nothing but output that ends within a line stops it. */
    method RunCommands(commands: seq<Reply>) returns (data: seq<seq<ErrItem>>, ghost answers: seq<nat>)
      requires Fresh() && Clean()
      modifies this
      ensures Answered(old(written), commands, data, answers)
      ensures timeouts == old(timeouts) ==> |data| == |commands| || commands[|data|].printed == Dangling
    {
      hide *;
      data, answers := [], [];
      NoneAnswered(written, commands);
      while |data| < |commands|
        invariant Fresh() && Clean() && written == old(written) + 2 * |data| && timeouts == old(timeouts)
        invariant |data| <= |commands| && Answered(old(written), commands, data, answers)
      {
        var said;
        ghost var index, answer;
        said, index, answer := RunCommand(commands[|data|]);
        if said.None? {
          return;
        }
        OneMoreAnswer(old(written), commands, data, answers, said.value, answer);
        data, answers := data + [said.value], answers + [answer];
      }
    }

    /** A block of several lines is written at once, and only one prompt is waited for. Its continuation
        prompts stand on one line, and go or stay as they happen to arrive: up to `lines - 1` are left, and
        the marker is paired with its own prompt exactly when the first wait drops all the others. */
    method RunBlock(lines: nat, said: Reply)
      returns (data: Option<seq<ErrItem>>, ghost marker: nat, ghost first: Pick, ghost second: Pick)
      requires Fresh() && Clean() && lines > 0
      modifies this
      ensures data.Some? ==> |first.dropped| + |second.dropped| <= lines - 1
      ensures data.Some? ==> |Seen().tokens| == lines - 1 - |first.dropped| - |second.dropped|
      ensures data.Some? ==> (second.got.answers == marker <==> |first.dropped| == lines - 1)
      ensures data.Some? && lines > 1 && said.printed == FullLines ==> second.got.answers != marker
      ensures data.Some? && lines == 1 ==> Clean() && second.got.answers == marker
      ensures timeouts >= old(timeouts)
      ensures data.Some? <==> timeouts == old(timeouts) && (lines > 1 || said.printed != Dangling)
    {
      hide BlockPrompts;
      hide Shows;
      hide Found;
      var i := 0;
      ghost var start := written;
      NoPrompts(start, lines, said.printed);
      while i < lines
        invariant i <= lines && written == start + i && timeouts == old(timeouts)
        invariant Fresh() && Seen().prompt == Normal && !cut
        invariant Seen().tokens == BlockPrompts(start, i, lines, said.printed)
      {
        hide Fresh;
        hide Seen;
        var last := i + 1 == lines;
        var index := Submit(if last then said.printed else Nothing, if last then said.diagnostics else []);
        NextPrompt(start, i, lines, said.printed);
        i := i + 1;
      }
      hide Due;
      hide Final;
      hide Said;
      if lines > 1 || said.printed != Dangling {
        BlockShows(start, lines, said.printed);
      }
      hide Fresh;
      hide Seen;
      data, first, second, marker := AwaitOperation();
      if data.Some? {
        BlockPicks(start, lines, said.printed, marker, first, second);
      }
    }

    /** `clear_stderr_buffer`: what has been read so far is dropped. */
    method ClearStderr()
      requires Clean()
      modifies this
      ensures OnlyTime(old(Now()))
    {
      assert errBuffer == [] by {
        assert |errBuffer| <= |Seen().stderr|;
      }
      errBuffer := [];
    }
  }

  /** The i-th prompt recognised answers the i-th command, and the i-th part is what that command said on
      stderr. */
  ghost predicate Answered(start: nat, commands: seq<Reply>, data: seq<seq<ErrItem>>, answers: seq<nat>) {
    && |data| == |answers| <= |commands|
    && forall i | 0 <= i < |data| ::
         answers[i] == start + 2 * i && data[i] == Texts(commands[i].diagnostics) && commands[i].printed != Dangling
  }

  lemma NoneAnswered(start: nat, commands: seq<Reply>)
    ensures Answered(start, commands, [], [])
  {
  }

  lemma OneMoreAnswer(start: nat, commands: seq<Reply>, data: seq<seq<ErrItem>>, answers: seq<nat>, said: seq<ErrItem>,
                      answer: nat)
    requires Answered(start, commands, data, answers) && |data| < |commands| && answer == start + 2 * |data|
    requires said == Texts(commands[|data|].diagnostics) && commands[|data|].printed != Dangling
    ensures Answered(start, commands, data + [said], answers + [answer])
  {
  }

  lemma MarkerSplits(before: seq<ErrItem>, nonce: nat, data: seq<ErrItem>, rest: seq<ErrItem>)
    requires Marker(nonce) !in before && Marker(nonce) !in data
    requires before + [Marker(nonce)] == data + [Marker(nonce)] + rest
    ensures data == before && rest == []
  {
    var all := before + [Marker(nonce)];
    assert all[|data|] == Marker(nonce);
    assert forall i | 0 <= i < |before| :: before[i] == all[i] && before[i] != Marker(nonce);
    assert forall i | 0 <= i < |data| :: data[i] == all[i] && data[i] != Marker(nonce);
    assert all[..|data|] == data && all[..|before|] == before;
  }

  /** With a single prompt outstanding, two waits consume it and the marker command's. */
  lemma TwoPrompts(token: Token, index: nat, first: Pick, second: Pick)
    requires Found([token], Normal, LineStart, false, first)
    requires exists cut :: Found(first.rest + [Token(Normal, index, Nothing)], Normal, Anywhere, cut, second)
    ensures first.got == token && second.got == Token(Normal, index, Nothing) && first.rest == second.rest == []
    ensures first.dropped == second.dropped == [] && token.after != Dangling
  {
    assert |[token]| == |first.skipped| + 1 + |first.dropped| + |first.rest|;
    assert [token][0] == first.got;
    var more := first.rest + [Token(Normal, index, Nothing)];
    assert |more| == |second.skipped| + 1 + |second.dropped| + |second.rest|;
    assert more[0] == second.got;
  }

  /** The prompts of the first `n` lines of a block. */
  function BlockPrompts(start: nat, n: nat, lines: nat, printed: Printed): seq<Token> {
    seq(n, i requires 0 <= i < n => Token(Normal, start + i, if i + 1 == lines then printed else Nothing))
  }

  lemma NoPrompts(start: nat, lines: nat, printed: Printed)
    ensures BlockPrompts(start, 0, lines, printed) == []
  {
  }

  lemma NextPrompt(start: nat, n: nat, lines: nat, printed: Printed)
    ensures BlockPrompts(start, n + 1, lines, printed)
         == BlockPrompts(start, n, lines, printed)
            + [Token(Normal, start + n, if n + 1 == lines then printed else Nothing)]
  {
  }

  lemma FirstPick(tokens: seq<Token>, first: Pick)
    requires tokens != [] && Found(tokens, Normal, LineStart, false, first)
    requires |tokens| > 1 ==> tokens[0].shown == Normal && tokens[0].after == Nothing
    ensures first.skipped == [] && first.dropped + first.rest == tokens[1..]
  {
    if |tokens| > 1 {
      assert Matches(tokens, 0, Normal, LineStart, false);
      FirstIsUnique(tokens, Normal, LineStart, false, 0, first);
    } else {
      assert |first.skipped| + 1 + |first.dropped| + |first.rest| == 1;
    }
  }

  lemma NonePassed(tokens: seq<Token>, p: Prompt, find: FindAt, cut: bool)
    ensures [] + tokens == tokens && !Shows(tokens, 0, p, find, cut)
  {
  }

  lemma SecondPick(more: seq<Token>, second: Pick)
    requires more != [] && more[0].shown == Normal && exists cut :: Found(more, Normal, Anywhere, cut, second)
    ensures second.got == more[0] && second.dropped + second.rest == more[1..]
  {
    var cut :| Found(more, Normal, Anywhere, cut, second);
    assert Matches(more, 0, Normal, Anywhere, cut);
    FirstIsUnique(more, Normal, Anywhere, cut, 0, second);
  }

  /** Some prompt of a block is recognised, unless its only line prints a line it does not end. */
  lemma BlockShows(start: nat, lines: nat, printed: Printed)
    requires lines > 1 || (lines == 1 && printed != Dangling)
    ensures var tokens := BlockPrompts(start, lines, lines, printed);
      |tokens| == lines && Shows(tokens, lines, Normal, LineStart, false)
  {
    assert Matches(BlockPrompts(start, lines, lines, printed), 0, Normal, LineStart, false);
  }

  lemma BlockPicks(start: nat, lines: nat, printed: Printed, marker: nat, first: Pick, second: Pick)
    requires lines > 0 && marker == start + lines
    requires Found(BlockPrompts(start, lines, lines, printed), Normal, LineStart, false, first)
    requires exists cut :: Found(first.rest + [Token(Normal, marker, Nothing)], Normal, Anywhere, cut, second)
    ensures |first.dropped| + |second.dropped| + |second.rest| == lines - 1
    ensures second.got.answers == marker <==> |first.dropped| == lines - 1
    ensures lines > 1 && printed == FullLines ==> |first.dropped| < lines - 1
    ensures lines == 1 ==> second.dropped == [] && printed != Dangling
  {
    var tokens := BlockPrompts(start, lines, lines, printed);
    assert forall i | 0 <= i < |first.dropped| :: first.dropped[i].after != FullLines;
    FirstPick(tokens, first);
    assert lines == 1 ==> Matches(tokens, 0, Normal, LineStart, false);
    hide Found;
    var d := |first.dropped|;
    assert |first.dropped + first.rest| == lines - 1;
    if lines > 1 && d == lines - 1 {
      assert first.rest == [] && first.dropped == tokens[1..];
      assert first.dropped[lines - 2] == tokens[lines - 1];
    }
    var more := first.rest + [Token(Normal, marker, Nothing)];
    if first.rest != [] {
      assert more[0] == first.rest[0] == (first.dropped + first.rest)[d] == tokens[1 + d];
    }
    SecondPick(more, second);
    assert |second.dropped + second.rest| == |more| - 1;
  }

  lemma FirstFound(tokens: seq<Token>, find: FindAt, n: nat)
    requires n < |tokens| && Matches(tokens, 0, Normal, find, false)
    requires forall i | 1 <= i <= n :: tokens[i].after != FullLines
    ensures Found(tokens, Normal, find, false, Pick([], tokens[0], tokens[1..n + 1], tokens[n + 1..]))
  {
    assert tokens == [] + [tokens[0]] + tokens[1..n + 1] + tokens[n + 1..];
  }

  /** Every number of prompts up to one per line but the first can be left, whether or not the marker is
      paired with its own prompt: a read that ends after a prompt leaves the next ones, a longer one
      drops them. */
  lemma BlockLeavesAny(start: nat, lines: nat, k: nat) returns (first: Pick, second: Pick)
    requires k < lines
    ensures Found(BlockPrompts(start, lines, lines, Nothing), Normal, LineStart, false, first)
    ensures Found(first.rest + [Token(Normal, start + lines, Nothing)], Normal, Anywhere, false, second)
    ensures |second.rest| == k && (second.got.answers == start + lines <==> k == 0)
  {
    var tokens := BlockPrompts(start, lines, lines, Nothing);
    FirstFound(tokens, LineStart, lines - k - 1);
    first := Pick([], tokens[0], tokens[1..lines - k], tokens[lines - k..]);
    var more := first.rest + [Token(Normal, start + lines, Nothing)];
    FirstFound(more, Anywhere, 0);
    second := Pick([], more[0], more[1..1], more[1..]);
  }

  /** A marker paired with another line's prompt although no prompt is left. */
  lemma BlockMispairs(start: nat, lines: nat) returns (first: Pick, second: Pick)
    requires lines > 1
    ensures Found(BlockPrompts(start, lines, lines, Nothing), Normal, LineStart, false, first)
    ensures Found(first.rest + [Token(Normal, start + lines, Nothing)], Normal, Anywhere, false, second)
    ensures second.rest == [] && second.got.answers == start + 1
  {
    var tokens := BlockPrompts(start, lines, lines, Nothing);
    FirstFound(tokens, LineStart, 0);
    first := Pick([], tokens[0], tokens[1..1], tokens[1..]);
    var more := first.rest + [Token(Normal, start + lines, Nothing)];
    FirstFound(more, Anywhere, |more| - 1);
    second := Pick([], more[0], more[1..|more|], more[|more|..]);
  }

  /** Two waits in turn: for a block's prompt, then for its marker's. */
  predicate Waits(start: nat, lines: nat, printed: Printed, first: Pick, second: Pick, cut: bool) {
    && Found(BlockPrompts(start, lines, lines, printed), Normal, LineStart, false, first)
    && Found(first.rest + [Token(Normal, start + lines, Nothing)], Normal, Anywhere, cut, second)
  }

  /** Whatever a block prints and however its output arrives: the marker is paired with its own prompt
      every time if and only if the block has one line. */
  lemma AlwaysPairsIff(start: nat, lines: nat, printed: Printed)
    requires lines > 0
    ensures (forall first, second, cut | Waits(start, lines, printed, first, second, cut) ::
              second.got.answers == start + lines)
       <==> lines == 1
  {
    if lines == 1 {
      forall first, second, cut | Waits(start, lines, printed, first, second, cut)
        ensures second.got.answers == start + lines
      {
        BlockPicks(start, lines, printed, start + lines, first, second);
      }
    } else {
      var tokens := BlockPrompts(start, lines, lines, printed);
      FirstFound(tokens, LineStart, 0);
      var first := Pick([], tokens[0], tokens[1..1], tokens[1..]);
      var more := first.rest + [Token(Normal, start + lines, Nothing)];
      FirstFound(more, Anywhere, 0);
      var second := Pick([], more[0], more[1..1], more[1..]);
      assert second.got.answers == start + 1;
      assert Waits(start, lines, printed, first, second, false);
    }
  }
}
