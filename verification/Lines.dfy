/** Text as lines: splitting at newlines, and putting lines together again. */
module Lines {
  import opened Basics

  /** The index of the first newline from `i` on, or the length if there is none. */
  function NewlineFrom(s: string, i: nat): (j: nat)
    requires i <= |s|
    ensures i <= j <= |s|
    ensures forall k | i <= k < j :: s[k] != '\n'
    ensures j < |s| ==> s[j] == '\n'
    decreases |s| - i
  {
    if i == |s| || s[i] == '\n' then i else NewlineFrom(s, i + 1)
  }

  function NewlineAt(s: string): nat {
    NewlineFrom(s, 0)
  }

  predicate IsLine(s: string) {
    forall i | 0 <= i < |s| :: s[i] != '\n'
  }

  /** `split_once('\n')`. */
  function SplitOnce(s: string): Option<(string, string)> {
    var i := NewlineAt(s);
    if i == |s| then None else Some((s[..i], s[i + 1..]))
  }

  /** All pieces between newlines; the last one is the unterminated rest, possibly empty. */
  function Pieces(s: string): (ps: seq<string>)
    ensures ps != []
    decreases |s|
  {
    match SplitOnce(s)
    case None => [s]
    case Some((first, rest)) => [first] + Pieces(rest)
  }

  /** Each line followed by a newline. */
  function Unlines(ps: seq<string>): string {
    if ps == [] then "" else Unlines(ps[..|ps| - 1]) + ps[|ps| - 1] + "\n"
  }

  ghost predicate NewlineFree(ps: seq<string>) {
    forall i | 0 <= i < |ps| :: IsLine(ps[i])
  }

  lemma UnlinesEnd(ps: seq<string>)
    ensures var s := Unlines(ps); s == "" || s[|s| - 1] == '\n'
  {
  }

  lemma UnlinesSnoc(ps: seq<string>, p: string)
    ensures Unlines(ps + [p]) == Unlines(ps) + p + "\n"
  {
    assert (ps + [p])[..|ps|] == ps;
  }

  lemma {:induction false} UnlinesAppend(a: seq<string>, b: seq<string>)
    ensures Unlines(a + b) == Unlines(a) + Unlines(b)
    decreases |b|
  {
    if b == [] {
      assert a + b == a;
    } else {
      var front, last := b[..|b| - 1], b[|b| - 1];
      UnlinesAppend(a, front);
      UnlinesSnoc(a + front, last);
      assert a + b == a + front + [last];
      Assoc(Unlines(a), Unlines(front), last);
      Assoc(Unlines(a), Unlines(front) + last, "\n");
    }
  }

  lemma UnlinesCons(p: string, ps: seq<string>)
    ensures Unlines([p] + ps) == p + "\n" + Unlines(ps)
  {
    UnlinesAppend([p], ps);
    UnlinesSnoc([], p);
    assert [] + [p] == [p];
    assert "" + p == p;
  }

  lemma NewlineAfter(first: string, rest: string)
    requires IsLine(first)
    ensures NewlineAt(first + "\n" + rest) == |first|
  {
    var all := first + "\n" + rest;
    var i := NewlineAt(all);
    assert all[|first|] == '\n';
  }

  lemma PiecesLine(first: string, rest: string)
    requires IsLine(first)
    ensures Pieces(first + "\n" + rest) == [first] + Pieces(rest)
  {
    var all := first + "\n" + rest;
    NewlineAfter(first, rest);
    assert all[..|first|] == first && all[|first| + 1..] == rest;
  }

  lemma PiecesNone(s: string)
    requires IsLine(s)
    ensures Pieces(s) == [s]
  {
  }

  lemma {:induction false} PiecesFree(s: string)
    ensures NewlineFree(Pieces(s))
    decreases |s|
  {
    var i := NewlineAt(s);
    if i == |s| {
      assert s[..i] == s;
    } else {
      PiecesFree(s[i + 1..]);
    }
  }

  /** Whole lines in front of a text are its first pieces. */
  lemma {:induction false} PiecesUnlines(ps: seq<string>, rest: string)
    requires NewlineFree(ps)
    ensures Pieces(Unlines(ps) + rest) == ps + Pieces(rest)
    decreases |ps|
  {
    if ps == [] {
      assert Unlines(ps) + rest == rest;
      assert ps + Pieces(rest) == Pieces(rest);
    } else {
      var first, others := ps[0], ps[1..];
      assert ps == [first] + others;
      PiecesUnlines(others, rest);
      UnlinesCons(first, others);
      Assoc(first + "\n", Unlines(others), rest);
      PiecesLine(first, Unlines(others) + rest);
      Assoc([first], others, Pieces(rest));
    }
  }

  /** The pieces but the last, as lines, then the last. */
  function Join(ps: seq<string>): string
    requires ps != []
  {
    Unlines(ps[..|ps| - 1]) + ps[|ps| - 1]
  }

  lemma JoinCons(first: string, ps: seq<string>)
    requires ps != []
    ensures Join([first] + ps) == first + "\n" + Join(ps)
  {
    var front := ps[..|ps| - 1];
    assert ([first] + ps)[..|ps|] == [first] + front;
    UnlinesCons(first, front);
    Assoc(first + "\n", Unlines(front), ps[|ps| - 1]);
  }

  /** Splitting and joining are inverse. */
  lemma {:induction false} JoinPieces(s: string)
    ensures Join(Pieces(s)) == s
    decreases |s|
  {
    var i := NewlineAt(s);
    if i == |s| {
      JoinOne(s);
    } else {
      JoinPieces(s[i + 1..]);
      JoinCons(s[..i], Pieces(s[i + 1..]));
      AtNewline(s, i);
    }
  }

  lemma JoinOne(s: string)
    ensures Join([s]) == s
  {
    assert [s][..0] == [] && "" + s == s;
  }

  lemma AtNewline(s: string, i: nat)
    requires i < |s| && s[i] == '\n'
    ensures s == s[..i] + "\n" + s[i + 1..]
  {
  }

  lemma LastOf(a: string, b: string)
    ensures b != "" ==> (a + b)[|a + b| - 1] in b
  {
  }

  /** The lines of newline-terminated text. */
  lemma TerminatedLines(s: string)
    requires s == "" || s[|s| - 1] == '\n'
    ensures var ps := Pieces(s); ps[|ps| - 1] == "" && Unlines(ps[..|ps| - 1]) == s && NewlineFree(ps)
  {
    var ps := Pieces(s);
    JoinPieces(s);
    PiecesFree(s);
    LastOf(Unlines(ps[..|ps| - 1]), ps[|ps| - 1]);
  }

  predicate OccursAt(s: string, m: string, i: nat) {
    i + |m| <= |s| && s[i..i + |m|] == m
  }

  lemma OccursThere(s: string, m: string, i: nat, j: nat)
    requires i <= |s|
    ensures OccursAt(s, m, i + j) <==> OccursAt(s[i..], m, j)
  {
    if i + j + |m| <= |s| {
      assert s[i..][j..j + |m|] == s[i + j..i + j + |m|];
    }
  }
}
