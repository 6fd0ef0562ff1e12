/** Decoding a byte stream that is cut at arbitrary places (src/incremental_reader.rs, `decode`),
    against the grammar of section 4 of RFC 3629. */
module Utf8 {
  import opened Basics
  import opened ByteStrings

  predicate Tail(b: Byte) { 0x80 <= b <= 0xBF }

  /** UTF8-char of the RFC: the first three bytes decide, the others are tails. */
  predicate IsChar(c: seq<Byte>) {
    || (|c| == 1 && c[0] <= 0x7F)
    || (|c| == 2 && 0xC2 <= c[0] <= 0xDF && Tail(c[1]))
    || (|c| == 3 && Tail(c[2])
        && ( || (c[0] == 0xE0 && 0xA0 <= c[1] <= 0xBF)
             || (0xE1 <= c[0] <= 0xEC && Tail(c[1]))
             || (c[0] == 0xED && 0x80 <= c[1] <= 0x9F)
             || (0xEE <= c[0] <= 0xEF && Tail(c[1]))))
    || (|c| == 4 && Tail(c[2]) && Tail(c[3])
        && ( || (c[0] == 0xF0 && 0x90 <= c[1] <= 0xBF)
             || (0xF1 <= c[0] <= 0xF3 && Tail(c[1]))
             || (c[0] == 0xF4 && 0x80 <= c[1] <= 0x8F)))
  }

  /** UTF8-octets of the RFC: a sequence of characters. */
  ghost predicate WellFormed(s: seq<Byte>) {
    exists chars :: Spells(chars, s)
  }

  predicate Spells(chars: seq<seq<Byte>>, s: seq<Byte>) {
    Flatten(chars) == s && forall i | 0 <= i < |chars| :: IsChar(chars[i])
  }

  lemma EmptyIsWellFormed()
    ensures WellFormed([])
  {
    assert Spells([], []);
  }

  lemma PrependChar(c: seq<Byte>, s: seq<Byte>)
    requires IsChar(c) && WellFormed(s)
    ensures WellFormed(c + s)
  {
    var chars :| Spells(chars, s);
    assert ([c] + chars)[1..] == chars;
    assert Spells([c] + chars, c + s);
  }

  /** The beginning of one character, but not the whole of it. */
  ghost predicate Truncates(s: seq<Byte>) {
    s != [] && exists rest: seq<Byte> :: rest != [] && IsChar(s + rest)
  }

  // The validator of the standard library.

  datatype Head = Char(n: nat) | Cut | Bad(n: nat)

  predicate SecondOk(first: Byte, second: Byte) {
    if first == 0xE0 then 0xA0 <= second <= 0xBF
    else if first == 0xED then 0x80 <= second <= 0x9F
    else if first == 0xF0 then 0x90 <= second <= 0xBF
    else if first == 0xF4 then 0x80 <= second <= 0x8F
    else Tail(second)
  }

  function Width(first: Byte): nat {
    if first <= 0x7F then 1
    else if 0xC2 <= first <= 0xDF then 2
    else if 0xE0 <= first <= 0xEF then 3
    else if 0xF0 <= first <= 0xF4 then 4
    else 0
  }

  /** Reads one character; a bad one ends before the first byte that cannot belong to it. */
  function ReadHead(b: seq<Byte>): (h: Head)
    requires b != []
    ensures h.Char? ==> 1 <= h.n <= |b|
    ensures h.Bad? ==> 1 <= h.n <= |b|
  {
    var w := Width(b[0]);
    if w == 0 then Bad(1)
    else if w == 1 then Char(1)
    else if |b| < 2 then Cut
    else if !SecondOk(b[0], b[1]) then Bad(1)
    else if w == 2 then Char(2)
    else if |b| < 3 then Cut
    else if !Tail(b[2]) then Bad(2)
    else if w == 3 then Char(3)
    else if |b| < 4 then Cut
    else if !Tail(b[3]) then Bad(3)
    else Char(4)
  }

  datatype Verdict = Valid | Incomplete(upTo: nat) | Invalid

  /** `from_utf8`: a failure at the end of the input is told apart from a malformed character. */
  function Validate(b: seq<Byte>): (v: Verdict)
    ensures v.Incomplete? ==> v.upTo < |b|
  {
    if b == [] then Valid
    else match ReadHead(b)
      case Char(n) => Shift(n, Validate(b[n..]))
      case Cut => Incomplete(0)
      case Bad(_) => Invalid
  }

  function Shift(n: nat, v: Verdict): Verdict {
    if v.Incomplete? then Incomplete(n + v.upTo) else v
  }

  const REPLACEMENT: seq<Byte> := [0xEF, 0xBF, 0xBD]

  /** `from_utf8_lossy`. */
  function Lossy(b: seq<Byte>): seq<Byte> {
    if b == [] then []
    else match ReadHead(b)
      case Char(n) => b[..n] + Lossy(b[n..])
      case Cut => REPLACEMENT
      case Bad(n) => REPLACEMENT + Lossy(b[n..])
  }

  /** What one read adds to the output, and what it leaves to the next. */
  function DecodeStep(carry: seq<Byte>, buffer: seq<Byte>): (seq<Byte>, seq<Byte>) {
    Decoded(carry + buffer)
  }

  function Decoded(all: seq<Byte>): (seq<Byte>, seq<Byte>) {
    CutBy(all, Validate(all), Lossy(all))
  }

  function CutBy(all: seq<Byte>, v: Verdict, lossy: seq<Byte>): (seq<Byte>, seq<Byte>)
    requires v.Incomplete? ==> v.upTo <= |all|
  {
    match v
    case Valid => (all, [])
    case Invalid => (lossy, [])
    case Incomplete(upTo) => (all[..upTo], all[upTo..])
  }

  class Decoder {
    var nonUtf8: seq<Byte>

    constructor ()
      ensures nonUtf8 == []
    {
      nonUtf8 := [];
    }

    method Decode(buffer: seq<Byte>) returns (decoded: seq<Byte>)
      modifies this
      ensures (decoded, nonUtf8) == DecodeStep(old(nonUtf8), buffer)
      // Text is decoded as it is, but for a character truncated at the end, which is kept back.
      ensures forall a, t | a + t == old(nonUtf8) + buffer && WellFormed(a) && (t == [] || Truncates(t)) ::
        decoded == a && nonUtf8 == t
      // Anything else is decoded with replacements, and nothing is kept back.
      ensures var all := old(nonUtf8) + buffer;
        (forall a, t | a + t == all && WellFormed(a) :: t != [] && !Truncates(t)) ==>
          decoded == Lossy(all) && nonUtf8 == []
    {
      var all := buffer;
      if nonUtf8 != [] {
        all := nonUtf8 + buffer;
        nonUtf8 := [];
      }
      assert all == old(nonUtf8) + buffer;
      forall a, t | a + t == all && WellFormed(a) && (t == [] || Truncates(t)) ensures Decoded(all) == (a, t) {
        TextIsKept(a, t);
      }
      MalformedIff(all);
      match Validate(all) {
        case Valid => decoded := all;
        case Invalid => decoded := Lossy(all);
        case Incomplete(upTo) =>
          nonUtf8 := nonUtf8 + all[upTo..];
          assert nonUtf8 == all[upTo..];
          decoded := all[..upTo];
      }
    }
  }

  // The validator meets the grammar.

  lemma HeadIsChar(b: seq<Byte>)
    requires b != []
    ensures ReadHead(b).Char? ==> IsChar(b[..ReadHead(b).n])
    ensures forall n | 0 < n <= |b| && IsChar(b[..n]) :: ReadHead(b) == Char(n)
  {
  }

  lemma HeadIsCut(b: seq<Byte>)
    requires b != []
    ensures ReadHead(b).Cut? <==> Truncates(b)
    ensures ReadHead(b).Cut? ==> |b| <= 3
  {
    if ReadHead(b).Cut? {
      var w, second: Byte := Width(b[0]), if b[0] == 0xE0 || b[0] == 0xF0 then 0xA0 else 0x80;
      var rest: seq<Byte> := if |b| == 1 then [second, 0x80, 0x80][..w - 1] else [0x80, 0x80][..w - |b|];
      assert IsChar(b + rest);
    }
    if Truncates(b) {
      var rest: seq<Byte> :| rest != [] && IsChar(b + rest);
      assert (b + rest)[0] == b[0];
      assert |b| > 1 ==> (b + rest)[1] == b[1];
      assert |b| > 2 ==> (b + rest)[2] == b[2];
    }
  }

  lemma {:induction false} ValidIsWellFormed(b: seq<Byte>)
    requires Validate(b).Valid?
    ensures WellFormed(b)
    decreases |b|
  {
    if b == [] {
      EmptyIsWellFormed();
    } else {
      var n := ReadHead(b).n;
      HeadIsChar(b);
      ValidIsWellFormed(b[n..]);
      PrependChar(b[..n], b[n..]);
      TakeDrop(b, n);
    }
  }

  lemma {:induction false} CharsAreValid(chars: seq<seq<Byte>>)
    requires forall i | 0 <= i < |chars| :: IsChar(chars[i])
    ensures Validate(Flatten(chars)).Valid?
    decreases |chars|
  {
    if chars != [] {
      var b := Flatten(chars);
      CharsAreValid(chars[1..]);
      HeadIsChar(b);
      assert b[..|chars[0]|] == chars[0];
      assert b[|chars[0]|..] == Flatten(chars[1..]);
    }
  }

  /** The validator accepts exactly the sequences of the grammar. */
  lemma ValidIffWellFormed(b: seq<Byte>)
    ensures Validate(b).Valid? <==> WellFormed(b)
  {
    if Validate(b).Valid? {
      ValidIsWellFormed(b);
    }
    if WellFormed(b) {
      var chars :| Spells(chars, b);
      CharsAreValid(chars);
    }
  }

  /** An incomplete input is a well-formed one and the beginning of one more character. */
  lemma {:induction false} IncompleteParts(b: seq<Byte>)
    requires Validate(b).Incomplete?
    ensures WellFormed(b[..Validate(b).upTo]) && Truncates(b[Validate(b).upTo..]) && |b| - Validate(b).upTo <= 3
    decreases |b|
  {
    if ReadHead(b).Cut? {
      HeadIsCut(b);
      EmptyIsWellFormed();
      assert b[0..] == b && b[..0] == [];
    } else {
      var n := ReadHead(b).n;
      var rest := b[n..];
      var m := Validate(rest).upTo;
      IncompleteParts(rest);
      HeadIsChar(b);
      SliceAgain(b, n, m);
      PrependChar(b[..n], rest[..m]);
    }
  }

  /** Well-formed text, with at most a truncated character after it, is cut there. */
  lemma TextIsKept(a: seq<Byte>, t: seq<Byte>)
    requires WellFormed(a) && (t == [] || Truncates(t))
    ensures Decoded(a + t) == (a, t) && !Validate(a + t).Invalid?
  {
    ValidIffWellFormed(a);
    Extend(a, t);
    assert a[|a|..] + t == t;
    if t == [] {
      assert a + t == a;
    } else {
      HeadIsCut(t);
      assert (a + t)[..|a|] == a && (a + t)[|a|..] == t;
    }
  }

  /** Everything else is malformed. */
  lemma MalformedIff(all: seq<Byte>)
    ensures Validate(all).Invalid? <==> forall a, t | a + t == all && WellFormed(a) :: t != [] && !Truncates(t)
  {
    if !Validate(all).Invalid? {
      var n := Boundary(all);
      if Validate(all).Valid? {
        ValidIffWellFormed(all);
        assert all + [] == all;
      } else {
        IncompleteParts(all);
        TakeDrop(all, n);
        assert all[..n] + all[n..] == all;
      }
    } else {
      forall a, t | a + t == all && WellFormed(a) ensures t != [] && !Truncates(t) {
        if t == [] || Truncates(t) {
          TextIsKept(a, t);
        }
      }
    }
  }

  /** Lossy decoding always yields well-formed text. */
  lemma {:induction false} LossyIsWellFormed(b: seq<Byte>)
    ensures WellFormed(Lossy(b))
    decreases |b|
  {
    if b == [] {
      EmptyIsWellFormed();
    } else if ReadHead(b).Cut? {
      EmptyIsWellFormed();
      PrependChar(REPLACEMENT, []);
      assert REPLACEMENT + [] == Lossy(b);
    } else {
      var n := ReadHead(b).n;
      HeadIsChar(b);
      LossyIsWellFormed(b[n..]);
      PrependChar(if ReadHead(b).Char? then b[..n] else REPLACEMENT, Lossy(b[n..]));
    }
  }

  // Cutting the stream.

  /** How far the valid characters go. */
  function Boundary(b: seq<Byte>): (n: nat)
    ensures n <= |b|
  {
    match Validate(b) case Valid => |b| case Incomplete(upTo) => upTo case Invalid => 0
  }

  lemma HeadExtends(a: seq<Byte>, b: seq<Byte>)
    requires a != [] && ReadHead(a).Char?
    ensures ReadHead(a + b) == ReadHead(a)
    ensures (a + b)[..ReadHead(a).n] == a[..ReadHead(a).n] && (a + b)[ReadHead(a).n..] == a[ReadHead(a).n..] + b
  {
  }

  /** Adding bytes to an input that is not malformed changes nothing before its last boundary. */
  lemma {:induction false} Extend(a: seq<Byte>, b: seq<Byte>)
    requires !Validate(a).Invalid?
    ensures Validate(a + b) == Shift(Boundary(a), Validate(a[Boundary(a)..] + b))
    decreases |a|
  {
    hide ReadHead;
    if a == [] || ReadHead(a).Cut? {
      assert a[Boundary(a)..] == a;
    } else {
      var n := ReadHead(a).n;
      HeadExtends(a, b);
      Extend(a[n..], b);
      SliceAgain(a, n, Boundary(a[n..]));
    }
  }

  lemma {:induction false} ExtendLossy(a: seq<Byte>, b: seq<Byte>)
    requires !Validate(a).Invalid?
    ensures Lossy(a + b) == a[..Boundary(a)] + Lossy(a[Boundary(a)..] + b)
    decreases |a|
  {
    hide ReadHead;
    var k := Boundary(a);
    if a == [] || ReadHead(a).Cut? {
      assert a[k..] == a && a[..k] == [];
    } else {
      var n := ReadHead(a).n;
      var rest := a[n..];
      HeadExtends(a, b);
      assert Lossy(a + b) == a[..n] + Lossy(rest + b);
      hide Lossy;
      ExtendLossy(rest, b);
      SliceAgain(a, n, Boundary(rest));
      Assoc(a[..n], rest[..Boundary(rest)], Lossy(a[k..] + b));
    }
  }

  /** Two reads are as good as one, unless the first is already malformed. */
  lemma SplitAgrees(carry: seq<Byte>, a: seq<Byte>, b: seq<Byte>)
    requires !Validate(carry + a).Invalid?
    ensures var (out1, carry1) := DecodeStep(carry, a);
      var (out2, carry2) := DecodeStep(carry1, b);
      DecodeStep(carry, a + b) == (out1 + out2, carry2)
  {
    var head := carry + a;
    var k := Boundary(head);
    Assoc(carry, a, b);
    CutAt(head);
    TakeDrop(head, k);
    Assoc(head[..k], head[k..], b);
    Extend(head, b);
    ExtendLossy(head, b);
    CutAfter(head[..k], head[k..] + b, Validate(head[k..] + b), Lossy(head[k..] + b));
  }

  // Malformed first reads.

  /** The truncated character at the end of a lossy scan, if it ends in one. */
  function LossyTail(b: seq<Byte>): seq<Byte> {
    if b == [] then []
    else match ReadHead(b)
      case Char(n) => LossyTail(b[n..])
      case Cut => b
      case Bad(n) => LossyTail(b[n..])
  }

  /** The next byte belongs to the truncated character. */
  predicate Continued(tail: seq<Byte>, b: seq<Byte>) {
    tail != [] && b != [] && !ReadHead(tail + [b[0]]).Bad?
  }

  lemma {:induction false} LossyIsNotEmpty(b: seq<Byte>)
    requires b != []
    ensures Lossy(b) != []
  {
  }

  lemma TailIsBad(b: seq<Byte>)
    requires b != [] && Tail(b[0])
    ensures Lossy(b) == REPLACEMENT + Lossy(b[1..])
  {
    assert ReadHead(b) == Bad(1);
  }

  /** Continuation bytes on their own are replaced one by one. */
  lemma {:induction false} LossyTails(b: seq<Byte>, j: nat)
    requires j <= |b| && forall i | 0 <= i < j :: Tail(b[i])
    ensures |Lossy(b)| == 3 * j + |Lossy(b[j..])|
    decreases j
  {
    if j == 0 {
      assert b[0..] == b;
    } else {
      hide Lossy;
      TailIsBad(b);
      assert b[1..][j - 1..] == b[j..];
      LossyTails(b[1..], j - 1);
    }
  }

  /** What a truncated character and more bytes begin with. */
  lemma CutExtends(t: seq<Byte>, b: seq<Byte>)
    requires t != [] && b != [] && ReadHead(t).Cut?
    ensures !Continued(t, b) ==> ReadHead(t + b) == Bad(|t|)
    ensures Continued(t, b) ==> ReadHead(t + b).Cut? || ReadHead(t + b).n > |t|
    ensures Continued(t, b) && !ReadHead(t + b).Cut? ==> forall i | 0 <= i < ReadHead(t + b).n - |t| :: Tail(b[i])
    ensures Continued(t, b) && ReadHead(t + b).Char? ==> ReadHead(t + b).n <= 4
  {
    var s, one := t + b, t + [b[0]];
    assert forall i | 0 <= i < |t| :: s[i] == t[i] == one[i];
    assert s[|t|] == b[0] == one[|t|];
    assert |b| > 1 ==> s[|t| + 1] == b[1];
    assert |b| > 2 ==> s[|t| + 2] == b[2];
  }

  lemma CutTail(t: seq<Byte>, b: seq<Byte>)
    requires t != [] && ReadHead(t).Cut?
    ensures Lossy(t + b) == REPLACEMENT + Lossy(b) <==> !Continued(t, b)
  {
    hide ReadHead;
    hide Continued;
    if b == [] {
      assert t + b == t && Lossy(b) == [] && REPLACEMENT + [] == REPLACEMENT;
      NothingContinues(t);
    } else {
      CutExtends(t, b);
      LossyIsNotEmpty(b);
      var s := t + b;
      if !Continued(t, b) {
        assert s[|t|..] == b;
      } else if ReadHead(s).Cut? {
        assert Lossy(s) == REPLACEMENT;
      } else {
        var n := ReadHead(s).n;
        LossyTails(b, n - |t|);
        assert s[n..] == b[n - |t|..];
        assert |Lossy(s)| <= 4 + |Lossy(s[n..])|;
      }
    }
  }

  lemma NothingContinues(t: seq<Byte>)
    ensures !Continued(t, [])
  {
  }

  /** Lossy decoding of two parts is that of the whole exactly when the second does not continue a
      truncated character of the first. */
  lemma {:induction false} LossySplitsIff(a: seq<Byte>, b: seq<Byte>)
    ensures Lossy(a + b) == Lossy(a) + Lossy(b) <==> !Continued(LossyTail(a), b)
    decreases |a|
  {
    if a == [] {
      assert a + b == b && [] + Lossy(b) == Lossy(b);
    } else if ReadHead(a).Cut? {
      CutTail(a, b);
    } else {
      HeadStays(a, b);
      hide ReadHead;
      hide Continued;
      var n := ReadHead(a).n;
      var x := if ReadHead(a).Char? then a[..n] else REPLACEMENT;
      CutLeft(a, b, n);
      LossySplitsIff(a[n..], b);
      Assoc(x, Lossy(a[n..]), Lossy(b));
      Cancel(x, Lossy(a[n..] + b), Lossy(a[n..]) + Lossy(b));
    }
  }

  lemma HeadStays(a: seq<Byte>, b: seq<Byte>)
    requires a != [] && !ReadHead(a).Cut?
    ensures ReadHead(a + b) == ReadHead(a)
  {
  }

  lemma Cancel(x: seq<Byte>, y: seq<Byte>, z: seq<Byte>)
    ensures x + y == x + z <==> y == z
  {
    assert (x + y)[|x|..] == y && (x + z)[|x|..] == z;
  }

  lemma {:induction false} LossyOfValid(b: seq<Byte>)
    requires Validate(b).Valid?
    ensures Lossy(b) == b
    decreases |b|
  {
    if b != [] {
      LossyOfValid(b[ReadHead(b).n..]);
      TakeDrop(b, ReadHead(b).n);
    }
  }

  /** What no character begins: the longest beginning of one, or else one byte, is a part to be replaced. */
  ghost predicate IsBadPart(s: seq<Byte>, n: nat) {
    && 1 <= n <= |s|
    && (forall m | 0 < m <= |s| :: !IsChar(s[..m]))
    && (n == 1 || Truncates(s[..n]))
    && forall m | n < m <= |s| :: !Truncates(s[..m])
  }

  lemma PrefixOfBad(s: seq<Byte>, m: nat)
    requires 0 < m <= |s| && !ReadHead(s).Char?
    ensures !IsChar(s[..m])
    ensures ReadHead(s).Bad? && m > ReadHead(s).n ==> !Truncates(s[..m])
    ensures 1 < m && (ReadHead(s).Bad? ==> m <= ReadHead(s).n) ==> Truncates(s[..m])
  {
    var p := s[..m];
    HeadIsCut(p);
    HeadIsChar(p);
  }

  /** A head that is no character tells the part to be replaced. */
  lemma HeadIsBadPart(s: seq<Byte>)
    requires s != [] && !ReadHead(s).Char?
    ensures IsBadPart(s, if ReadHead(s).Cut? then |s| else ReadHead(s).n)
  {
    forall m | 0 < m <= |s|
      ensures !IsChar(s[..m])
      ensures ReadHead(s).Bad? && m > ReadHead(s).n ==> !Truncates(s[..m])
      ensures 1 < m && (ReadHead(s).Bad? ==> m <= ReadHead(s).n) ==> Truncates(s[..m])
    {
      PrefixOfBad(s, m);
    }
  }

  lemma BadPartIsUnique(s: seq<Byte>, m: nat, n: nat)
    requires IsBadPart(s, m) && IsBadPart(s, n)
    ensures m == n
  {
  }

  /** Lossy decoding keeps well-formed text and puts one replacement character for each bad part. */
  lemma {:induction false} LossyReplaces(a: seq<Byte>, s: seq<Byte>, n: nat)
    requires WellFormed(a) && IsBadPart(s, n)
    ensures Lossy(a + s) == a + REPLACEMENT + Lossy(s[n..])
  {
    if ReadHead(s).Char? {
      HeadIsChar(s);
    }
    HeadIsBadPart(s);
    BadPartIsUnique(s, n, if ReadHead(s).Cut? then |s| else ReadHead(s).n);
    assert REPLACEMENT + [] == REPLACEMENT;
    assert Lossy(s) == REPLACEMENT + Lossy(s[n..]);
    ValidIffWellFormed(a);
    ExtendLossy(a, s);
    assert a[..|a|] == a && a[|a|..] + s == s;
    Assoc(a, REPLACEMENT, Lossy(s[n..]));
  }

  /** Two reads are as good as one exactly when the first is not malformed, or the second neither
      continues a truncated character at its end nor is itself incomplete. */
  lemma SplitAgreesIff(carry: seq<Byte>, a: seq<Byte>, b: seq<Byte>)
    ensures (var (out1, carry1) := DecodeStep(carry, a);
             var (out2, carry2) := DecodeStep(carry1, b);
             DecodeStep(carry, a + b) == (out1 + out2, carry2))
       <==> !Validate(carry + a).Invalid? || (!Validate(b).Incomplete? && !Continued(LossyTail(carry + a), b))
  {
    var head := carry + a;
    if !Validate(head).Invalid? {
      SplitAgrees(carry, a, b);
    } else {
      Assoc(carry, a, b);
      if !Validate(head + b).Invalid? {
        PrefixNotInvalid(head, b);
      }
      LossySplitsIff(head, b);
      assert [] + b == b;
      if Validate(b).Valid? {
        LossyOfValid(b);
      }
    }
  }

  /** Unless the input is malformed, decoding cuts it at its last boundary. */
  lemma CutAt(all: seq<Byte>)
    requires !Validate(all).Invalid?
    ensures Decoded(all) == (all[..Boundary(all)], all[Boundary(all)..])
  {
    assert all[..|all|] == all && all[|all|..] == [];
  }

  lemma CutAfter(done: seq<Byte>, rest: seq<Byte>, v: Verdict, lossy: seq<Byte>)
    requires v.Incomplete? ==> v.upTo <= |rest|
    ensures CutBy(done + rest, Shift(|done|, v), done + lossy)
         == (done + CutBy(rest, v, lossy).0, CutBy(rest, v, lossy).1)
  {
    if v.Incomplete? {
      CutRight(done, rest, v.upTo);
    }
  }

  function DecodeAll(carry: seq<Byte>, parts: seq<seq<Byte>>): (seq<seq<Byte>>, seq<Byte>)
    decreases |parts|
  {
    if parts == [] then ([], carry)
    else
      var (out, next) := DecodeStep(carry, parts[0]);
      var (outs, last) := DecodeAll(next, parts[1..]);
      ([out] + outs, last)
  }

  lemma PrefixNotInvalid(a: seq<Byte>, b: seq<Byte>)
    requires !Validate(a + b).Invalid?
    ensures !Validate(a).Invalid?
    decreases |a|
  {
    if a != [] && ReadHead(a).Char? {
      HeadExtends(a, b);
      PrefixNotInvalid(a[ReadHead(a).n..], b);
    }
  }

  /** One read of well-formed text: what is kept back is exactly what the next bytes need. */
  lemma StepOfText(carry: seq<Byte>, part: seq<Byte>, later: seq<Byte>)
    requires WellFormed(carry + part + later)
    ensures var (out, next) := DecodeStep(carry, part);
      && out + next == carry + part && WellFormed(out) && (next == [] || Truncates(next))
  {
    hide WellFormed;
    hide ReadHead;
    hide Lossy;
    hide Truncates;
    var head := carry + part;
    ValidIffWellFormed(head + later);
    PrefixNotInvalid(head, later);
    ValidIffWellFormed(head);
    if Validate(head).Incomplete? {
      IncompleteParts(head);
    }
  }

  lemma StepKeepsText(carry: seq<Byte>, part: seq<Byte>, later: seq<Byte>)
    requires !Validate(carry + part).Invalid?
    ensures WellFormed(carry + part + later) <==> WellFormed(DecodeStep(carry, part).1 + later)
  {
    var head := carry + part;
    var next := DecodeStep(carry, part).1;
    Extend(head, later);
    assert head[Boundary(head)..] == next by { assert head[|head|..] == []; }
    ValidIffWellFormed(head + later);
    ValidIffWellFormed(next + later);
  }

  lemma CarryIsIncomplete(carry: seq<Byte>)
    requires carry == [] || Truncates(carry)
    ensures carry == [] <==> WellFormed(carry)
  {
    EmptyIsWellFormed();
    if carry != [] {
      HeadIsCut(carry);
      ValidIffWellFormed(carry);
    }
  }

  /** Nothing of `text` is lost or altered: outputs and carry make it up, every output is well-formed,
      and the carry is the beginning of one character, empty exactly when the text is complete. */
  ghost predicate Faithful(text: seq<Byte>, outs: seq<seq<Byte>>, last: seq<Byte>) {
    && Flatten(outs) + last == text
    && (forall i | 0 <= i < |outs| :: WellFormed(outs[i]))
    && (last == [] || Truncates(last))
    && (last == [] <==> WellFormed(text))
  }

  lemma FaithfulCons(out: seq<Byte>, text: seq<Byte>, outs: seq<seq<Byte>>, last: seq<Byte>)
    requires WellFormed(out) && Faithful(text, outs, last)
    requires WellFormed(out + text) <==> WellFormed(text)
    ensures Faithful(out + text, [out] + outs, last)
  {
    assert ([out] + outs)[1..] == outs;
    Assoc(out, Flatten(outs), last);
  }

  /** However a beginning of well-formed text is cut into reads, it is decoded faithfully. */
  lemma {:induction false} ReadsAreSplitIndependent(carry: seq<Byte>, parts: seq<seq<Byte>>, future: seq<Byte>)
    requires carry == [] || Truncates(carry)
    requires WellFormed(carry + Flatten(parts) + future)
    ensures var (outs, last) := DecodeAll(carry, parts); Faithful(carry + Flatten(parts), outs, last)
    decreases |parts|
  {
    if parts == [] {
      assert carry + Flatten(parts) == carry;
      CarryIsIncomplete(carry);
    } else {
      var head, others := carry + parts[0], Flatten(parts[1..]);
      Assoc(carry, parts[0], others);
      Assoc(head, others, future);
      StepOfText(carry, parts[0], others + future);
      ValidIffWellFormed(head + (others + future));
      PrefixNotInvalid(head, others + future);
      StepKeepsText(carry, parts[0], others + future);
      StepKeepsText(carry, parts[0], others);
      var (out, next) := DecodeStep(carry, parts[0]);
      Assoc(next, others, future);
      ReadsAreSplitIndependent(next, parts[1..], future);
      var (outs, last) := DecodeAll(next, parts[1..]);
      Assoc(out, next, others);
      FaithfulCons(out, next + others, outs, last);
    }
  }

  /** Whatever is read, every output is well-formed and at most three bytes wait for the next read. */
  lemma DecodeStepIsSafe(carry: seq<Byte>, buffer: seq<Byte>)
    ensures WellFormed(DecodeStep(carry, buffer).0) && |DecodeStep(carry, buffer).1| <= 3
  {
    var all := carry + buffer;
    ValidIffWellFormed(all);
    LossyIsWellFormed(all);
    if Validate(all).Incomplete? {
      IncompleteParts(all);
    }
  }

  /** Malformed text is decoded differently when a read ends inside a character: FF C2 | A9. */
  lemma MalformedDependsOnTheSplit()
    ensures DecodeAll([], [[0xFF, 0xC2], [0xA9]]) == ([REPLACEMENT + REPLACEMENT, REPLACEMENT], [])
    ensures DecodeAll([], [[0xFF, 0xC2, 0xA9]]) == ([REPLACEMENT + [0xC2, 0xA9]], [])
    ensures Continued(LossyTail([0xFF, 0xC2]), [0xA9])
  {
    var first: seq<Byte>, second: seq<Byte>, whole: seq<Byte> := [0xFF, 0xC2], [0xA9], [0xFF, 0xC2, 0xA9];
    assert first[1..] == [0xC2] && second[1..] == [] && whole[1..] == [0xC2, 0xA9];
    assert whole[1..][2..] == [] && whole[1..][..2] == [0xC2, 0xA9];
    assert Lossy(first) == REPLACEMENT + Lossy([0xC2]) && Lossy([0xC2]) == REPLACEMENT;
    assert Lossy(second) == REPLACEMENT + Lossy([]) == REPLACEMENT;
    assert Lossy(whole) == REPLACEMENT + Lossy(whole[1..]) && Lossy(whole[1..]) == [0xC2, 0xA9] + Lossy([]);
    assert LossyTail(first) == LossyTail(first[1..]) == [0xC2];
    DecodeOne(first, [second]);
    DecodeOne(second, []);
    DecodeOne(whole, []);
    assert [first, second] == [first] + [second] && [second] == [second] + [] && [whole] == [whole] + [];
    var nothing: seq<seq<Byte>> := [];
    assert DecodeAll([], nothing) == ([], []);
    assert [REPLACEMENT] + nothing == [REPLACEMENT];
    assert DecodeAll([], [second]) == ([REPLACEMENT], []);
    assert [Lossy(first)] + [REPLACEMENT] == [REPLACEMENT + REPLACEMENT, REPLACEMENT];
    var rest: seq<Byte> := [0xC2, 0xA9];
    assert Lossy(rest) == rest by { assert rest[..2] == rest && rest[2..] == []; assert rest + [] == rest; }
    assert [Lossy(whole)] + nothing == [REPLACEMENT + [0xC2, 0xA9]];
  }

  lemma DecodeOne(part: seq<Byte>, parts: seq<seq<Byte>>)
    requires Validate(part).Invalid?
    ensures DecodeAll([], [part] + parts) == ([Lossy(part)] + DecodeAll([], parts).0, DecodeAll([], parts).1)
  {
    assert [] + part == part;
    assert ([part] + parts)[1..] == parts;
  }
}
