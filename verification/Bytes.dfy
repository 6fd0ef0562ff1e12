/** Bytes, and finding newlines among them. */
module ByteStrings {
  import opened Basics

  type Byte = b: int | 0 <= b < 0x100

  type Bytes = seq<Byte>

  const NEWLINE: Byte := 0x0A

  /** The first newline from `i` on, or the length. */
  function NewlineFrom(s: Bytes, i: nat): (j: nat)
    requires i <= |s|
    ensures i <= j <= |s|
    ensures j < |s| ==> s[j] == NEWLINE
    ensures forall k | i <= k < j :: s[k] != NEWLINE
    decreases |s| - i
  {
    if i == |s| || s[i] == NEWLINE then i else NewlineFrom(s, i + 1)
  }

  lemma NewlineIs(s: Bytes, p: nat, j: nat)
    requires p <= j < |s| && s[j] == NEWLINE && forall i | p <= i < j :: s[i] != NEWLINE
    ensures NewlineFrom(s, p) == j
  {
  }

  lemma NewlineShift(a: Bytes, s: Bytes, i: nat)
    requires i <= |s|
    ensures NewlineFrom(a + s, |a| + i) == |a| + NewlineFrom(s, i)
    decreases |s| - i
  {
    if i < |s| {
      assert (a + s)[|a| + i] == s[i];
      if s[i] != NEWLINE {
        NewlineShift(a, s, i + 1);
      }
    }
  }

  lemma NewlineInTail(s: Bytes, p: nat)
    requires p <= |s|
    ensures NewlineFrom(s, p) == p + NewlineFrom(s[p..], 0)
  {
    TakeDrop(s, p);
    NewlineShift(s[..p], s[p..], 0);
  }
}
