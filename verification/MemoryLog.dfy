/** The bounded history of records (src/ghci/memory_log.rs): a file that is appended to and, when it
    gets long, cut at a record boundary. */
module MemoryLog {
  import opened Basics
  import opened ByteStrings

  const PRUNE_BYTES: nat := 15 * 1024 * 1024
  const KEEP_BYTES: nat := 10 * 1024 * 1024

  datatype Outcome = Written | RecordTooLong | NoBoundary | DiskFailed

  /** A serialised record: its only newline is its last byte. */
  predicate IsRecord(r: Bytes) {
    r != [] && r[|r| - 1] == NEWLINE && forall i | 0 <= i < |r| - 1 :: r[i] != NEWLINE
  }

  predicate AreRecords(rs: seq<Bytes>) {
    forall i | 0 <= i < |rs| :: IsRecord(rs[i])
  }

  /** `k` is where the longest run of last records that fits in `limit` bytes begins. */
  ghost predicate LongestSuffix(rs: seq<Bytes>, k: nat, limit: nat) {
    k <= |rs| && |Flatten(rs[k..])| <= limit && (k > 0 ==> |Flatten(rs[k - 1..])| > limit)
  }

  lemma FirstEnds(r: Bytes, rest: Bytes, p: nat)
    requires IsRecord(r) && p < |r|
    ensures NewlineFrom(r + rest, p) == |r| - 1 && (r + rest)[|r|..] == rest
  {
    NewlineIs(r + rest, p, |r| - 1);
  }

  /** Cutting after the first newline from any position on cuts between two records, and the record
      before the cut begins no later than that position. */
  lemma {:induction false} CutsAtARecord(rs: seq<Bytes>, p: nat) returns (k: nat)
    requires AreRecords(rs) && p < |Flatten(rs)|
    ensures var j := NewlineFrom(Flatten(rs), p);
      j < |Flatten(rs)| && 0 < k <= |rs| && Flatten(rs)[j + 1..] == Flatten(rs[k..])
    ensures |Flatten(rs[k - 1..])| >= |Flatten(rs)| - p
    decreases |rs|
  {
    var r, others := rs[0], rs[1..];
    var all := Flatten(rs);
    hide IsRecord;
    hide NewlineFrom;
    if p < |r| {
      k := 1;
      FirstEnds(r, Flatten(others), p);
      assert rs[0..] == rs;
    } else {
      var k' := CutsAtARecord(others, p - |r|);
      k := k' + 1;
      NewlineShift(r, Flatten(others), p - |r|);
      CutRight(r, Flatten(others), NewlineFrom(Flatten(others), p - |r|) + 1);
      assert rs[k..] == others[k'..] && rs[k - 1..] == others[k' - 1..];
    }
  }

  /** A file of records, the last of them within the retention size, is cut to the longest run of last
      records within it, which holds at least the last. */
  lemma PruneIsExact(rs: seq<Bytes>) returns (k: nat)
    requires AreRecords(rs) && rs != [] && |rs[|rs| - 1]| <= KEEP_BYTES && |Flatten(rs)| > KEEP_BYTES
    ensures var s := Flatten(rs); var tail := s[|s| - KEEP_BYTES - 1..]; var start := NewlineFrom(tail, 0);
      start < |tail| && k <= |rs| && tail[start + 1..] == Flatten(rs[k..])
    ensures 0 < k < |rs| && LongestSuffix(rs, k, KEEP_BYTES)
  {
    var s := Flatten(rs);
    var p := |s| - KEEP_BYTES - 1;
    k := CutsAtARecord(rs, p);
    NewlineInTail(s, p);
    var tail := s[p..];
    var start := NewlineFrom(tail, 0);
    SliceAgain(s, p, start + 1);
    if k == |rs| {
      LastAlone(rs);
    }
  }

  lemma LastAlone(rs: seq<Bytes>)
    requires rs != []
    ensures Flatten(rs[|rs| - 1..]) == rs[|rs| - 1]
  {
    var last := rs[|rs| - 1..];
    assert last[1..] == [] && last[0] + [] == last[0];
  }

  /** The longest run is unique. */
  lemma LongestIsUnique(rs: seq<Bytes>, k: nat, k': nat, limit: nat)
    requires LongestSuffix(rs, k, limit) && LongestSuffix(rs, k', limit)
    ensures k == k'
  {
    if k < k' {
      Longer(rs, k, k' - 1);
    } else if k' < k {
      Longer(rs, k', k - 1);
    }
  }

  lemma {:induction false} Longer(rs: seq<Bytes>, i: nat, j: nat)
    requires i <= j <= |rs|
    ensures |Flatten(rs[j..])| <= |Flatten(rs[i..])|
    decreases j - i
  {
    if i < j {
      Longer(rs, i + 1, j);
      assert rs[i..][1..] == rs[i + 1..];
    }
  }

  lemma OneLongest(rs: seq<Bytes>, k: nat)
    requires LongestSuffix(rs, k, KEEP_BYTES)
    ensures forall k' :: LongestSuffix(rs, k', KEEP_BYTES) ==> k' == k
  {
    forall k' | LongestSuffix(rs, k', KEEP_BYTES) ensures k' == k {
      LongestIsUnique(rs, k, k', KEEP_BYTES);
    }
  }

  class HistoryFile {
    var contents: Bytes
    /** Every record ever appended, and the first that is still in the file. */
    ghost var history: seq<Bytes>
    ghost var first: nat

    ghost predicate Valid()
      reads this
    {
      && AreRecords(history)
      && first <= |history|
      && contents == Flatten(history[first..])
      && (history != [] ==> first < |history|)
    }

    constructor ()
      ensures Valid() && contents == [] && history == []
    {
      contents, history, first := [], [], 0;
    }

    /** `saved` says whether the shortened copy could be written and renamed. */
    method Append(line: Bytes, saved: bool) returns (r: Outcome)
      requires Valid() && IsRecord(line)
      modifies this
      ensures Valid() && r != NoBoundary
      ensures r == RecordTooLong <==> |line| > KEEP_BYTES
      ensures r == RecordTooLong ==> unchanged(this)
      ensures r != RecordTooLong ==> history == old(history) + [line]
      ensures r == Written ==> |contents| < PRUNE_BYTES
      ensures r == DiskFailed ==> !saved
      ensures r != RecordTooLong && old(|contents|) + |line| < PRUNE_BYTES ==> r == Written && first == old(first)
      ensures r == Written && old(|contents|) + |line| >= PRUNE_BYTES ==>
        LongestSuffix(history, first, KEEP_BYTES) && forall k :: LongestSuffix(history, k, KEEP_BYTES) ==> k == first
      ensures r == DiskFailed ==> contents == old(contents) + line
    {
      hide Flatten;
      hide NewlineFrom;
      if |line| > KEEP_BYTES { return RecordTooLong; }
      FlattenSnoc(history[first..], line);
      assert (history + [line])[first..] == history[first..] + [line];
      contents, history := contents + line, history + [line];
      if |contents| >= PRUNE_BYTES {
        var tail := contents[|contents| - KEEP_BYTES - 1..];
        var start := NewlineFrom(tail, 0);
        ghost var k := PruneIsExact(history[first..]);
        SuffixOfSuffix(history, first, k);
        if start == |tail| { return NoBoundary; }
        if !saved { return DiskFailed; }
        contents, first := tail[start + 1..], first + k;
        assert |contents| <= KEEP_BYTES;
        OneLongest(history, first);
      }
      return Written;
    }
  }

  lemma SuffixOfSuffix(rs: seq<Bytes>, i: nat, k: nat)
    requires i <= |rs| && k > 0 && LongestSuffix(rs[i..], k, KEEP_BYTES)
    ensures i + k <= |rs| && rs[i..][k..] == rs[i + k..] && LongestSuffix(rs, i + k, KEEP_BYTES)
  {
    assert rs[i..][k - 1..] == rs[i + k - 1..];
  }

  // Whole histories.

  /** The file after one append that meets no failure. */
  function Appended(contents: Bytes, line: Bytes): Bytes {
    var grown := contents + line;
    if |grown| < PRUNE_BYTES then grown
    else
      var tail := grown[|grown| - KEEP_BYTES - 1..];
      var start := NewlineFrom(tail, 0);
      if start == |tail| then grown else tail[start + 1..]
  }

  function FileAfter(rs: seq<Bytes>): Bytes {
    if rs == [] then [] else Appended(FileAfter(rs[..|rs| - 1]), rs[|rs| - 1])
  }

  /** The file holds the records from `k` on, and at least the newest; earlier ones did not fit. */
  ghost predicate Holds(rs: seq<Bytes>, file: Bytes, k: nat) {
    && k <= |rs|
    && file == Flatten(rs[k..])
    && |file| < PRUNE_BYTES
    && (rs != [] ==> k < |rs|)
    && (k > 0 ==> |Flatten(rs[k - 1..])| > KEEP_BYTES)
  }

  lemma HoldsAfterOne(rs: seq<Bytes>, file: Bytes, k: nat, line: Bytes) returns (k': nat)
    requires AreRecords(rs + [line]) && |line| <= KEEP_BYTES && Holds(rs, file, k)
    ensures Holds(rs + [line], Appended(file, line), k')
  {
    hide Flatten;
    hide AreRecords;
    hide NewlineFrom;
    var all := rs + [line];
    FlattenSnoc(rs[k..], line);
    assert all[k..] == rs[k..] + [line];
    var grown := file + line;
    k' := k;
    if |grown| >= PRUNE_BYTES {
      assert AreRecords(all[k..]) by { TailsAreRecords(all, k); }
      var more := PruneIsExact(all[k..]);
      SuffixOfSuffix(all, k, more);
      k' := k + more;
    } else if k > 0 {
      assert all[k - 1..] == rs[k - 1..] + [line];
      FlattenSnoc(rs[k - 1..], line);
    }
  }

  lemma TailsAreRecords(rs: seq<Bytes>, k: nat)
    requires k <= |rs| && AreRecords(rs)
    ensures AreRecords(rs[k..])
  {
  }

  /** Whatever is appended, the file is a run of the last records, ends with the newest, and stays
      below the threshold. */
  lemma {:induction false} EveryHistoryIsASuffix(rs: seq<Bytes>) returns (k: nat)
    requires AreRecords(rs) && forall i | 0 <= i < |rs| :: |rs[i]| <= KEEP_BYTES
    ensures Holds(rs, FileAfter(rs), k)
    decreases |rs|
  {
    if rs == [] {
      k := 0;
    } else {
      var before, line := rs[..|rs| - 1], rs[|rs| - 1];
      assert rs == before + [line];
      k := EveryHistoryIsASuffix(before);
      hide Holds;
      k := HoldsAfterOne(before, FileAfter(before), k, line);
    }
  }
}
