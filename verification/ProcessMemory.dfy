/** The upward, depth-bounded walk of src/ghci/memory.rs, and its agreement with the downward
    closure of `process_tree`. */
module ProcessMemory {
  import opened Basics
  import opened ProcessFamily

  const U64_MAX: nat := 0xFFFF_FFFF_FFFF_FFFF

  datatype Process = Process(
    pid: int, parentPid: int, groupId: int, residentBytes: nat,
    interactive: bool, ghcExecutable: bool, cabalExecutable: bool)

  function Stats(processes: map<int, Process>): Snapshot {
    map pid | pid in processes ::
      ProcessStat(processes[pid].pid, processes[pid].parentPid, processes[pid].groupId, 0)
  }

  predicate WellFiled(processes: map<int, Process>) {
    forall pid <- processes :: processes[pid].pid == pid
  }

  /** `d` is the first ancestor distance at which `ancestor` appears. */
  ghost predicate IsDepth(s: Snapshot, pid: int, ancestor: int, d: nat) {
    Up(s, pid, d) == Some(ancestor) && forall j: nat | j < d :: Up(s, pid, j) != Some(ancestor)
  }

  lemma {:induction false} UpAdd(s: Snapshot, pid: int, j: nat, k: nat)
    requires Up(s, pid, j).Some?
    ensures Up(s, pid, j + k) == Up(s, Up(s, pid, j).value, k)
    decreases j
  {
    if j != 0 {
      UpAdd(s, s[pid].parentPid, j - 1, k);
    }
  }

  lemma {:induction false} UpDefined(s: Snapshot, pid: int, j: nat, k: nat)
    requires j < k && Up(s, pid, k).Some?
    ensures Up(s, pid, j).Some? && Up(s, pid, j).value in s
    decreases j
  {
    if j != 0 {
      UpDefined(s, s[pid].parentPid, j - 1, k - 1);
    }
  }

  /** The first `n` processes on the way up. */
  ghost function Path(s: Snapshot, pid: int, n: nat): set<int> {
    set j: nat | j < n && Up(s, pid, j).Some? :: Up(s, pid, j).value
  }

  ghost predicate Descends(s: Snapshot, pid: int, ancestor: int) {
    exists k: nat :: Up(s, pid, k) == Some(ancestor)
  }

  /** No process repeats before the ancestor is first met: a repetition would come round to the
      ancestor earlier. */
  lemma NoRepeats(s: Snapshot, pid: int, ancestor: int, d: nat, i: nat, j: nat)
    requires IsDepth(s, pid, ancestor, d) && i < j < d
    ensures Up(s, pid, i) != Up(s, pid, j)
  {
    UpDefined(s, pid, i, d);
    UpDefined(s, pid, j, d);
    UpAdd(s, pid, i, d - j);
    UpAdd(s, pid, j, d - j);
  }

  lemma {:induction false} PathSize(s: Snapshot, pid: int, ancestor: int, d: nat, n: nat)
    requires IsDepth(s, pid, ancestor, d) && n <= d
    ensures |Path(s, pid, n)| == n && ancestor !in Path(s, pid, n)
    decreases n
  {
    if n != 0 {
      PathSize(s, pid, ancestor, d, n - 1);
      UpDefined(s, pid, n - 1, d);
      forall j: nat | j < n - 1 ensures Up(s, pid, j) != Up(s, pid, n - 1) {
        NoRepeats(s, pid, ancestor, d, j, n - 1);
      }
      assert Path(s, pid, n) == Path(s, pid, n - 1) + {Up(s, pid, n - 1).value};
    }
  }

  lemma SubsetSize(a: set<int>, b: set<int>)
    requires a <= b
    ensures |a| <= |b|
  {
    assert b == a + (b - a);
  }

  /** Pigeonhole: an ancestor is met within as many steps as there are processes, and in fewer when it
      is itself one of them, however the parent links cycle. */
  lemma DepthBound(s: Snapshot, pid: int, ancestor: int, d: nat)
    requires IsDepth(s, pid, ancestor, d)
    ensures d <= |s| && (ancestor in s ==> d < |s|)
  {
    PathSize(s, pid, ancestor, d, d);
    var path := Path(s, pid, d);
    forall q <- path ensures q in s {
      var j: nat :| j < d && Up(s, pid, j) == Some(q);
      UpDefined(s, pid, j, d);
    }
    SubsetSize(path, s.Keys);
    if ancestor in s {
      SubsetSize(path + {ancestor}, s.Keys);
    }
  }

  lemma {:induction false} LeastDepth(s: Snapshot, pid: int, ancestor: int, k: nat) returns (d: nat)
    requires Up(s, pid, k) == Some(ancestor)
    ensures d <= k && IsDepth(s, pid, ancestor, d)
    decreases k
  {
    d := k;
    if j: nat :| j < k && Up(s, pid, j) == Some(ancestor) {
      d := LeastDepth(s, pid, ancestor, j);
    }
  }

  /** A process that is its own parent leads nowhere else. */
  lemma {:induction false} SelfParent(s: Snapshot, pid: int, k: nat)
    requires pid in s && s[pid].parentPid == pid
    ensures Up(s, pid, k) == Some(pid)
    decreases k
  {
    if k != 0 {
      SelfParent(s, pid, k - 1);
    }
  }

  /** Walks up at most as many steps as there are processes. */
  method DescendantDepth(start: int, ancestor: int, processes: map<int, Process>) returns (depth: Option<nat>)
    requires WellFiled(processes)
    ensures depth.Some? ==> depth.value < |processes| && IsDepth(Stats(processes), start, ancestor, depth.value)
    ensures depth.None? ==> forall k: nat | Up(Stats(processes), start, k) == Some(ancestor) :: k >= |processes|
    // With the ancestor among the processes the bound costs nothing.
    ensures ancestor in processes ==>
      (depth.Some? <==> Descends(Stats(processes), start, ancestor))
  {
    ghost var s := Stats(processes);
    var pid := start;
    for d := 0 to |processes|
      invariant Up(s, start, d) == Some(pid)
      invariant forall j: nat | j < d :: Up(s, start, j) != Some(ancestor)
    {
      if pid == ancestor {
        return Some(d);
      }
      if pid !in processes {
        forall k: nat | k > d ensures Up(s, start, k).None? {
          UpAdd(s, start, d, k - d);
        }
        return None;
      }
      var parentPid := processes[pid].parentPid;
      if parentPid == pid {
        forall k: nat | k >= d ensures Up(s, start, k) == Some(pid) {
          UpAdd(s, start, d, k - d);
          SelfParent(s, pid, k - d);
        }
        return None;
      }
      UpAdd(s, start, d, 1);
      assert Up(s, pid, 1) == Up(s, parentPid, 0) == Some(parentPid);
      pid := parentPid;
    }
    depth := None;
    if k: nat :| Up(s, start, k) == Some(ancestor) {
      var d := LeastDepth(s, start, ancestor, k);
      DepthBound(s, start, ancestor, d);
      assert |s| == |processes| by { assert s.Keys == processes.Keys; }
    }
  }

  /** The bound is exact only for a known ancestor: a chain through every process to an unknown one
      is given up one step early. */
  lemma UnknownAncestorIsMissed()
    ensures var s := map[1 := ProcessStat(1, 0, 1, 0)];
      IsDepth(s, 1, 0, 1) && !exists d: nat :: d < |s| && IsDepth(s, 1, 0, d)
  {
    var s := map[1 := ProcessStat(1, 0, 1, 0)];
    assert Up(s, 0, 0) == Some(0);
    assert Up(s, 1, 1) == Some(0);
  }

  /** The two walks agree on a command that is known and alone in its group. */
  lemma WalksAgree(s: Snapshot, pid: int, root: int, groupId: int)
    requires root in s && forall q <- s :: s[q].groupId == groupId ==> q == root
    requires pid in s
    ensures InTree(pid, root, groupId, s) <==> exists d: nat :: d < |s| && IsDepth(s, pid, root, d)
  {
    if InTree(pid, root, groupId, s) {
      var k: nat :| SeedAt(pid, k, root, groupId, s);
      var d := LeastDepth(s, pid, root, k);
      DepthBound(s, pid, root, d);
    }
    if d: nat :| d < |s| && IsDepth(s, pid, root, d) {
      assert SeedAt(pid, d, root, groupId, s);
    }
  }

  // Memory charged to the whole tree.

  function Saturate(n: nat): nat {
    if n > U64_MAX then U64_MAX else n
  }

  ghost function Resident(pids: set<int>, processes: map<int, Process>): nat
    requires pids <= processes.Keys
  {
    if pids == {} then 0
    else var pid := Pick(pids); processes[pid].residentBytes + Resident(pids - {pid}, processes)
  }

  lemma {:induction false} ResidentAdd(pids: set<int>, pid: int, processes: map<int, Process>)
    requires pids <= processes.Keys && pid in processes && pid !in pids
    ensures Resident(pids + {pid}, processes) == processes[pid].residentBytes + Resident(pids, processes)
    decreases |pids|
  {
    var all := pids + {pid};
    var first := Pick(all);
    if first == pid {
      assert all - {first} == pids;
    } else {
      var fewer := pids - {first};
      ResidentAdd(fewer, pid, processes);
      assert all - {first} == fewer + {pid};
      ResidentAdd(fewer, first, processes);
      assert fewer + {first} == pids;
    }
  }

  ghost function Descendants(root: int, processes: map<int, Process>): set<int> {
    set pid | pid in processes && Descends(Stats(processes), pid, root)
  }

  /** Sums, saturating at each addition, the resident memory of every descendant of the root. */
  method TreeBytes(root: int, processes: map<int, Process>) returns (total: nat)
    requires WellFiled(processes) && root in processes
    ensures total == Saturate(Resident(Descendants(root, processes), processes))
  {
    total := 0;
    var rest := processes.Keys;
    ghost var counted: set<int> := {};
    while rest != {}
      invariant rest <= processes.Keys
      invariant counted == Descendants(root, processes) - rest
      invariant total == Saturate(Resident(counted, processes))
    {
      var pid;
      pid, rest := TakeOne(rest);
      var depth := DescendantDepth(pid, root, processes);
      assert depth.Some? <==> pid in Descendants(root, processes);
      if depth.Some? {
        total := Saturate(total + processes[pid].residentBytes);
        ResidentAdd(counted, pid, processes);
        counted := counted + {pid};
      }
    }
    assert counted == Descendants(root, processes);
  }

  // The pair of persistent processes that is charged against the limit.

  /** An interactive GHC whose parent is a Cabal process started directly by the command. */
  predicate IsPair(cabal: int, ghc: int, commandPid: int, processes: map<int, Process>) {
    && ghc in processes && processes[ghc].interactive && processes[ghc].ghcExecutable
    && cabal in processes && processes[cabal].cabalExecutable
    && processes[ghc].parentPid == cabal && processes[cabal].parentPid == commandPid
    && ghc != commandPid && cabal != commandPid
  }

  lemma DepthsOfPair(ghc: int, commandPid: int, s: Snapshot, depth: Option<nat>, parentDepth: Option<nat>)
    requires ghc in s && s[ghc].parentPid in s
    requires depth.Some? ==> IsDepth(s, ghc, commandPid, depth.value)
    requires depth.None? ==> forall k: nat :: Up(s, ghc, k) != Some(commandPid)
    requires parentDepth.Some? ==> IsDepth(s, s[ghc].parentPid, commandPid, parentDepth.value)
    requires parentDepth.None? ==> forall k: nat :: Up(s, s[ghc].parentPid, k) != Some(commandPid)
    ensures (depth == Some(2) && parentDepth == Some(1))
       <==> s[s[ghc].parentPid].parentPid == commandPid && ghc != commandPid && s[ghc].parentPid != commandPid
  {
    var parent := s[ghc].parentPid;
    assert Up(s, ghc, 0) == Some(ghc);
    assert Up(s, ghc, 1) == Some(parent) by { assert Up(s, parent, 0) == Some(parent); }
    assert Up(s, parent, 1) == Some(s[parent].parentPid) by {
      assert Up(s, s[parent].parentPid, 0) == Some(s[parent].parentPid);
    }
    assert Up(s, ghc, 2) == Some(s[parent].parentPid);
  }

  /** The pair with the smallest GHC pid, if the command still leads the group it was given. */
  method SelectReplProcesses(commandPid: int, groupId: int, processes: map<int, Process>)
    returns (selected: Option<(int, int)>)
    requires WellFiled(processes)
    ensures selected.Some? ==> commandPid in processes && processes[commandPid].groupId == groupId
    ensures selected.Some? ==> IsPair(selected.value.0, selected.value.1, commandPid, processes)
    ensures commandPid in processes && processes[commandPid].groupId == groupId ==>
      forall cabal, ghc | IsPair(cabal, ghc, commandPid, processes) :: selected.Some? && selected.value.1 <= ghc
  {
    selected := None;
    if commandPid !in processes || processes[commandPid].groupId != groupId {
      return;
    }
    var rest := processes.Keys;
    while rest != {}
      invariant rest <= processes.Keys
      invariant selected.Some? ==> IsPair(selected.value.0, selected.value.1, commandPid, processes)
      invariant forall cabal, ghc | IsPair(cabal, ghc, commandPid, processes) && ghc !in rest ::
        selected.Some? && selected.value.1 <= ghc
    {
      var ghc;
      ghc, rest := TakeOne(rest);
      var cabal := processes[ghc].parentPid;
      if processes[ghc].interactive && processes[ghc].ghcExecutable && cabal in processes {
        var depth := DescendantDepth(ghc, commandPid, processes);
        var parentDepth := DescendantDepth(cabal, commandPid, processes);
        DepthsOfPair(ghc, commandPid, Stats(processes), depth, parentDepth);
        if depth == Some(2) && processes[cabal].cabalExecutable && parentDepth == Some(1)
           && (selected.None? || ghc < selected.value.1) {
          selected := Some((cabal, ghc));
        }
      }
    }
  }
}
