/** The command's process family: the downward closure of `process_tree` (src/ghci/process.rs)
    against parent chains, and against the least set closed under "my parent is in the family". */
module ProcessFamily {

  import opened Basics

  datatype ProcessStat = ProcessStat(pid: int, parentPid: int, groupId: int, startTime: nat)

  type Snapshot = map<int, ProcessStat>

  /** A snapshot files every process under its own pid. */
  predicate WellKeyed(s: Snapshot) {
    forall pid <- s :: s[pid].pid == pid
  }

  predicate IsSeed(pid: int, processId: int, groupId: int, s: Snapshot) {
    pid == processId || (pid in s && s[pid].groupId == groupId)
  }

  /** The `k`-th ancestor of `pid`, as long as every process passed on the way is known. */
  function Up(s: Snapshot, pid: int, k: nat): Option<int>
    decreases k
  {
    if k == 0 then Some(pid)
    else if pid in s then Up(s, s[pid].parentPid, k - 1)
    else None
  }

  ghost predicate SeedAt(pid: int, k: nat, processId: int, groupId: int, s: Snapshot) {
    Up(s, pid, k).Some? && IsSeed(Up(s, pid, k).value, processId, groupId, s)
  }

  /** A live process that reaches the command or its group by following parents. */
  ghost predicate InTree(pid: int, processId: int, groupId: int, s: Snapshot) {
    pid in s && exists k: nat :: SeedAt(pid, k, processId, groupId, s)
  }

  ghost predicate Closed(f: set<int>, processId: int, groupId: int, s: Snapshot) {
    && processId in f
    && (forall pid <- s :: s[pid].groupId == groupId ==> pid in f)
    && (forall pid <- s :: s[pid].parentPid in f ==> pid in f)
  }

  /** Every set closed under parenthood contains the whole tree. */
  lemma {:induction false} TreeIsLeast(pid: int, k: nat, f: set<int>, processId: int, groupId: int, s: Snapshot)
    requires Closed(f, processId, groupId, s)
    requires SeedAt(pid, k, processId, groupId, s)
    ensures pid in f
    decreases k
  {
    if k == 0 {
    } else {
      TreeIsLeast(s[pid].parentPid, k - 1, f, processId, groupId, s);
    }
  }

  /** A child of a family member is itself in the tree. */
  lemma ChildInTree(pid: int, processId: int, groupId: int, s: Snapshot)
    requires pid in s
    requires s[pid].parentPid == processId || InTree(s[pid].parentPid, processId, groupId, s)
    ensures InTree(pid, processId, groupId, s)
  {
    var parent := s[pid].parentPid;
    if parent == processId {
      assert Up(s, parent, 0) == Some(processId);
      assert SeedAt(pid, 1, processId, groupId, s);
    } else {
      var k: nat :| SeedAt(parent, k, processId, groupId, s);
      assert SeedAt(pid, k + 1, processId, groupId, s);
    }
  }

  /** The known members of `f`, each listed once. */
  ghost predicate Lists(processes: seq<ProcessStat>, f: set<int>, s: Snapshot) {
    && (forall i | 0 <= i < |processes| ::
          processes[i].pid in f && processes[i].pid in s && s[processes[i].pid] == processes[i])
    && (forall i, j | 0 <= i < j < |processes| :: processes[i].pid != processes[j].pid)
    && (forall pid | pid in f && pid in s :: s[pid] in processes)
  }

  lemma ListsAdd(processes: seq<ProcessStat>, f: set<int>, s: Snapshot, pid: int)
    requires WellKeyed(s) && Lists(processes, f, s) && pid in s && pid !in f
    ensures Lists(processes + [s[pid]], f + {pid}, s)
  {
    var after := processes + [s[pid]];
    forall q | q in f + {pid} && q in s ensures s[q] in after {
      if q == pid { assert after[|processes|] == s[pid]; } else { assert s[q] in processes; }
    }
  }

  lemma SeedMember(pid: int, f: set<int>, processId: int, groupId: int, s: Snapshot)
    requires Closed(f, processId, groupId, s)
    requires pid == processId || InTree(pid, processId, groupId, s)
    ensures pid in f
  {
    if pid != processId {
      var k: nat :| SeedAt(pid, k, processId, groupId, s);
      TreeIsLeast(pid, k, f, processId, groupId, s);
    }
  }

  /** The seeds are listed before all others. */
  predicate SeedsFirst(processes: seq<ProcessStat>, processId: int, groupId: int, s: Snapshot) {
    forall i, j | 0 <= i < j < |processes| && IsSeed(processes[j].pid, processId, groupId, s) ::
      IsSeed(processes[i].pid, processId, groupId, s)
  }

  /** A stage of the closure: everything collected belongs to the tree, and is listed once. */
  ghost predicate Growing(family: set<int>, processes: seq<ProcessStat>, processId: int, groupId: int, s: Snapshot) {
    && processId in family
    && (forall pid <- s :: s[pid].groupId == groupId ==> pid in family)
    && (forall pid <- family :: pid == processId || InTree(pid, processId, groupId, s))
    && Lists(processes, family, s) && SeedsFirst(processes, processId, groupId, s)
  }

  lemma Grow(family: set<int>, processes: seq<ProcessStat>, pid: int, processId: int, groupId: int, s: Snapshot)
    requires WellKeyed(s) && Growing(family, processes, processId, groupId, s)
    requires pid in s && pid !in family && s[pid].parentPid in family
    ensures Growing(family + {pid}, processes + [s[pid]], processId, groupId, s)
  {
    ChildInTree(pid, processId, groupId, s);
    ListsAdd(processes, family, s, pid);
  }

  ghost predicate IsTree(processes: seq<ProcessStat>, processId: int, groupId: int, s: Snapshot) {
    forall st: ProcessStat ::
      st in processes <==> st.pid in s && st == s[st.pid] && InTree(st.pid, processId, groupId, s)
  }

  lemma ClosedIsTree(family: set<int>, processes: seq<ProcessStat>, processId: int, groupId: int, s: Snapshot)
    requires WellKeyed(s) && Growing(family, processes, processId, groupId, s)
    requires Closed(family, processId, groupId, s)
    ensures IsTree(processes, processId, groupId, s)
  {
    forall st: ProcessStat | st.pid in s && st == s[st.pid] && InTree(st.pid, processId, groupId, s)
      ensures st in processes
    {
      SeedMember(st.pid, family, processId, groupId, s);
    }
    forall st | st in processes ensures st.pid in s && st == s[st.pid] && InTree(st.pid, processId, groupId, s) {
      if st.pid == processId {
        SeedInTree(processId, processId, groupId, s);
      }
    }
  }

  lemma SeedInTree(pid: int, processId: int, groupId: int, s: Snapshot)
    requires pid in s && IsSeed(pid, processId, groupId, s)
    ensures InTree(pid, processId, groupId, s)
  {
    assert SeedAt(pid, 0, processId, groupId, s);
  }

  /** The seeds: the command, and every member of its group. */
  method Seeds(processId: int, groupId: int, snapshot: Snapshot)
    returns (family: set<int>, processes: seq<ProcessStat>)
    requires WellKeyed(snapshot)
    ensures Growing(family, processes, processId, groupId, snapshot)
  {
    family := (set pid | pid in snapshot && (pid == processId || snapshot[pid].groupId == groupId)) + {processId};
    processes := [];
    forall pid <- family ensures pid == processId || InTree(pid, processId, groupId, snapshot) {
      if pid != processId {
        SeedInTree(pid, processId, groupId, snapshot);
      }
    }
    var unread := family;
    while unread != {}
      invariant unread <= family && SeedsFirst(processes, processId, groupId, snapshot)
      invariant Lists(processes, family - unread, snapshot)
    {
      var pid, rest := TakeOne(unread);
      assert family - rest == (family - unread) + {pid};
      if pid in snapshot {
        ListsAdd(processes, family - unread, snapshot, pid);
        processes := processes + [snapshot[pid]];
      }
      unread := rest;
    }
    assert family - unread == family;
  }

  /** One pass over the snapshot, adding every process whose parent is already in the family. */
  method AdoptChildren(before: set<int>, listed: seq<ProcessStat>, processId: int, groupId: int, snapshot: Snapshot)
    returns (family: set<int>, processes: seq<ProcessStat>, changed: bool)
    requires WellKeyed(snapshot) && Growing(before, listed, processId, groupId, snapshot)
    ensures Growing(family, processes, processId, groupId, snapshot)
    ensures changed ==> snapshot.Keys - family < snapshot.Keys - before
    ensures !changed ==> family == before && processes == listed && Closed(family, processId, groupId, snapshot)
  {
    family, processes, changed := before, listed, false;
    var rest := snapshot.Keys;
    while rest != {}
      invariant rest <= snapshot.Keys && before <= family
      invariant Growing(family, processes, processId, groupId, snapshot)
      invariant !changed ==> family == before && processes == listed
      invariant changed ==> snapshot.Keys - family < snapshot.Keys - before
      invariant !changed ==> forall pid <- snapshot.Keys - rest :: snapshot[pid].parentPid in family ==> pid in family
    {
      var pid;
      pid, rest := TakeOne(rest);
      var stat := snapshot[pid];
      if stat.pid !in family && stat.parentPid in family {
        Grow(family, processes, pid, processId, groupId, snapshot);
        family := family + {pid};
        processes := processes + [stat];
        changed := true;
      }
    }
  }

  /** Returns, without repeats, exactly the processes of the snapshot whose parent chain reaches the
      command or a member of its group; that is the least closed set. */
  method ProcessTree(processId: int, groupId: int, snapshot: Snapshot) returns (processes: seq<ProcessStat>)
    requires WellKeyed(snapshot)
    ensures forall i, j | 0 <= i < j < |processes| :: processes[i].pid != processes[j].pid
    ensures IsTree(processes, processId, groupId, snapshot) && SeedsFirst(processes, processId, groupId, snapshot)
    ensures forall f, st | Closed(f, processId, groupId, snapshot) && st in processes :: st.pid in f
  {
    var family;
    family, processes := Seeds(processId, groupId, snapshot);
    var changed := true;
    while changed
      invariant Growing(family, processes, processId, groupId, snapshot)
      invariant !changed ==> Closed(family, processId, groupId, snapshot)
      decreases changed, snapshot.Keys - family
    {
      family, processes, changed := AdoptChildren(family, processes, processId, groupId, snapshot);
    }
    ClosedIsTree(family, processes, processId, groupId, snapshot);
    forall f, st | Closed(f, processId, groupId, snapshot) && st in processes ensures st.pid in f {
      SeedMember(st.pid, f, processId, groupId, snapshot);
    }
  }
}
