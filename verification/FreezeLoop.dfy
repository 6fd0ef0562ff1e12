/** Freezing and killing a process tree that keeps forking (src/ghci/process.rs). The operating
    system is a table of processes; whatever unstopped processes do between two system calls is a
    script of steps, of which any number may run before each call. */
module FreezeLoop {
  import opened Basics
  import opened ProcessFamily

  datatype Process = Process(stat: ProcessStat, stopped: bool)

  /** A pid can be handed out again after an exit; the start time tells the two processes apart. */
  datatype Identity = Identity(pid: int, startTime: nat)

  datatype World = World(processes: map<int, Process>, clock: nat)

  datatype Step =
    | Fork(parent: int, child: int)
    | SetGroup(pid: int, group: int)
    | Exit(pid: int, reaper: int)

  predicate ValidWorld(w: World) {
    forall pid <- w.processes :: w.processes[pid].stat.pid == pid && w.processes[pid].stat.startTime < w.clock
  }

  predicate Alive(w: World, id: Identity) {
    id.pid in w.processes && w.processes[id.pid].stat.startTime == id.startTime
  }

  predicate Stopped(w: World, id: Identity) {
    Alive(w, id) && w.processes[id.pid].stopped
  }

  function Id(stat: ProcessStat): Identity {
    Identity(stat.pid, stat.startTime)
  }

  /** A dead parent's children are handed to `reaper`. */
  function Remove(processes: map<int, Process>, gone: set<int>, reaper: int): map<int, Process> {
    map pid | pid in processes && pid !in gone ::
      if processes[pid].stat.parentPid in gone
      then processes[pid].(stat := processes[pid].stat.(parentPid := reaper))
      else processes[pid]
  }

  /** Only unstopped processes fork or change their group; anything may exit. A step that is not
      possible does nothing. */
  function Apply(w: World, step: Step): World {
    match step
    case Fork(parent, child) =>
      if parent in w.processes && !w.processes[parent].stopped && child !in w.processes then
        var stat := ProcessStat(child, parent, w.processes[parent].stat.groupId, w.clock);
        World(w.processes[child := Process(stat, false)], w.clock + 1)
      else w
    case SetGroup(pid, group) =>
      if pid in w.processes && !w.processes[pid].stopped then
        var moved := w.processes[pid].(stat := w.processes[pid].stat.(groupId := group));
        w.(processes := w.processes[pid := moved])
      else w
    case Exit(pid, reaper) =>
      w.(processes := Remove(w.processes, {pid}, reaper))
  }

  function Run(w: World, steps: seq<Step>): World
    decreases |steps|
  {
    if steps == [] then w else Run(Apply(w, steps[0]), steps[1..])
  }

  /** `kin` and everything its members fork, and what those fork, during `steps`. */
  function Lineage(w: World, steps: seq<Step>, kin: set<Identity>): set<Identity>
    decreases |steps|
  {
    if steps == [] then kin else Lineage(Apply(w, steps[0]), steps[1..], kin + Born(w, steps[0], kin))
  }

  /** The process a step brings to life, if its parent is one of `kin`. */
  function Born(w: World, step: Step, kin: set<Identity>): set<Identity> {
    if step.Fork? && Apply(w, step) != w && Id(w.processes[step.parent].stat) in kin
    then {Identity(step.child, w.clock)} else {}
  }

  // Reuse of pids.

  function Exits(steps: seq<Step>): set<int> {
    set i | 0 <= i < |steps| && steps[i].Exit? :: steps[i].pid
  }

  /** No process that has not exited is to fork one with the pid of a process that has: of one of
      `gone`, or one that exits earlier in the steps. */
  predicate NoReuse(gone: set<int>, steps: seq<Step>)
    decreases |steps|
  {
    steps == [] ||
    (match steps[0]
     case Fork(parent, child) => (parent in gone || child !in gone) && NoReuse(gone, steps[1..])
     case SetGroup(_, _) => NoReuse(gone, steps[1..])
     case Exit(pid, _) => NoReuse(gone + {pid}, steps[1..]))
  }

  /** The processes of `stats` are there as recorded, or have exited; who exited has not come back. */
  ghost predicate Kept(w: World, stats: map<int, ProcessStat>, gone: set<int>) {
    && gone !! w.processes.Keys
    && forall pid <- stats ::
        pid in gone || (pid in w.processes && w.processes[pid].stat.startTime == stats[pid].startTime)
  }

  lemma {:induction false} KeptRuns(w: World, steps: seq<Step>, script: seq<Step>, stats: map<int, ProcessStat>,
                                    gone: set<int>)
    requires steps <= script && NoReuse(gone, script) && Kept(w, stats, gone)
    ensures NoReuse(gone + Exits(steps), script[|steps|..]) && Kept(Run(w, steps), stats, gone + Exits(steps))
    decreases |steps|
  {
    if steps == [] {
      assert script[|steps|..] == script && gone + Exits(steps) == gone;
    } else {
      var step := steps[0];
      var now := if step.Exit? then gone + {step.pid} else gone;
      assert script[1..][|steps| - 1..] == script[|steps|..] && script[0] == step;
      KeptStep(w, step, stats, gone);
      KeptRuns(Apply(w, step), steps[1..], script[1..], stats, now);
      ExitsCons(steps);
      assert gone + Exits(steps) == now + Exits(steps[1..]);
    }
  }

  lemma KeptStep(w: World, step: Step, stats: map<int, ProcessStat>, gone: set<int>)
    requires Kept(w, stats, gone) && (step.Fork? ==> step.parent in gone || step.child !in gone)
    ensures Kept(Apply(w, step), stats, if step.Exit? then gone + {step.pid} else gone)
  {
  }

  lemma ExitsCons(steps: seq<Step>)
    requires steps != []
    ensures Exits(steps) == (if steps[0].Exit? then {steps[0].pid} else {}) + Exits(steps[1..])
  {
    var some := if steps[0].Exit? then {steps[0].pid} else {};
    assert forall i | 0 <= i < |steps| - 1 :: steps[1..][i] == steps[i + 1];
    forall pid ensures pid in Exits(steps) <==> pid in some + Exits(steps[1..]) {
      if pid in Exits(steps) {
        var i :| 0 <= i < |steps| && steps[i].Exit? && steps[i].pid == pid;
        assert i > 0 ==> steps[1..][i - 1].pid == pid;
      }
      if pid in Exits(steps[1..]) {
        var i :| 0 <= i < |steps| - 1 && steps[1..][i].Exit? && steps[1..][i].pid == pid;
        assert steps[i + 1].pid == pid;
      }
    }
  }

  lemma KeptCapture(w: World, captured: map<int, ProcessStat>, s: Snapshot, stat: ProcessStat, gone: set<int>)
    requires Kept(w, captured, gone) && Kept(w, s, gone) && stat.pid in s && s[stat.pid] == stat
    ensures Kept(StopOne(w, Id(stat)), captured[stat.pid := stat], gone) && Kept(StopOne(w, Id(stat)), s, gone)
  {
  }

  /** Every member that is still alive is stopped, and none of their identities can be issued again. */
  ghost predicate Frozen(w: World, kin: set<Identity>) {
    forall id <- kin :: id.startTime < w.clock && (Alive(w, id) ==> Stopped(w, id))
  }

  lemma FrozenStep(w: World, step: Step, kin: set<Identity>)
    requires ValidWorld(w) && Frozen(w, kin)
    ensures ValidWorld(Apply(w, step)) && Frozen(Apply(w, step), kin) && Born(w, step, kin) == {}
    ensures forall id <- kin :: Alive(Apply(w, step), id) ==> Alive(w, id)
  {
    if step.Fork? && step.parent in w.processes {
      var parent := Id(w.processes[step.parent].stat);
      assert parent in kin ==> Alive(w, parent);
    }
  }

  /** A set of stopped processes stays stopped, stays barren, and its dead stay dead. */
  lemma {:induction false} FrozenKinIsBarren(w: World, steps: seq<Step>, kin: set<Identity>)
    requires ValidWorld(w) && Frozen(w, kin)
    ensures ValidWorld(Run(w, steps)) && Frozen(Run(w, steps), kin)
    ensures Lineage(w, steps, kin) == kin
    ensures forall id <- kin :: Alive(Run(w, steps), id) ==> Alive(w, id)
    ensures Run(w, steps).clock >= w.clock
    decreases |steps|
  {
    if steps != [] {
      FrozenStep(w, steps[0], kin);
      assert kin + Born(w, steps[0], kin) == kin;
      FrozenKinIsBarren(Apply(w, steps[0]), steps[1..], kin);
    }
  }

  function Table(w: World): Snapshot {
    map pid | pid in w.processes :: w.processes[pid].stat
  }

  /** The identities of the tree as one snapshot shows it. */
  ghost function TreeIds(s: Snapshot, processId: int, groupId: int): set<Identity> {
    set pid | pid in s && InTree(pid, processId, groupId, s) :: Id(s[pid])
  }

  function CapturedIds(captured: map<int, ProcessStat>): set<Identity> {
    set pid | pid in captured :: Id(captured[pid])
  }

  function StopOne(w: World, id: Identity): World {
    if Alive(w, id) then w.(processes := w.processes[id.pid := w.processes[id.pid].(stopped := true)]) else w
  }

  function StopMembers(w: World, groupId: int): World {
    w.(processes := map pid | pid in w.processes ::
      if w.processes[pid].stat.groupId == groupId then w.processes[pid].(stopped := true) else w.processes[pid])
  }

  function KillOne(w: World, id: Identity, reaper: int): World {
    if Alive(w, id) then w.(processes := Remove(w.processes, {id.pid}, reaper)) else w
  }

  function Members(w: World, groupId: int): set<int> {
    set pid | pid in w.processes && w.processes[pid].stat.groupId == groupId
  }

  function MemberIds(w: World, groupId: int): set<Identity> {
    set pid | pid in Members(w, groupId) :: Id(w.processes[pid].stat)
  }

  function KillMembers(w: World, groupId: int, reaper: int): World {
    w.(processes := Remove(w.processes, Members(w, groupId), reaper))
  }

  /** A kernel at some moment, for comparison with a later one. */
  datatype Moment = Moment(world: World, script: seq<Step>, family: set<Identity>, kin: set<Identity>,
                           seen: set<Identity>, gone: set<int>, readings: nat, failures: nat)

  /** The operating system, as seen through the system calls the loop makes. */
  class Kernel {
    var world: World
    var script: seq<Step>
    /** Without pidfds, `track_process` cannot tell a process from a later holder of its pid. */
    const pidfds: bool
    const processId: int
    const groupId: int
    /** The command's tree when the process table was last read, and everything forked from it since. */
    ghost var family: set<Identity>
    ghost var kin: set<Identity>
    /** Every identity that some reading showed in the tree. */
    ghost var seen: set<Identity>
    /** Every pid that has exited since the loop began. */
    ghost var gone: set<int>
    /** How often the table was read or could not be read. */
    ghost var readings: nat
    ghost var failures: nat
    /** Everyone SIGSTOP was sent to. */
    ghost var halted: set<Identity>

    constructor (world: World, script: seq<Step>, pidfds: bool, processId: int, groupId: int)
      ensures this.world == world && this.script == script && this.pidfds == pidfds
      ensures this.processId == processId && this.groupId == groupId
    {
      this.world, this.script, this.pidfds := world, script, pidfds;
      this.processId, this.groupId := processId, groupId;
    }

    ghost function Now(): Moment
      reads this
    {
      Moment(world, script, family, kin, seen, gone, readings, failures)
    }

    /** Since then these steps have happened, and nothing was read. */
    ghost predicate Elapsed(was: Moment, steps: seq<Step>)
      reads this
    {
      && steps <= was.script && script == was.script[|steps|..]
      && family == was.family && seen == was.seen && kin == Lineage(was.world, steps, was.kin)
      && gone == was.gone + Exits(steps) && readings == was.readings && failures == was.failures
    }

    /** Any number of the remaining steps happen. */
    method Advance() returns (ghost steps: seq<Step>)
      modifies this
      ensures Elapsed(old(Now()), steps) && world == Run(old(world), steps) && halted == old(halted)
    {
      var n: nat :| n <= |script|;
      steps := script[..n];
      kin, gone := Lineage(world, steps, kin), gone + Exits(steps);
      world, script := Run(world, script[..n]), script[n..];
    }

    /** An atomic reading of the process table, which may fail. */
    method ReadTable() returns (result: Option<Snapshot>, ghost steps: seq<Step>)
      modifies this
      ensures steps <= old(script) && script == old(script)[|steps|..] && world == Run(old(world), steps)
      ensures gone == old(gone) + Exits(steps) && halted == old(halted)
      ensures result.Some? ==> result.value == Table(world)
      ensures readings == old(readings) + 1 && failures == old(failures) + if result.None? then 1 else 0
      ensures family == kin == TreeIds(Table(world), processId, groupId) && seen == old(seen) + family
    {
      steps := Advance();
      var fails: bool := *;
      result := if fails then None else Some(Table(world));
      readings, failures := readings + 1, failures + if fails then 1 else 0;
      family := TreeIds(Table(world), processId, groupId);
      kin, seen := family, seen + family;
    }

    /** `track_process`: fails when the identity is gone, or, without pidfds, when the pid is. */
    method Track(stat: ProcessStat) returns (tracked: bool, ghost steps: seq<Step>)
      modifies this
      ensures Elapsed(old(Now()), steps) && world == Run(old(world), steps) && halted == old(halted)
      ensures tracked == if pidfds then Alive(world, Id(stat)) else stat.pid in world.processes
    {
      steps := Advance();
      tracked := if pidfds then Alive(world, Id(stat)) else stat.pid in world.processes;
    }

    /** SIGSTOP, delivered to this identity or to nobody. */
    method Stop(stat: ProcessStat) returns (ghost steps: seq<Step>)
      modifies this
      ensures Elapsed(old(Now()), steps) && world == StopOne(Run(old(world), steps), Id(stat))
      ensures halted == old(halted) + {Id(stat)}
    {
      steps := Advance();
      halted := halted + {Id(stat)};
      world := StopOne(world, Id(stat));
    }

    /** SIGKILL, delivered to this identity or to nobody. */
    method Kill(stat: ProcessStat) returns (ghost steps: seq<Step>, reaper: int)
      modifies this
      ensures Elapsed(old(Now()), steps) && world == KillOne(Run(old(world), steps), Id(stat), reaper)
      ensures halted == old(halted)
    {
      steps := Advance();
      reaper := *;
      world := KillOne(world, Id(stat), reaper);
    }

    method StopGroup() returns (ghost steps: seq<Step>)
      modifies this
      ensures Elapsed(old(Now()), steps) && world == StopMembers(Run(old(world), steps), groupId)
      ensures halted == old(halted) + MemberIds(Run(old(world), steps), groupId)
    {
      steps := Advance();
      halted := halted + MemberIds(world, groupId);
      world := StopMembers(world, groupId);
    }

    method KillGroup() returns (ghost steps: seq<Step>, reaper: int)
      modifies this
      ensures Elapsed(old(Now()), steps) && world == KillMembers(Run(old(world), steps), groupId, reaper)
      ensures halted == old(halted)
    {
      steps := Advance();
      reaper := *;
      world := KillMembers(world, groupId, reaper);
    }
  }

  // The loop.

  /** The invariant of the loop: what has been captured can no longer act. */
  ghost predicate Holding(w: World, captured: map<int, ProcessStat>) {
    && ValidWorld(w) && Frozen(w, CapturedIds(captured))
    && forall pid <- captured :: captured[pid].pid == pid
  }

  lemma HoldingRuns(w: World, steps: seq<Step>, captured: map<int, ProcessStat>)
    requires Holding(w, captured)
    ensures Holding(Run(w, steps), captured)
    ensures forall id <- CapturedIds(captured) :: Alive(Run(w, steps), id) ==> Alive(w, id)
    ensures Run(w, steps).clock >= w.clock
  {
    FrozenKinIsBarren(w, steps, CapturedIds(captured));
  }

  /** A process just stopped joins the captured ones. */
  lemma HoldingCapture(w: World, captured: map<int, ProcessStat>, stat: ProcessStat)
    requires Holding(w, captured) && stat.startTime < w.clock
    ensures Holding(StopOne(w, Id(stat)), captured[stat.pid := stat])
  {
    var after := StopOne(w, Id(stat));
    forall id <- CapturedIds(captured[stat.pid := stat]) ensures Alive(after, id) ==> Stopped(after, id) {
      assert id == Id(stat) || id in CapturedIds(captured);
    }
  }

  /** Members of the group that were stopped stay in it, stopped, until they die. */
  ghost predicate Penned(w: World, members: set<Identity>, groupId: int) {
    forall id <- members ::
      id.startTime < w.clock
      && (Alive(w, id) ==> Stopped(w, id) && w.processes[id.pid].stat.groupId == groupId)
  }

  lemma {:induction false} PennedRuns(w: World, steps: seq<Step>, members: set<Identity>, groupId: int)
    requires ValidWorld(w) && Penned(w, members, groupId)
    ensures Penned(Run(w, steps), members, groupId)
    decreases |steps|
  {
    if steps != [] {
      PennedStep(w, steps[0], members, groupId);
      FrozenStep(w, steps[0], {});
      PennedRuns(Apply(w, steps[0]), steps[1..], members, groupId);
    }
  }

  lemma PennedStep(w: World, step: Step, members: set<Identity>, groupId: int)
    requires ValidWorld(w) && Penned(w, members, groupId)
    ensures Penned(Apply(w, step), members, groupId)
  {
  }

  lemma PennedSignals(w: World, members: set<Identity>, groupId: int, id: Identity, reaper: int)
    requires ValidWorld(w) && Penned(w, members, groupId)
    ensures Penned(StopOne(w, id), members, groupId)
    ensures Penned(KillOne(w, id, reaper), members, groupId)
    ensures forall m <- members :: !Alive(KillMembers(w, groupId, reaper), m)
  {
  }

  lemma GroupIsPenned(w: World, groupId: int)
    requires ValidWorld(w)
    ensures Penned(StopMembers(w, groupId), MemberIds(w, groupId), groupId)
  {
  }

  /** Killing keeps whatever was frozen frozen, and revives nobody. */
  lemma FrozenRemove(w: World, gone: set<int>, reaper: int, kin: set<Identity>)
    requires ValidWorld(w) && Frozen(w, kin)
    ensures ValidWorld(w.(processes := Remove(w.processes, gone, reaper)))
    ensures Frozen(w.(processes := Remove(w.processes, gone, reaper)), kin)
  {
  }

  /** The pids of the whole tree are captured: nothing new was found. */
  ghost predicate Stable(captured: map<int, ProcessStat>, s: Snapshot, processId: int, groupId: int) {
    forall pid | pid in s && InTree(pid, processId, groupId, s) :: pid in captured
  }

  /** The measure that makes the loop terminate: the remaining steps, then the pids still to capture. */
  predicate Progress(steps: nat, pids: set<int>, steps': nat, pids': set<int>) {
    steps' < steps || (steps' == steps && pids' < pids)
  }

  function Pids(k: Kernel): set<int>
    reads k
  {
    k.world.processes.Keys
  }

  /** As long as no pid is reused, what was captured and what was read are still the same processes. */
  ghost predicate Trusted(k: Kernel, captured: map<int, ProcessStat>, s: Snapshot)
    reads k
  {
    NoReuse(k.gone, k.script) && Kept(k.world, captured, k.gone) && Kept(k.world, s, k.gone)
  }

  lemma TrustedRuns(w: World, steps: seq<Step>, script: seq<Step>, captured: map<int, ProcessStat>, s: Snapshot,
                    gone: set<int>)
    requires steps <= script && NoReuse(gone, script) && Kept(w, captured, gone) && Kept(w, s, gone)
    ensures NoReuse(gone + Exits(steps), script[|steps|..])
    ensures Kept(Run(w, steps), captured, gone + Exits(steps)) && Kept(Run(w, steps), s, gone + Exits(steps))
  {
    KeptRuns(w, steps, script, captured, gone);
    KeptRuns(w, steps, script, s, gone);
  }

  /** One process of a pass is followed, stopped and captured, unless it has vanished. */
  method Capture(k: Kernel, s: Snapshot, stat: ProcessStat, before: map<int, ProcessStat>,
                 ghost unique: bool, ghost members: set<Identity>) returns (captured: map<int, ProcessStat>)
    requires Penned(k.world, members, k.groupId)
    requires Holding(k.world, before) && stat.pid in s && s[stat.pid] == stat && stat.startTime < k.world.clock
    requires unique ==> Trusted(k, before, s)
    modifies k
    ensures k.family == old(k.family) && k.seen == old(k.seen)
    ensures k.readings == old(k.readings) && k.failures == old(k.failures)
    ensures Penned(k.world, members, k.groupId)
    ensures k.halted == old(k.halted)
         || (k.halted == old(k.halted) + {Id(stat)} && captured == before[stat.pid := stat])
    ensures Holding(k.world, captured) && k.world.clock >= old(k.world).clock
    ensures |k.script| <= |old(k.script)|
    ensures |k.script| == |old(k.script)| ==> k.script == old(k.script)
    ensures |k.script| == |old(k.script)| ==> Table(k.world) == Table(old(k.world))
    ensures captured == before || captured == before[stat.pid := stat]
    ensures captured == before && stat.pid !in before && |k.script| == |old(k.script)| ==>
      if k.pidfds then !Alive(old(k.world), Id(stat)) else stat.pid !in old(k.world).processes
    ensures unique ==> Trusted(k, captured, s)
  {
    hide Kept;
    hide NoReuse;
    hide Penned;
    captured := before;
    var tracked, steps := k.Track(stat);
    HoldingRuns(old(k.world), steps, before);
    PennedRuns(old(k.world), steps, members, k.groupId);
    if unique {
      TrustedRuns(old(k.world), steps, old(k.script), before, s, old(k.gone));
    }
    if !tracked {
      return;
    }
    label Stopping:
    var more := k.Stop(stat);
    HoldingRuns(old@Stopping(k.world), more, before);
    HoldingCapture(Run(old@Stopping(k.world), more), before, stat);
    PennedRuns(old@Stopping(k.world), more, members, k.groupId);
    PennedSignals(Run(old@Stopping(k.world), more), members, k.groupId, Id(stat), 0);
    if unique {
      TrustedRuns(old@Stopping(k.world), more, old@Stopping(k.script), before, s, old@Stopping(k.gone));
      KeptCapture(Run(old@Stopping(k.world), more), before, s, stat, k.gone);
    }
    captured := captured[stat.pid := stat];
  }

  lemma CaptureRecords(captured: map<int, ProcessStat>, stat: ProcessStat)
    requires stat.pid !in captured
    ensures CapturedIds(captured[stat.pid := stat]) == CapturedIds(captured) + {Id(stat)}
  {
    assert forall pid <- captured :: captured[stat.pid := stat][pid] == captured[pid];
    assert captured[stat.pid := stat][stat.pid] == stat;
  }

  /** One pass: every process of the tree that is not captured is stopped and captured, unless it has
      vanished; either way another pass is due. */
  method Pass(k: Kernel, s: Snapshot, before: map<int, ProcessStat>, ghost unique: bool, ghost members: set<Identity>)
    returns (captured: map<int, ProcessStat>, foundNew: bool)
    requires Penned(k.world, members, k.groupId)
    requires Holding(k.world, before) && s == Table(k.world)
    requires CapturedIds(before) + TreeIds(s, k.processId, k.groupId) <= k.seen
    requires unique ==> Trusted(k, before, s)
    modifies k
    ensures k.family == old(k.family) && k.seen == old(k.seen) && CapturedIds(captured) <= k.seen
    ensures k.readings == old(k.readings) && k.failures == old(k.failures)
    ensures Penned(k.world, members, k.groupId)
    ensures CapturedIds(before) <= CapturedIds(captured) && k.halted <= old(k.halted) + CapturedIds(captured)
    ensures Holding(k.world, captured)
    ensures unique ==> Trusted(k, captured, s)
    ensures old(k.script) == [] ==> k.script == [] && Table(k.world) == s
    ensures !foundNew ==>
      captured == before && k.world == old(k.world) && k.script == old(k.script) && k.kin == old(k.kin)
    ensures !foundNew ==> Stable(captured, s, k.processId, k.groupId)
    ensures foundNew ==> Progress(|old(k.script)|, old(Pids(k)) - before.Keys, |k.script|, Pids(k) - captured.Keys)
  {
    var processes := ProcessTree(k.processId, k.groupId, s);
    captured, foundNew := before, false;
    var i := 0;
    while i < |processes|
      invariant 0 <= i <= |processes|
      invariant k.family == old(k.family) && k.seen == old(k.seen) && CapturedIds(captured) <= k.seen
      invariant k.readings == old(k.readings) && k.failures == old(k.failures)
      invariant Penned(k.world, members, k.groupId)
      invariant CapturedIds(before) <= CapturedIds(captured) && k.halted <= old(k.halted) + CapturedIds(captured)
      invariant Holding(k.world, captured) && k.world.clock >= old(k.world).clock
      invariant unique ==> Trusted(k, captured, s)
      invariant |k.script| <= |old(k.script)|
      invariant |k.script| == |old(k.script)| ==> k.script == old(k.script) && Table(k.world) == s
      invariant before.Keys <= captured.Keys
      invariant !foundNew ==>
        captured == before && k.world == old(k.world) && k.script == old(k.script) && k.kin == old(k.kin)
      invariant !foundNew ==> forall j | 0 <= j < i :: processes[j].pid in captured
      invariant foundNew && |k.script| == |old(k.script)| ==>
        exists pid :: pid in s && pid in captured && pid !in before
    {
      hide Trusted;
      hide Penned;
      var stat := processes[i];
      i := i + 1;
      if stat.pid in captured {
        continue;
      }
      foundNew := true;
      assert Id(stat) in TreeIds(s, k.processId, k.groupId);
      CaptureRecords(captured, stat);
      captured := Capture(k, s, stat, captured, unique, members);
    }
    if foundNew && |k.script| == |old(k.script)| {
      assert Pids(k) == Table(k.world).Keys == s.Keys == old(Pids(k));
      var pid :| pid in s && pid in captured && pid !in before;
      assert pid in old(Pids(k)) - before.Keys && pid !in Pids(k) - captured.Keys;
    }
  }

  /** Passes until one finds nothing new, or the table cannot be read. */
  method Freeze(k: Kernel, ghost unique: bool, ghost members: set<Identity>)
    returns (stable: bool, captured: map<int, ProcessStat>)
    requires Holding(k.world, map[]) && Penned(k.world, members, k.groupId)
    requires unique ==> NoReuse(k.gone, k.script) && Kept(k.world, map[], k.gone)
    modifies k
    ensures Holding(k.world, captured) && Penned(k.world, members, k.groupId)
    ensures CapturedIds(captured) <= k.seen && k.halted <= old(k.halted) + CapturedIds(captured)
    ensures k.readings > old(k.readings) && (stable <==> k.failures == old(k.failures))
    ensures stable ==> k.kin == k.family == TreeIds(Table(k.world), k.processId, k.groupId)
    ensures stable ==> Stable(captured, Table(k.world), k.processId, k.groupId)
    ensures stable && unique ==> k.family <= CapturedIds(captured)
    ensures old(k.script) == [] ==> k.script == [] && Table(k.world) == Table(old(k.world))
  {
    hide Penned;
    hide NoReuse;
    hide Kept;
    hide Run;
    hide InTree;
    hide Trusted;
    captured, stable := map[], false;
    assert CapturedIds(captured) == {};
    while true
      invariant Holding(k.world, captured) && Penned(k.world, members, k.groupId)
      invariant CapturedIds(captured) <= k.seen && k.halted <= old(k.halted) + CapturedIds(captured)
      invariant k.readings >= old(k.readings) && k.failures == old(k.failures)
      invariant old(k.script) == [] ==> k.script == [] && Table(k.world) == Table(old(k.world))
      invariant unique ==> NoReuse(k.gone, k.script) && Kept(k.world, captured, k.gone)
      decreases |k.script|, Pids(k) - captured.Keys
    {
      label Reading:
      var table, more := k.ReadTable();
      NoSteps(old@Reading(k.world));
      HoldingRuns(old@Reading(k.world), more, captured);
      PennedRuns(old@Reading(k.world), more, members, k.groupId);
      if unique {
        KeptRuns(old@Reading(k.world), more, old@Reading(k.script), captured, old@Reading(k.gone));
        TrustTable(k, captured);
      }
      if table.None? {
        break;
      }
      var foundNew;
      captured, foundNew := Pass(k, table.value, captured, unique, members);
      if unique {
        IsTrusted(k, captured, table.value);
      }
      if !foundNew {
        stable := true;
        if unique {
          StablePassHoldsTheTree(k.world, captured, k.gone, k.processId, k.groupId);
        }
        break;
      }
    }
  }

  lemma TrustTable(k: Kernel, captured: map<int, ProcessStat>)
    requires NoReuse(k.gone, k.script) && Kept(k.world, captured, k.gone)
    ensures Trusted(k, captured, Table(k.world))
  {
    KeptTable(k.world, captured, k.gone);
  }

  lemma IsTrusted(k: Kernel, captured: map<int, ProcessStat>, s: Snapshot)
    requires Trusted(k, captured, s)
    ensures NoReuse(k.gone, k.script) && Kept(k.world, captured, k.gone)
  {
  }

  /** Freezes the tree until a pass finds nothing new, then kills it. */
  method KillProcessTree(k: Kernel) returns (stable: bool, captured: map<int, ProcessStat>)
    requires ValidWorld(k.world)
    modifies k
    // Only processes that were found in the tree are captured.
    ensures CapturedIds(captured) <= k.seen
    // Neither a captured process nor a member of the command's group is left, and nobody is left stopped.
    ensures forall id <- CapturedIds(captured) :: !Alive(k.world, id)
    ensures Members(k.world, k.groupId) == {}
    ensures forall id <- k.halted - old(k.halted) :: !Alive(k.world, id)
    // It reads the table, and gives up only when that fails; otherwise the last pass is stable, and every
    // member of the tree has its pid captured.
    ensures k.readings > old(k.readings) && (stable <==> k.failures == old(k.failures))
    ensures stable ==> forall id <- k.family :: id.pid in captured
    // Where no pid is reused it is the same process each time: nobody was forked since, and the whole
    // tree is dead.
    ensures NoReuse({}, old(k.script)) && k.failures == old(k.failures) ==>
      k.family <= CapturedIds(captured) && k.kin == k.family && forall id <- k.kin :: !Alive(k.world, id)
    // If nobody else acts, this is the tree from the start.
    ensures old(k.script) == [] && k.failures == old(k.failures) ==>
      forall id <- TreeIds(Table(old(k.world)), k.processId, k.groupId) :: !Alive(k.world, id)
  {
    hide Penned;
    hide NoReuse;
    hide Kept;
    hide Run;
    hide Lineage;
    hide StopMembers;
    hide MemberIds;
    hide InTree;
    ghost var unique := NoReuse({}, k.script);
    k.gone := {};
    NoSteps(k.world);
    var steps := k.StopGroup();
    ghost var running := Run(old(k.world), steps);
    BeginHolding(old(k.world), steps, k.groupId);
    GroupIsPenned(running, k.groupId);
    ghost var members := MemberIds(running, k.groupId);
    if unique {
      KeptNothing(old(k.world));
      KeptRuns(old(k.world), steps, old(k.script), map[], {});
      KeptStops(running, k.groupId, k.gone);
    }
    stable, captured := Freeze(k, unique, members);
    Sweep(k, captured, unique && stable, members);
  }

  lemma KeptNothing(w: World)
    ensures Kept(w, map[], {})
  {
  }

  lemma NoSteps(w: World)
    ensures Run(w, []) == w && NoReuse({}, [])
  {
  }

  lemma BeginHolding(w: World, steps: seq<Step>, groupId: int)
    requires ValidWorld(w)
    ensures ValidWorld(Run(w, steps)) && Holding(StopMembers(Run(w, steps), groupId), map[])
    ensures CapturedIds(map[]) == {} && Table(StopMembers(Run(w, steps), groupId)) == Table(Run(w, steps))
    ensures steps == [] ==> Run(w, steps) == w
  {
    FrozenKinIsBarren(w, steps, {});
    assert CapturedIds(map[]) == {};
  }

  lemma KeptStops(w: World, groupId: int, gone: set<int>)
    requires Kept(w, map[], gone)
    ensures Kept(StopMembers(w, groupId), map[], gone)
  {
  }

  lemma KeptTable(w: World, stats: map<int, ProcessStat>, gone: set<int>)
    requires Kept(w, stats, gone)
    ensures Kept(w, Table(w), gone)
  {
  }

  /** SIGKILL to every captured process and to the group. */
  method Sweep(k: Kernel, captured: map<int, ProcessStat>, ghost complete: bool, ghost members: set<Identity>)
    requires Holding(k.world, captured) && Penned(k.world, members, k.groupId)
    requires complete ==> k.kin == k.family && k.family <= CapturedIds(captured)
    modifies k
    ensures k.family == old(k.family) && k.seen == old(k.seen) && k.halted == old(k.halted)
    ensures k.readings == old(k.readings) && k.failures == old(k.failures)
    ensures forall id <- CapturedIds(captured) + members :: !Alive(k.world, id)
    ensures Members(k.world, k.groupId) == {}
    ensures complete ==> k.kin == k.family
  {
    hide Holding;
    hide Penned;
    hide Frozen;
    hide Run;
    hide Lineage;
    hide KillOne;
    hide KillMembers;
    hide Members;
    hide Alive;
    var todo := captured.Keys;
    while todo != {}
      invariant todo <= captured.Keys
      invariant Holding(k.world, captured) && k.family == old(k.family) && k.seen == old(k.seen)
      invariant Penned(k.world, members, k.groupId) && k.halted == old(k.halted)
      invariant k.readings == old(k.readings) && k.failures == old(k.failures)
      invariant complete ==> k.kin == k.family
      invariant forall pid | pid in captured && pid !in todo :: !Alive(k.world, Id(captured[pid]))
    {
      var pid;
      pid, todo := TakeOne(todo);
      label Killing:
      var steps, reaper := k.Kill(captured[pid]);
      ghost var was, now := old@Killing(k.world), Run(old@Killing(k.world), steps);
      SweepStep(was, steps, captured, old@Killing(k.kin));
      HeldIsValid(was, captured);
      PennedRuns(was, steps, members, k.groupId);
      KillKeeps(now, captured, pid, reaper, members, k.groupId);
      InCaptured(captured);
    }
    label Group:
    var steps, reaper := k.KillGroup();
    ghost var was, now := old@Group(k.world), Run(old@Group(k.world), steps);
    SweepStep(was, steps, captured, old@Group(k.kin));
    HeldIsValid(was, captured);
    HeldIsValid(now, captured);
    PennedRuns(was, steps, members, k.groupId);
    PennedSignals(now, members, k.groupId, Identity(0, 0), reaper);
    KillGroupKeeps(now, captured, k.groupId, reaper);
    InCaptured(captured);
  }

  lemma HeldIsValid(w: World, captured: map<int, ProcessStat>)
    requires Holding(w, captured)
    ensures ValidWorld(w)
  {
  }

  lemma InCaptured(captured: map<int, ProcessStat>)
    ensures forall id :: id in CapturedIds(captured) <==> exists pid :: pid in captured && id == Id(captured[pid])
  {
  }

  lemma KillKeeps(
      w: World, captured: map<int, ProcessStat>, pid: int, reaper: int, members: set<Identity>, groupId: int)
    requires Holding(w, captured) && pid in captured && Penned(w, members, groupId)
    ensures var after := KillOne(w, Id(captured[pid]), reaper);
      Holding(after, captured) && Penned(after, members, groupId) && !Alive(after, Id(captured[pid]))
      && forall id <- CapturedIds(captured) :: Alive(after, id) ==> Alive(w, id)
  {
    PennedSignals(w, members, groupId, Id(captured[pid]), reaper);
    FrozenRemove(w, {pid}, reaper, CapturedIds(captured));
  }

  lemma KillGroupKeeps(w: World, captured: map<int, ProcessStat>, groupId: int, reaper: int)
    ensures var after := KillMembers(w, groupId, reaper);
      Members(after, groupId) == {} && forall id <- CapturedIds(captured) :: Alive(after, id) ==> Alive(w, id)
  {
  }

  lemma SweepStep(w: World, steps: seq<Step>, captured: map<int, ProcessStat>, kin: set<Identity>)
    requires Holding(w, captured)
    ensures Holding(Run(w, steps), captured)
    ensures forall id <- CapturedIds(captured) :: Alive(Run(w, steps), id) ==> Alive(w, id)
    ensures kin <= CapturedIds(captured) ==> Lineage(w, steps, kin) == kin
  {
    HoldingRuns(w, steps, captured);
    if kin <= CapturedIds(captured) {
      FrozenKinIsBarren(w, steps, kin);
    }
  }

  // What a stable pass is worth.

  /** As long as no pid is reused, a stable pass means that the whole tree is captured and stopped. */
  lemma StablePassHoldsTheTree(w: World, captured: map<int, ProcessStat>, gone: set<int>, processId: int, groupId: int)
    requires Holding(w, captured) && Kept(w, captured, gone) && Stable(captured, Table(w), processId, groupId)
    ensures TreeIds(Table(w), processId, groupId) <= CapturedIds(captured)
    ensures forall id <- TreeIds(Table(w), processId, groupId) :: Stopped(w, id)
  {
    forall id <- TreeIds(Table(w), processId, groupId) ensures id in CapturedIds(captured) && Stopped(w, id) {
      assert id.pid in captured && Id(captured[id.pid]) in CapturedIds(captured);
    }
  }

  // Where a pid is reused.

  /** What `process_tree` may return for a table. */
  ghost predicate Listing(order: seq<ProcessStat>, s: Snapshot, processId: int, groupId: int) {
    && (forall i, j | 0 <= i < j < |order| :: order[i].pid != order[j].pid)
    && IsTree(order, processId, groupId, s) && SeedsFirst(order, processId, groupId, s)
  }

  function StopAll(w: World, stats: seq<ProcessStat>): World {
    if stats == [] then w else StopOne(StopAll(w, stats[..|stats| - 1]), Id(stats[|stats| - 1]))
  }

  function Recorded(stats: seq<ProcessStat>): map<int, ProcessStat> {
    if stats == [] then map[] else Recorded(stats[..|stats| - 1])[stats[|stats| - 1].pid := stats[|stats| - 1]]
  }

  /** The start of a run: the group is stopped, the table read, and its tree stopped and captured in the
      order listed, the last process after `n` steps of the script. The next pass is then stable, and yet a
      member of the tree runs. */
  ghost predicate Escape(w: World, processId: int, groupId: int, order: seq<ProcessStat>, script: seq<Step>, n: nat,
                         escaped: Identity)
  {
    && ValidWorld(w) && n <= |script| && order != []
    && var frozen := StopMembers(w, groupId);
      var front, last := order[..|order| - 1], order[|order| - 1];
      var before := Run(StopAll(frozen, front), script[..n]);
      var after := StopOne(before, Id(last));
      && Listing(order, Table(frozen), processId, groupId) && Alive(before, Id(last))
      && Escapes(after, processId, groupId, Recorded(order), escaped)
  }

  /** A stable pass over a running member of the tree that is in nobody's reach. */
  ghost predicate Escapes(w: World, processId: int, groupId: int, captured: map<int, ProcessStat>, escaped: Identity) {
    && Stable(captured, Table(w), processId, groupId)
    && escaped in TreeIds(Table(w), processId, groupId) && !Stopped(w, escaped)
    && escaped !in CapturedIds(captured)
    && Alive(w, escaped) && w.processes[escaped.pid].stat.groupId != groupId
  }

  ghost predicate CanEscape(script: seq<Step>) {
    exists w, processId, groupId, order, n, escaped :: Escape(w, processId, groupId, order, script, n, escaped)
  }

  lemma {:induction false} AllHeld(w: World, stats: seq<ProcessStat>)
    requires ValidWorld(w)
    requires forall i | 0 <= i < |stats| :: stats[i].pid in w.processes && Table(w)[stats[i].pid] == stats[i]
    ensures Holding(StopAll(w, stats), Recorded(stats)) && StopAll(w, stats).clock == w.clock
    ensures Kept(StopAll(w, stats), Recorded(stats), {}) && Kept(StopAll(w, stats), Table(w), {})
    decreases |stats|
  {
    if stats != [] {
      var front, last := stats[..|stats| - 1], stats[|stats| - 1];
      AllHeld(w, front);
      assert last.pid in w.processes && last.startTime < w.clock;
      var now := StopAll(w, front);
      HoldingCapture(now, Recorded(front), last);
      KeptCapture(now, Recorded(front), Table(w), last, {});
    } else {
      assert CapturedIds(map[]) == {};
    }
  }

  lemma ListedStats(order: seq<ProcessStat>, w: World, processId: int, groupId: int)
    requires Listing(order, Table(w), processId, groupId)
    ensures forall i | 0 <= i < |order| :: order[i].pid in w.processes && Table(w)[order[i].pid] == order[i]
  {
    forall i | 0 <= i < |order| ensures order[i].pid in w.processes && Table(w)[order[i].pid] == order[i] {
      assert order[i] in order;
    }
  }

  lemma StableHoldsAfter(w: World, steps: seq<Step>, script: seq<Step>, captured: map<int, ProcessStat>, s: Snapshot,
                         last: ProcessStat, processId: int, groupId: int, escaped: Identity)
    requires Holding(w, captured) && Kept(w, captured, {}) && Kept(w, s, {}) && last.startTime < w.clock
    requires last.pid in s && s[last.pid] == last && steps <= script && NoReuse({}, script)
    ensures !Escapes(StopOne(Run(w, steps), Id(last)), processId, groupId, captured[last.pid := last], escaped)
  {
    var after, all := StopOne(Run(w, steps), Id(last)), captured[last.pid := last];
    KeptRuns(w, steps, script, captured, {});
    KeptRuns(w, steps, script, s, {});
    HoldingRuns(w, steps, captured);
    HoldingCapture(Run(w, steps), captured, last);
    KeptCapture(Run(w, steps), captured, s, last, {} + Exits(steps));
    hide *;
    NotWhenKept(after, all, {} + Exits(steps), processId, groupId, escaped);
  }

  lemma NotWhenKept(w: World, captured: map<int, ProcessStat>, gone: set<int>, processId: int, groupId: int,
                    escaped: Identity)
    requires Holding(w, captured) && Kept(w, captured, gone)
    ensures !Escapes(w, processId, groupId, captured, escaped)
  {
    if Escapes(w, processId, groupId, captured, escaped) {
      StablePassHoldsTheTree(w, captured, gone, processId, groupId);
    }
  }

  lemma NoReuseNoEscape(w: World, processId: int, groupId: int, order: seq<ProcessStat>, script: seq<Step>, n: nat,
                        escaped: Identity)
    requires NoReuse({}, script)
    ensures !Escape(w, processId, groupId, order, script, n, escaped)
  {
    hide NoReuse;
    hide Holding;
    hide Kept;
    hide Escapes;
    if Escape(w, processId, groupId, order, script, n, escaped) {
      var frozen := StopMembers(w, groupId);
      var front, last := order[..|order| - 1], order[|order| - 1];
      ListedStats(order, frozen, processId, groupId);
      AllHeld(frozen, front);
      StableHoldsAfter(StopAll(frozen, front), script[..n], script, Recorded(front), Table(frozen), last, processId,
                       groupId, escaped);
    }
  }

  lemma {:induction false} FirstReuse(gone: set<int>, steps: seq<Step>) returns (n: nat)
    requires !NoReuse(gone, steps)
    ensures n < |steps| && steps[n].Fork? && NoReuse(gone, steps[..n])
    ensures var now := gone + Exits(steps[..n]); steps[n].child in now && steps[n].parent !in now
    decreases |steps|
  {
    var step := steps[0];
    if step.Fork? && step.child in gone && step.parent !in gone {
      n := 0;
      assert gone + Exits(steps[..0]) == gone;
    } else {
      var now := if step.Exit? then gone + {step.pid} else gone;
      n := FirstReuse(now, steps[1..]);
      assert steps[..n + 1][1..] == steps[1..][..n];
      ExitsCons(steps[..n + 1]);
      assert gone + Exits(steps[..n + 1]) == now + Exits(steps[1..][..n]);
      n := n + 1;
    }
  }

  function Mentioned(steps: seq<Step>): set<int> {
    if steps == [] then {}
    else
      (match steps[0]
       case Fork(parent, child) => {parent, child}
       case SetGroup(pid, group) => {pid, group}
       case Exit(pid, reaper) => {pid, reaper})
      + Mentioned(steps[1..])
  }

  lemma {:induction false} MentionedAt(steps: seq<Step>, i: nat)
    requires i < |steps|
    ensures Mentioned([steps[i]]) <= Mentioned(steps)
    decreases i
  {
    assert [steps[0]][1..] == [];
    if i > 0 {
      MentionedAt(steps[1..], i - 1);
    }
  }

  lemma ForkMentioned(steps: seq<Step>, i: nat)
    requires i < |steps| && steps[i].Fork?
    ensures steps[i].parent in Mentioned(steps) && steps[i].child in Mentioned(steps)
  {
    MentionedAt(steps, i);
    assert [steps[i]][1..] == [];
  }

  /** A pid larger than all of a set. */
  lemma {:induction false} Above(pids: set<int>) returns (m: int)
    ensures forall pid <- pids :: pid < m
    decreases pids
  {
    if pids == {} {
      m := 0;
    } else {
      var pid := Pick(pids);
      var rest := Above(pids - {pid});
      m := if rest <= pid then pid + 1 else rest;
      assert forall p <- pids :: p == pid || p in pids - {pid};
    }
  }

  /** A command, its child `running` in a group of its own, and that child's child `frozen`, still in the
      command's group; beside them processes of all other pids of a script, each in a group of its own.
      Nobody is stopped. */
  function AtStart(pids: set<int>, command: int, frozen: int, running: int): World {
    World(map pid | pid in pids + {command} ::
            Process(ProcessStat(pid, ParentAtStart(pid, command, frozen, running),
                                if pid == frozen then command else pid, 0),
                    false),
          1)
  }

  function ParentAtStart(pid: int, command: int, frozen: int, running: int): int {
    if pid == frozen then running else if pid == running then command else command + 1
  }

  /** The group stopped, and what exits and group changes make of it: as long as `running` is there, who is
      left is as before, but for the groups of others. */
  ghost predicate Calm(w: World, gone: set<int>, pids: set<int>, command: int, frozen: int, running: int) {
    && w.clock == 1 && w.processes.Keys == (pids + {command}) - gone
    && forall pid <- w.processes ::
        && w.processes[pid].stopped == (pid == command || pid == frozen)
        && w.processes[pid].stat == ProcessStat(pid, ParentAtStart(pid, command, frozen, running),
                                                w.processes[pid].stat.groupId, 0)
        && (w.processes[pid].stat.groupId == command <==> pid == command || pid == frozen)
  }

  lemma CalmStep(w: World, step: Step, gone: set<int>, pids: set<int>, command: int, frozen: int, running: int)
    requires Calm(w, gone, pids, command, frozen, running) && (forall pid <- pids :: pid < command) && gone <= pids
    requires Mentioned([step]) <= pids && (step.Fork? ==> step.parent in gone || step.child !in gone)
    requires step.Exit? ==> step.pid != running
    ensures Calm(Apply(w, step), if step.Exit? then gone + {step.pid} else gone, pids, command, frozen, running)
    ensures step.Exit? ==> step.pid in pids
  {
    assert [step][1..] == [];
    match step
    case Fork(parent, child) => assert parent in pids && child in pids;
    case SetGroup(pid, group) => assert pid in pids && group in pids;
    case Exit(pid, reaper) => assert pid in pids;
  }

  lemma {:induction false} CalmRuns(w: World, steps: seq<Step>, gone: set<int>, pids: set<int>, command: int,
                                    frozen: int, running: int)
    requires Calm(w, gone, pids, command, frozen, running) && (forall pid <- pids :: pid < command) && gone <= pids
    requires Mentioned(steps) <= pids && NoReuse(gone, steps) && running !in Exits(steps)
    ensures Calm(Run(w, steps), gone + Exits(steps), pids, command, frozen, running)
    decreases |steps|
  {
    if steps == [] {
      assert gone + Exits(steps) == gone;
    } else {
      var step := steps[0];
      MentionedAt(steps, 0);
      ExitsCons(steps);
      hide Calm;
      hide Exits;
      CalmStep(w, step, gone, pids, command, frozen, running);
      var now := if step.Exit? then gone + {step.pid} else gone;
      CalmRuns(Apply(w, step), steps[1..], now, pids, command, frozen, running);
      assert gone + Exits(steps) == now + Exits(steps[1..]);
    }
  }

  lemma {:induction false} RunSnoc(w: World, steps: seq<Step>, step: Step)
    ensures Run(w, steps + [step]) == Apply(Run(w, steps), step)
    decreases |steps|
  {
    if steps == [] {
      assert steps + [step] == [step] && [step][1..] == [];
      assert Run(w, [step]) == Run(Apply(w, step), []);
    } else {
      assert (steps + [step])[1..] == steps[1..] + [step];
      RunSnoc(Apply(w, steps[0]), steps[1..], step);
    }
  }

  lemma InClosed(f: set<int>, processId: int, groupId: int, s: Snapshot)
    requires Closed(f, processId, groupId, s)
    ensures forall pid | pid in s && InTree(pid, processId, groupId, s) :: pid in f
  {
    forall pid | pid in s && InTree(pid, processId, groupId, s) ensures pid in f {
      var k: nat :| SeedAt(pid, k, processId, groupId, s);
      TreeIsLeast(pid, k, f, processId, groupId, s);
    }
  }

  /** The fork that reuses the pid of the frozen process, when the running one is stopped after it. */
  lemma Reborn(w: World, gone: set<int>, pids: set<int>, command: int, frozen: int, running: int)
    requires Calm(w, gone, pids, command, frozen, running) && (forall pid <- pids :: pid < command)
    requires frozen in pids && running in pids && frozen in gone && running !in gone && gone <= pids
    ensures var after := StopOne(Apply(w, Fork(running, frozen)), Identity(running, 0)); var s := Table(after);
      && Alive(Apply(w, Fork(running, frozen)), Identity(running, 0))
      && Closed({frozen, command, running}, command, command, s)
      && frozen in s && s[frozen].pid == frozen && s[frozen].startTime == 1 && s[frozen].groupId != command
      && SeedAt(frozen, 2, command, command, s) && !Stopped(after, Identity(frozen, 1))
  {
    var after := StopOne(Apply(w, Fork(running, frozen)), Identity(running, 0));
    var s := Table(after);
    assert s[frozen] == ProcessStat(frozen, running, w.processes[running].stat.groupId, 1);
    assert s[running].parentPid == command && command in s;
    assert Up(s, frozen, 2) == Up(s, running, 1) == Up(s, command, 0);
  }

  /** How the tree of the start is listed: the command and its group first. */
  function ListAtStart(pids: set<int>, command: int, frozen: int, running: int): seq<ProcessStat>
    requires frozen in pids && running in pids
  {
    var s := Table(AtStart(pids, command, frozen, running));
    [s[frozen], s[command], s[running]]
  }

  lemma TreeAtStart(s: Snapshot, pids: set<int>, command: int, frozen: int, running: int)
    requires (forall pid <- pids :: pid < command) && frozen in pids && running in pids && frozen != running
    requires s == Table(AtStart(pids, command, frozen, running))
    ensures forall pid | pid in s :: InTree(pid, command, command, s) <==> pid in {frozen, command, running}
    ensures s[frozen].groupId == command && s[running].groupId != command
  {
    assert Closed({frozen, command, running}, command, command, s);
    InClosed({frozen, command, running}, command, command, s);
    SeedInTree(frozen, command, command, s);
    SeedInTree(command, command, command, s);
    ChildInTree(running, command, command, s);
  }

  lemma StartIsListed(pids: set<int>, command: int, frozen: int, running: int)
    requires (forall pid <- pids :: pid < command) && frozen in pids && running in pids && frozen != running
    ensures var w := AtStart(pids, command, frozen, running);
      ValidWorld(w)
      && Listing(ListAtStart(pids, command, frozen, running), Table(StopMembers(w, command)), command, command)
  {
    var w := AtStart(pids, command, frozen, running);
    var s, order := Table(w), ListAtStart(pids, command, frozen, running);
    assert Table(StopMembers(w, command)) == s;
    TreeAtStart(s, pids, command, frozen, running);
    hide InTree;
    assert order[0].pid == frozen && order[1].pid == command && order[2].pid == running;
    forall st: ProcessStat
      ensures st in order <==> st.pid in s && st == s[st.pid] && InTree(st.pid, command, command, s)
    {
      assert st in order <==> st == s[frozen] || st == s[command] || st == s[running];
    }
  }

  lemma FrontIsStopped(pids: set<int>, command: int, frozen: int, running: int)
    requires (forall pid <- pids :: pid < command) && frozen in pids && running in pids && frozen != running
    ensures var w, order := AtStart(pids, command, frozen, running), ListAtStart(pids, command, frozen, running);
      Calm(StopAll(StopMembers(w, command), order[..2]), {}, pids, command, frozen, running)
  {
    var w := StopMembers(AtStart(pids, command, frozen, running), command);
    var order := ListAtStart(pids, command, frozen, running);
    assert order[..2][..1] == [order[0]] && order[..2][1] == order[1] && [order[0]][..0] == [];
    assert StopAll(w, [order[0]]) == StopOne(StopAll(w, []), Id(order[0])) == w;
    assert StopAll(w, order[..2]) == StopOne(w, Id(order[1])) == w;
  }

  lemma RecordedAtStart(pids: set<int>, command: int, frozen: int, running: int)
    requires frozen in pids && running in pids && command !in pids && frozen != running
    ensures var captured := Recorded(ListAtStart(pids, command, frozen, running));
      captured.Keys == {frozen, command, running} && captured[frozen].startTime == 0
      && forall pid <- captured :: captured[pid].pid == pid
  {
    var order := ListAtStart(pids, command, frozen, running);
    var two, one := order[..2], order[..1];
    assert order[..|order| - 1] == two && two[..|two| - 1] == one && one[..|one| - 1] == [];
    assert Recorded(one) == map[frozen := order[0]];
    assert Recorded(two) == Recorded(one)[command := order[1]];
  }

  lemma PrefixIsCalm(w: World, script: seq<Step>, n: nat, pids: set<int>, command: int)
    requires n < |script| && script[n].Fork? && pids == Mentioned(script) && forall pid <- pids :: pid < command
    requires NoReuse({}, script[..n])
    requires script[n].child in Exits(script[..n]) && script[n].parent !in Exits(script[..n])
    requires Calm(w, {}, pids, command, script[n].child, script[n].parent)
    ensures var frozen, running := script[n].child, script[n].parent;
      && Exits(script[..n]) <= pids
      && Calm(Run(w, script[..n]), Exits(script[..n]), pids, command, frozen, running)
      && Run(w, script[..n + 1]) == Apply(Run(w, script[..n]), Fork(running, frozen))
  {
    hide *;
    MentionedPrefix(script, n);
    ExitsMentioned(script[..n]);
    CalmRuns(w, script[..n], {}, pids, command, script[n].child, script[n].parent);
    assert script[..n + 1] == script[..n] + [script[n]];
    RunSnoc(w, script[..n], script[n]);
    assert {} + Exits(script[..n]) == Exits(script[..n]);
  }

  lemma ReuseEscapes(script: seq<Step>)
    requires !NoReuse({}, script)
    ensures CanEscape(script)
  {
    hide *;
    var n := FirstReuse({}, script);
    var frozen, running := script[n].child, script[n].parent;
    assert {} + Exits(script[..n]) == Exits(script[..n]);
    var pids := Mentioned(script);
    var command := Above(pids);
    ForkMentioned(script, n);
    StartIsListed(pids, command, frozen, running);
    FrontIsStopped(pids, command, frozen, running);
    RecordedAtStart(pids, command, frozen, running);
    LastAtStart(pids, command, frozen, running);
    var w, order := AtStart(pids, command, frozen, running), ListAtStart(pids, command, frozen, running);
    var stopped := StopAll(StopMembers(w, command), order[..2]);
    PrefixIsCalm(stopped, script, n, pids, command);
    Reborn(Run(stopped, script[..n]), Exits(script[..n]), pids, command, frozen, running);
    ShowEscape(Run(stopped, script[..n + 1]), running, command, command, Recorded(order), frozen);
    ShowCanEscape(w, command, command, order, script, n + 1, Identity(frozen, 1));
  }

  lemma LastAtStart(pids: set<int>, command: int, frozen: int, running: int)
    requires frozen in pids && running in pids
    ensures var order := ListAtStart(pids, command, frozen, running);
      |order| == 3 && Id(order[2]) == Identity(running, 0)
  {
  }

  lemma ShowCanEscape(w: World, processId: int, groupId: int, order: seq<ProcessStat>, script: seq<Step>, n: nat,
                      escaped: Identity)
    requires ValidWorld(w) && n <= |script| && |order| == 3
    requires Listing(order, Table(StopMembers(w, groupId)), processId, groupId)
    requires var before := Run(StopAll(StopMembers(w, groupId), order[..2]), script[..n]);
      && Alive(before, Id(order[2]))
      && Escapes(StopOne(before, Id(order[2])), processId, groupId, Recorded(order), escaped)
    ensures CanEscape(script)
  {
    hide Escapes;
    hide Listing;
    hide Run;
    hide StopAll;
    assert Escape(w, processId, groupId, order, script, n, escaped);
  }

  lemma ShowEscape(w: World, last: int, processId: int, groupId: int, captured: map<int, ProcessStat>, pid: int)
    requires var after := StopOne(w, Identity(last, 0)); var s := Table(after);
      && Closed(captured.Keys, processId, groupId, s)
      && pid in s && s[pid].pid == pid && s[pid].startTime == 1 && s[pid].groupId != groupId
      && SeedAt(pid, 2, processId, groupId, s) && !Stopped(after, Identity(pid, 1))
    requires pid in captured && captured[pid].startTime == 0 && forall p <- captured :: captured[p].pid == p
    ensures Escapes(StopOne(w, Identity(last, 0)), processId, groupId, captured, Identity(pid, 1))
  {
    var after := StopOne(w, Identity(last, 0));
    InClosed(captured.Keys, processId, groupId, Table(after));
    hide StopOne;
    hide Closed;
    assert InTree(pid, processId, groupId, Table(after));
    assert Id(Table(after)[pid]) == Identity(pid, 1);
  }

  lemma {:induction false} MentionedPrefix(steps: seq<Step>, n: nat)
    requires n <= |steps|
    ensures Mentioned(steps[..n]) <= Mentioned(steps)
    decreases n
  {
    if n > 0 {
      assert steps[..n][1..] == steps[1..][..n - 1];
      MentionedPrefix(steps[1..], n - 1);
    }
  }

  lemma {:induction false} ExitsMentioned(steps: seq<Step>)
    ensures Exits(steps) <= Mentioned(steps)
    decreases |steps|
  {
    if steps != [] {
      ExitsCons(steps);
      ExitsMentioned(steps[1..]);
    }
  }

  /** A stable pass can leave a running member of the tree behind exactly when the script reuses a pid. */
  lemma ReuseDecides(script: seq<Step>)
    ensures NoReuse({}, script) <==> !CanEscape(script)
  {
    if NoReuse({}, script) {
      forall w, processId, groupId, order, n: nat, escaped
        ensures !Escape(w, processId, groupId, order, script, n, escaped)
      {
        NoReuseNoEscape(w, processId, groupId, order, script, n, escaped);
      }
    } else {
      ReuseEscapes(script);
    }
  }

  function SweepAll(w: World, ids: seq<Identity>, reaper: int): World
    decreases |ids|
  {
    if ids == [] then w else SweepAll(KillOne(w, ids[0], reaper), ids[1..], reaper)
  }

  /** Who escapes a stable pass outlives the sweep over all captured identities and the group. */
  lemma {:induction false} EscapedSurvives(w: World, ids: seq<Identity>, id: Identity, groupId: int, reaper: int)
    requires Alive(w, id) && id !in ids && w.processes[id.pid].stat.groupId != groupId
    ensures Alive(KillMembers(SweepAll(w, ids, reaper), groupId, reaper), id)
    decreases |ids|
  {
    if ids != [] {
      EscapedSurvives(KillOne(w, ids[0], reaper), ids[1..], id, groupId, reaper);
    }
  }
}
