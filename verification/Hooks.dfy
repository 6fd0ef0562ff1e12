/** Lifecycle hooks (src/hooks.rs) and how the operations of a session bracket their work with them
    (src/ghci/mod.rs). */
module Hooks {
  import opened Basics

  datatype When = Before | After

  datatype Event = Test | Startup(when: When) | Reload(when: When) | Restart(when: When)

  datatype Hook = Shell(event: Event, id: nat) | Ghci(event: Event, id: nat)

  /** How one command ends: it runs, it reports a failure, or it cannot be run at all. */
  datatype Outcome = Fine | Fails | Breaks

  // Lists of hooks.

  function Select(hs: seq<Hook>, e: Event): seq<Hook> {
    if hs == [] then [] else (if hs[0].event == e then [hs[0]] else []) + Select(hs[1..], e)
  }

  function ShellsOf(hs: seq<Hook>, e: Event): seq<Hook> {
    if hs == [] then []
    else (if hs[0].Shell? && hs[0].event == e then [hs[0]] else []) + ShellsOf(hs[1..], e)
  }

  function OfKind(hs: seq<Hook>, shell: bool): seq<Hook> {
    if hs == [] then [] else (if hs[0].Shell? == shell then [hs[0]] else []) + OfKind(hs[1..], shell)
  }

  /** No GHCi command comes before a shell command. */
  predicate ShellFirst(hs: seq<Hook>) {
    hs == [] || (ShellFirst(hs[1..]) && (hs[0].Ghci? ==> OfKind(hs[1..], true) == []))
  }

  lemma {:induction false} ShellsOfAppend(a: seq<Hook>, b: seq<Hook>, e: Event)
    ensures ShellsOf(a + b, e) == ShellsOf(a, e) + ShellsOf(b, e)
    decreases |a|
  {
    if a == [] {
      assert a + b == b;
    } else {
      ShellsOfAppend(a[1..], b, e);
      assert (a + b)[1..] == a[1..] + b;
      Assoc(if a[0].Shell? && a[0].event == e then [a[0]] else [], ShellsOf(a[1..], e), ShellsOf(b, e));
    }
  }

  lemma {:induction false} ShellsOfSelect(hs: seq<Hook>, e: Event, f: Event)
    ensures ShellsOf(Select(hs, e), f) == if e == f then ShellsOf(hs, e) else []
    decreases |hs|
  {
    if hs != [] {
      ShellsOfSelect(hs[1..], e, f);
      if hs[0].event == e {
        assert ([hs[0]] + Select(hs[1..], e))[1..] == Select(hs[1..], e);
      } else {
        assert [] + Select(hs[1..], e) == Select(hs[1..], e);
        assert [] + ShellsOf(hs[1..], e) == ShellsOf(hs[1..], e);
      }
    }
  }

  lemma {:induction false} SelectShellFirst(hs: seq<Hook>, e: Event)
    requires ShellFirst(hs)
    ensures ShellFirst(Select(hs, e))
    ensures OfKind(hs, true) == [] ==> OfKind(Select(hs, e), true) == []
    decreases |hs|
  {
    if hs != [] {
      SelectShellFirst(hs[1..], e);
      if hs[0].event == e {
        assert ([hs[0]] + Select(hs[1..], e))[1..] == Select(hs[1..], e);
      } else {
        assert [] + Select(hs[1..], e) == Select(hs[1..], e);
      }
    }
  }

  // Sorting the configured hooks.

  /** The stable sort by kind, shell commands first. */
  function ByKind(hs: seq<Hook>): seq<Hook> {
    OfKind(hs, true) + OfKind(hs, false)
  }

  lemma {:induction false} OfKindIsPure(hs: seq<Hook>, shell: bool)
    ensures OfKind(OfKind(hs, shell), !shell) == [] && ShellFirst(OfKind(hs, shell))
    decreases |hs|
  {
    if hs != [] {
      OfKindIsPure(hs[1..], shell);
      var rest := OfKind(hs[1..], shell);
      assert [] + OfKind(rest, !shell) == OfKind(rest, !shell) && [] + rest == rest;
      assert ([hs[0]] + rest)[1..] == rest;
    }
  }

  lemma {:induction false} KindsPartition(hs: seq<Hook>)
    ensures multiset(hs) == multiset(OfKind(hs, true)) + multiset(OfKind(hs, false))
    decreases |hs|
  {
    if hs != [] {
      KindsPartition(hs[1..]);
      assert hs == [hs[0]] + hs[1..];
    }
  }

  lemma {:induction false} ShellsThenGhcis(a: seq<Hook>, b: seq<Hook>)
    requires OfKind(a, false) == [] && OfKind(b, true) == [] && ShellFirst(b)
    ensures ShellFirst(a + b)
    decreases |a|
  {
    if a == [] {
      assert a + b == b;
    } else {
      assert (a + b)[1..] == a[1..] + b;
      assert a[0].Shell?;
      assert [] + OfKind(a[1..], false) == OfKind(a[1..], false);
      ShellsThenGhcis(a[1..], b);
    }
  }

  lemma {:induction false} ShellsOfKind(hs: seq<Hook>, e: Event)
    ensures ShellsOf(OfKind(hs, true), e) == ShellsOf(hs, e) && ShellsOf(OfKind(hs, false), e) == []
    decreases |hs|
  {
    if hs != [] {
      ShellsOfKind(hs[1..], e);
      if hs[0].Shell? {
        assert ([hs[0]] + OfKind(hs[1..], true))[1..] == OfKind(hs[1..], true);
        assert [] + OfKind(hs[1..], false) == OfKind(hs[1..], false);
      } else {
        assert ([hs[0]] + OfKind(hs[1..], false))[1..] == OfKind(hs[1..], false);
        assert [] + OfKind(hs[1..], true) == OfKind(hs[1..], true);
        assert [] + ShellsOf(hs[1..], e) == ShellsOf(hs[1..], e);
      }
    }
  }

  /** Sorting loses no hook, puts shell commands first and keeps their order. */
  lemma SortedShellFirst(hs: seq<Hook>)
    ensures ShellFirst(ByKind(hs)) && multiset(ByKind(hs)) == multiset(hs)
    ensures forall e :: ShellsOf(ByKind(hs), e) == ShellsOf(hs, e)
  {
    OfKindIsPure(hs, true);
    OfKindIsPure(hs, false);
    KindsPartition(hs);
    ShellsThenGhcis(OfKind(hs, true), OfKind(hs, false));
    forall e ensures ShellsOf(ByKind(hs), e) == ShellsOf(hs, e) {
      ShellsOfAppend(OfKind(hs, true), OfKind(hs, false), e);
      ShellsOfKind(hs, e);
    }
  }

  // Running a list of hooks.

  function Head(world: seq<Outcome>): Outcome {
    if world == [] then Fine else world[0]
  }

  function Later(world: seq<Outcome>): seq<Outcome> {
    if world == [] then [] else world[1..]
  }

  datatype Run = Run(ran: seq<Hook>, ok: bool, world: seq<Outcome>)

  /** What `run_hooks` runs of a list: a GHCi command that breaks ends it, one that fails ends the
      GHCi commands; a failed shell command only matters in strict mode. */
  function Executed(hs: seq<Hook>, skipShells: bool, strict: bool, ghciFailed: bool, world: seq<Outcome>): Run
    decreases |hs|
  {
    if hs == [] then Run([], true, world)
    else if if hs[0].Shell? then skipShells else ghciFailed then
      Executed(hs[1..], skipShells, strict, ghciFailed, world)
    else
      var outcome := Head(world);
      var fails := outcome == Fails && hs[0].event != Test;
      var stops := if hs[0].Shell? then outcome != Fine && strict else outcome == Breaks || (fails && strict);
      if stops then Run([hs[0]], false, Later(world))
      else
        var rest := Executed(hs[1..], skipShells, strict, ghciFailed || (hs[0].Ghci? && fails), Later(world));
        rest.(ran := [hs[0]] + rest.ran)
  }

  lemma {:induction false} ShellsAllRun(hs: seq<Hook>, skipShells: bool, ghciFailed: bool, world: seq<Outcome>,
                                        e: Event)
    requires ShellFirst(hs)
    ensures ShellsOf(Executed(hs, skipShells, false, ghciFailed, world).ran, e)
         == if skipShells then [] else ShellsOf(hs, e)
    decreases |hs|
  {
    if hs != [] {
      var rest := hs[1..];
      var fails := Head(world) == Fails && hs[0].event != Test;
      ShellsAllRun(rest, skipShells, ghciFailed, world, e);
      ShellsAllRun(rest, skipShells, ghciFailed || (hs[0].Ghci? && fails), Later(world), e);
      var next := Executed(rest, skipShells, false, ghciFailed || (hs[0].Ghci? && fails), Later(world)).ran;
      assert ([hs[0]] + next)[1..] == next;
      assert [hs[0]][1..] == [];
      assert [] + ShellsOf(rest, e) == ShellsOf(rest, e);
      if hs[0].Ghci? {
        NoShells(rest, e);
      }
    }
  }

  lemma GhcisCons(h: Hook, hs: seq<Hook>)
    ensures OfKind([h] + hs, false) == if h.Ghci? then [h] + OfKind(hs, false) else OfKind(hs, false)
    ensures OfKind([], false) == []
  {
    assert ([h] + hs)[1..] == hs && [] + OfKind(hs, false) == OfKind(hs, false);
  }

  lemma {:induction false} NoGhciAfterFailure(hs: seq<Hook>, skipShells: bool, strict: bool, world: seq<Outcome>)
    ensures OfKind(Executed(hs, skipShells, strict, true, world).ran, false) == []
    decreases |hs|
  {
    hide OfKind;
    if hs == [] {
      GhcisCons(Ghci(Test, 0), []);
    } else {
      NoGhciAfterFailure(hs[1..], skipShells, strict, world);
      NoGhciAfterFailure(hs[1..], skipShells, strict, Later(world));
      GhcisCons(hs[0], Executed(hs[1..], skipShells, strict, true, Later(world)).ran);
      GhcisCons(hs[0], []);
      assert [hs[0]] + [] == [hs[0]];
    }
  }

  /** The GHCi commands that run are the first ones of the list, in order: none runs after one that
      could not, or that failed. */
  lemma {:induction false} GhcisRunInOrder(hs: seq<Hook>, skipShells: bool, strict: bool, ghciFailed: bool,
                                           world: seq<Outcome>)
    ensures OfKind(Executed(hs, skipShells, strict, ghciFailed, world).ran, false) <= OfKind(hs, false)
    decreases |hs|
  {
    hide OfKind;
    if hs == [] {
      GhcisCons(Ghci(Test, 0), []);
    } else {
      var h, rest := hs[0], hs[1..];
      assert hs == [h] + rest;
      GhcisCons(h, rest);
      if if h.Shell? then skipShells else ghciFailed {
        GhcisRunInOrder(rest, skipShells, strict, ghciFailed, world);
        NoGhciAfterFailure(rest, skipShells, strict, world);
      } else {
        var failed := ghciFailed || (h.Ghci? && Head(world) == Fails && h.event != Test);
        GhcisRunInOrder(rest, skipShells, strict, failed, Later(world));
        GhcisCons(h, Executed(rest, skipShells, strict, failed, Later(world)).ran);
        GhcisCons(h, []);
        assert [h] + [] == [h];
      }
    }
  }

  lemma {:induction false} NoShells(hs: seq<Hook>, e: Event)
    requires OfKind(hs, true) == []
    ensures ShellsOf(hs, e) == []
    decreases |hs|
  {
    if hs != [] {
      assert [] + OfKind(hs[1..], true) == OfKind(hs[1..], true);
      NoShells(hs[1..], e);
    }
  }

  lemma {:induction false} SomeShell(hs: seq<Hook>) returns (e: Event)
    requires OfKind(hs, true) != []
    ensures ShellsOf(hs, e) != []
    decreases |hs|
  {
    if hs[0].Shell? {
      e := hs[0].event;
    } else {
      assert [] + OfKind(hs[1..], true) == OfKind(hs[1..], true);
      e := SomeShell(hs[1..]);
    }
  }

  lemma {:induction false} ShellIsLost(hs: seq<Hook>) returns (world: seq<Outcome>, e: Event)
    requires !ShellFirst(hs)
    ensures ShellsOf(Executed(hs, false, false, false, world).ran, e) != ShellsOf(hs, e)
    decreases |hs|
  {
    if !ShellFirst(hs[1..]) {
      var later;
      later, e := ShellIsLost(hs[1..]);
      world := [Fine] + later;
      assert Later(world) == later;
      var next := Executed(hs[1..], false, false, false, later).ran;
      assert ([hs[0]] + next)[1..] == next;
      assert [] + ShellsOf(next, e) == ShellsOf(next, e) && [] + ShellsOf(hs[1..], e) == ShellsOf(hs[1..], e);
      assert ([hs[0]] + ShellsOf(next, e))[1..] == ShellsOf(next, e);
      assert ([hs[0]] + ShellsOf(hs[1..], e))[1..] == ShellsOf(hs[1..], e);
      assert Executed(hs, false, false, false, world).ran == [hs[0]] + next;
    } else {
      e := SomeShell(hs[1..]);
      world := [Breaks];
      assert [hs[0]][1..] == [] && [] + ShellsOf(hs[1..], e) == ShellsOf(hs[1..], e);
    }
  }

  /** Shell hooks survive whatever the GHCi hooks do exactly when they come first. */
  lemma ShellsSurviveIff(hs: seq<Hook>)
    ensures ShellFirst(hs) <==>
      forall world, e :: ShellsOf(Executed(hs, false, false, false, world).ran, e) == ShellsOf(hs, e)
  {
    if ShellFirst(hs) {
      forall world, e ensures ShellsOf(Executed(hs, false, false, false, world).ran, e) == ShellsOf(hs, e) {
        ShellsAllRun(hs, false, false, world, e);
      }
    } else {
      var world, e := ShellIsLost(hs);
    }
  }

  /** A GHCi command is passed over only after one that could not run or failed. */
  lemma {:induction false} SkippedAfterFailure(hs: seq<Hook>, skipShells: bool, world: seq<Outcome>) returns (k: nat)
    requires OfKind(Executed(hs, skipShells, false, false, world).ran, false) != OfKind(hs, false)
    ensures var ran := Executed(hs, skipShells, false, false, world).ran;
      k < |ran| && ran[k].Ghci? && k < |world| && world[k] != Fine
    decreases |hs|
  {
    hide OfKind;
    if hs == [] {
      assert false;
    } else {
      var h, rest := hs[0], hs[1..];
      assert hs == [h] + rest;
      GhcisCons(h, rest);
      if h.Shell? && skipShells {
        k := SkippedAfterFailure(rest, skipShells, world);
      } else if h.Ghci? && Head(world) != Fine {
        k := 0;
      } else {
        GhcisCons(h, Executed(rest, skipShells, false, false, Later(world)).ran);
        var next := SkippedAfterFailure(rest, skipShells, Later(world));
        k := next + 1;
      }
    }
  }

  /** What `run_ghci_hooks` runs of a list: the GHCi commands up to the first that breaks or fails. */
  function GhcisRun(hs: seq<Hook>, world: seq<Outcome>): Run
    decreases |hs|
  {
    if hs == [] then Run([], true, world)
    else if hs[0].Shell? then GhcisRun(hs[1..], world)
    else if Head(world) != Fine then Run([hs[0]], Head(world) != Breaks, Later(world))
    else
      var rest := GhcisRun(hs[1..], Later(world));
      rest.(ran := [hs[0]] + rest.ran)
  }

  /** They are what running the whole list runs of them, tests apart, and no shell command is. */
  lemma {:induction false} GhcisRunIs(hs: seq<Hook>, world: seq<Outcome>)
    ensures (forall h <- hs :: h.event != Test) ==> GhcisRun(hs, world) == Executed(hs, true, false, false, world)
    ensures forall h <- GhcisRun(hs, world).ran :: h in hs && h.Ghci?
    decreases |hs|
  {
    if hs != [] {
      assert hs == [hs[0]] + hs[1..];
      GhcisRunIs(hs[1..], world);
      GhcisRunIs(hs[1..], Later(world));
      NothingMore(hs[1..], Later(world));
      assert [hs[0]] + [] == [hs[0]];
    }
  }

  lemma {:induction false} AllGhcisRun(hs: seq<Hook>, world: seq<Outcome>)
    requires AllFine(world)
    ensures var x := GhcisRun(hs, world); x.ok && AllFine(x.world) && forall h <- hs | h.Ghci? :: h in x.ran
    decreases |hs|
  {
    if hs != [] {
      assert hs == [hs[0]] + hs[1..];
      FineOn(world, 0);
      AllGhcisRun(hs[1..], world);
      AllGhcisRun(hs[1..], Later(world));
    }
  }

  lemma {:induction false} NoShellsDone(ran: seq<Hook>, hooks: seq<Hook>)
    requires forall h <- ran :: h.Ghci?
    ensures Did(ran, hooks, multiset{})
    decreases |ran|
  {
    forall e ensures ShellsOf(ran, e) == [] {
      NoShellAmong(ran, e);
    }
  }

  lemma {:induction false} NoShellAmong(ran: seq<Hook>, e: Event)
    requires forall h <- ran :: h.Ghci?
    ensures ShellsOf(ran, e) == []
    decreases |ran|
  {
    if ran != [] {
      assert ran == [ran[0]] + ran[1..] && ran[0] in ran;
      NoShellAmong(ran[1..], e);
      assert [] + ShellsOf(ran[1..], e) == ShellsOf(ran[1..], e);
    }
  }

  /** Nothing fails from here on. */
  predicate AllFine(world: seq<Outcome>) {
    forall i | 0 <= i < |world| :: world[i] == Fine
  }

  lemma FineOn(world: seq<Outcome>, n: nat)
    requires AllFine(world)
    ensures Head(world) == Fine && AllFine(Later(world)) && AllFine(Drop(world, n))
  {
  }

  /** When nothing fails, all selected commands run. */
  lemma {:induction false} AllExecuted(hs: seq<Hook>, strict: bool, world: seq<Outcome>)
    requires AllFine(world)
    ensures var x := Executed(hs, false, strict, false, world); x.ok && x.ran == hs && AllFine(x.world)
    ensures var x := Executed(hs, true, strict, false, world); x.ok && AllFine(x.world)
    ensures forall h | h in hs && h.Ghci? :: h in Executed(hs, true, strict, false, world).ran
    decreases |hs|
  {
    if hs != [] {
      FineOn(world, 0);
      AllExecuted(hs[1..], strict, world);
      AllExecuted(hs[1..], strict, Later(world));
      assert hs == [hs[0]] + hs[1..];
    }
  }

  // The log.

  /** What a session does besides running hooks. */
  datatype Action =
    | Prepare | Stop | Setup | ReportSetup | AwaitChange | Spawn | Boot
    | Unadd | Add | Load
    | Validate | WriteErrors | CheckCompiled | Eval | CheckTests

  /** An operation begins; a hook is run; one announces a failed setup attempt; anything else. */
  datatype Entry = Begun | Ran(hook: Hook) | Announced(hook: Hook) | Acted(action: Action)

  /** The order of things: before-hooks, the work, after-hooks, what follows a success. */
  function Phase(entry: Entry): nat {
    match entry
    case Begun => 0
    case Announced(_) => 3
    case Acted(Prepare) => 0
    case Acted(Stop) => 2
    case Acted(Setup) => 3
    case Acted(ReportSetup) => 3
    case Acted(AwaitChange) => 3
    case Acted(Spawn) => 5
    case Acted(Unadd) => 6
    case Acted(Add) => 7
    case Acted(Load) => 8
    case Acted(Boot) => 8
    case Acted(Validate) => 9
    case Acted(WriteErrors) => 10
    case Acted(CheckCompiled) => 14
    case Acted(Eval) => 15
    case Acted(CheckTests) => 17
    case Ran(h) => PhaseOf(h.event)
  }

  function PhaseOf(e: Event): nat {
    match e
    case Reload(Before) => 0
    case Restart(Before) => 1
    case Startup(Before) => 4
    case Startup(After) => 11
    case Restart(After) => 12
    case Reload(After) => 13
    case Test => 16
  }

  /** The phase that the latest entry belongs to. */
  function Reached(log: seq<Entry>): nat {
    if log == [] then 0 else Phase(log[|log| - 1])
  }

  /** Since the latest beginning, everything has been done in the order of phases. */
  predicate InOrder(log: seq<Entry>) {
    log == [] ||
    var front, last := log[..|log| - 1], log[|log| - 1];
    last.Begun? || (InOrder(front) && Reached(front) <= Phase(last))
  }

  function Acts(log: seq<Entry>): multiset<Action> {
    if log == [] then multiset{}
    else
      var front, last := Acts(log[..|log| - 1]), log[|log| - 1];
      if last.Acted? then front + multiset{last.action} else front
  }

  function Runs(log: seq<Entry>): multiset<Hook> {
    if log == [] then multiset{}
    else
      var front, last := Runs(log[..|log| - 1]), log[|log| - 1];
      if last.Ran? then front + multiset{last.hook} else front
  }

  ghost predicate Extends(a: seq<Entry>, b: seq<Entry>) {
    a <= b
  }

  /** What was in order up to phase `lo` is still in order, up to phase `hi`. */
  ghost predicate Proceeds(a: seq<Entry>, b: seq<Entry>, lo: nat, hi: nat) {
    Extends(a, b) && (InOrder(a) && Reached(a) <= lo ==> InOrder(b) && Reached(b) <= hi)
  }

  /** An action is done in between. */
  ghost predicate Does(a: seq<Entry>, b: seq<Entry>, action: Action) {
    Acts(b)[action] > Acts(a)[action]
  }

  /** All hooks of some events are run in between, or at least their GHCi commands. */
  ghost predicate RunsAll(hooks: seq<Hook>, a: seq<Entry>, b: seq<Entry>, events: set<Event>, shells: bool) {
    forall h <- hooks | h.event in events && (shells || h.Ghci?) :: Runs(b)[h] > Runs(a)[h]
  }

  predicate Rising(events: seq<Event>) {
    forall i, j | 0 <= i < j < |events| :: PhaseOf(events[i]) <= PhaseOf(events[j])
  }

  /** After-hooks, in the order in which they are run. */
  predicate Closing(events: seq<Event>) {
    Rising(events) && events != [] && forall i | 0 <= i < |events| :: 11 <= PhaseOf(events[i]) <= 13
  }

  /** The phases of the first and the last of some events. */
  function First(events: seq<Event>): nat {
    if events == [] then 0 else PhaseOf(events[0])
  }

  function Last(events: seq<Event>): nat {
    if events == [] then 0 else PhaseOf(events[|events| - 1])
  }

  lemma RisesTo(events: seq<Event>, i: nat)
    requires Rising(events) && i < |events|
    ensures First(events) <= PhaseOf(events[i]) <= Last(events)
    ensures i > 0 ==> PhaseOf(events[i - 1]) <= PhaseOf(events[i])
  {
  }

  /** The first `n` things to happen do not fail. */
  predicate FineFor(n: nat, world: seq<Outcome>) {
    forall i | 0 <= i < n && i < |world| :: world[i] == Fine
  }

  lemma FineForMore(n: nat, world: seq<Outcome>)
    ensures FineFor(n + 1, world) <==> Head(world) == Fine && FineFor(n, Later(world))
    ensures FineFor(0, world)
  {
    if Head(world) == Fine && FineFor(n, Later(world)) && world != [] {
      forall i | 0 <= i < n + 1 && i < |world| ensures world[i] == Fine {
        assert i > 0 ==> world[i] == Later(world)[i - 1];
      }
    }
    if FineFor(n + 1, world) && world != [] {
      assert forall i | 0 <= i < |Later(world)| :: Later(world)[i] == world[i + 1];
    }
  }

  /** A modification succeeds if what prepares additions, the GHCi commands before the reload, and each of
      the commands to GHCi that are called for succeed. */
  predicate ModifySucceeds(hooks: seq<Hook>, removes: bool, adds: bool, reloads: bool, world: seq<Outcome>) {
    var x := GhcisRun(Select(hooks, Reload(Before)), if adds then Later(world) else world);
    (adds ==> Head(world) == Fine) && x.ok && FineFor(Called(removes, adds, reloads), x.world)
  }

  function Called(removes: bool, adds: bool, reloads: bool): nat {
    (if removes then 1 else 0) + (if adds then 1 else 0) + if reloads then 1 else 0
  }

  /** GHCi was told what there was to tell. */
  ghost predicate Modified(a: seq<Entry>, b: seq<Entry>, removes: bool, adds: bool, reloads: bool) {
    (removes ==> Does(a, b, Unadd)) && (adds ==> Does(a, b, Add)) && (reloads ==> Does(a, b, Load))
  }

  lemma ModifiedOn(a: seq<Entry>, b: seq<Entry>, c: seq<Entry>, lo: nat, mid: nat, mid': nat, hi: nat, removes: bool,
                   adds: bool, reloads: bool)
    requires Proceeds(a, b, lo, mid) && Proceeds(b, c, mid', hi)
    requires Modified(a, b, removes, adds, reloads) || Modified(b, c, removes, adds, reloads)
    ensures Modified(a, c, removes, adds, reloads)
  {
    if removes {
      DoesOn(a, b, c, lo, mid, mid', hi, Unadd);
    }
    if adds {
      DoesOn(a, b, c, lo, mid, mid', hi, Add);
    }
    if reloads {
      DoesOn(a, b, c, lo, mid, mid', hi, Load);
    }
  }

  /** The plan of a reload was carried out. */
  ghost predicate Reloaded(a: seq<Entry>, b: seq<Entry>, plan: Plan) {
    match plan
    case Unclassified => false
    case NeedsRestart => Replaced(a, b, true)
    case NothingToDo => true
    case NeedsModify(removes, adds, reloads) => Modified(a, b, removes, adds, reloads)
  }

  lemma ReloadedOn(a: seq<Entry>, b: seq<Entry>, c: seq<Entry>, hi: nat, plan: Plan)
    requires Proceeds(a, b, 0, 0) && Proceeds(b, c, 0, hi) && Reloaded(b, c, plan)
    ensures Reloaded(a, c, plan)
  {
    match plan
    case NeedsRestart => ReplacedOn(a, b, c, 0, 0, 0, hi, true);
    case NeedsModify(removes, adds, reloads) => ModifiedOn(a, b, c, 0, 0, 0, hi, removes, adds, reloads);
    case _ =>
  }

  lemma RestartSetupIs(hooks: seq<Hook>, hasSetup: bool, shellsRan: bool, world: seq<Outcome>)
    ensures var onward := Drop(world, if shellsRan then 0 else |ShellsOf(hooks, Reload(Before))|);
      var x := if shellsRan then Executed(Select(hooks, Reload(Before)), true, false, false, world)
               else AllHooks(hooks, Reload(Before), world);
      RestartSetup(hooks, hasSetup, onward) == if x.ok then ProperSetup(hooks, hasSetup, x.world) else 0
  {
    NoneDropped(world);
    hide Drop;
    hide Executed;
    hide ProperSetup;
  }

  lemma NoneDropped(world: seq<Outcome>)
    ensures Drop(world, 0) == world
  {
  }

  lemma SameCounts(log: seq<Entry>)
    ensures Acts(log + [Begun]) == Acts(log) && Runs(log + [Begun]) == Runs(log)
  {
    assert (log + [Begun])[..|log|] == log;
  }

  lemma SameReloaded(a: seq<Entry>, begun: seq<Entry>, b: seq<Entry>, plan: Plan)
    requires Acts(a) == Acts(begun) && Reloaded(begun, b, plan)
    ensures Reloaded(a, b, plan)
  {
    hide Acts;
  }

  /** Shell commands first, then the GHCi commands. */
  lemma ShellsRunToo(hooks: seq<Hook>, a: seq<Entry>, b: seq<Entry>, c: seq<Entry>, e: Event)
    requires b == a + Entries(ShellsOf(hooks, e), false) && b <= c && RunsAll(hooks, b, c, {e}, false)
    ensures RunsAll(hooks, a, c, {e}, true)
  {
    ShellsIff(hooks, e);
    HooksProceed(a, ShellsOf(hooks, e), false, e);
    assert a <= b;
    CountsGrow(a, b);
    CountsGrow(b, c);
    hide Runs;
    hide Entries;
    forall h <- hooks | h.event == e ensures Runs(c)[h] > Runs(a)[h] {
      if h.Shell? {
        assert h in ShellsOf(hooks, e) && multiset(ShellsOf(hooks, e))[h] > 0;
      }
    }
  }

  /** The events a restart ends with. */
  const RESTARTED: seq<Event> := [Startup(After), Restart(After), Reload(After)]

  lemma RestartedCloses()
    ensures Closing(RESTARTED) && Closing([Startup(After), Restart(After)]) && Closing([Reload(After)])
    ensures Rising([Restart(After), Reload(After)]) && Rising([Reload(Before), Restart(Before)])
    ensures Rising([Reload(After)])
    ensures First([Restart(After), Reload(After)]) == 12 && Last([Restart(After), Reload(After)]) == 13
    ensures First([Reload(Before), Restart(Before)]) == 0 && Last([Reload(Before), Restart(Before)]) == 1
    ensures First([Reload(After)]) == Last([Reload(After)]) == 13
  {
  }

  lemma RestartedSets()
    ensures SetOf(RESTARTED) == {Startup(After), Restart(After), Reload(After)}
    ensures SetOf([Startup(After), Restart(After)]) == {Startup(After), Restart(After)}
    ensures SetOf([Reload(After)]) == {Reload(After)}
  {
    assert RESTARTED[0] == Startup(After) && RESTARTED[1] == Restart(After) && RESTARTED[2] == Reload(After);
    assert [Startup(After), Restart(After)][0] == Startup(After);
    assert [Startup(After), Restart(After)][1] == Restart(After);
    assert [Reload(After)][0] == Reload(After);
  }

  lemma RestartedBag()
    ensures multiset(RESTARTED) == multiset{Startup(After), Restart(After), Reload(After)}
  {
    assert RESTARTED == [Startup(After), Restart(After), Reload(After)];
  }

  /** What ran before a restart proper and in it. */
  lemma RestartRuns(hooks: seq<Hook>, a: seq<Entry>, b: seq<Entry>, c: seq<Entry>, shells: bool)
    requires Proceeds(a, b, 0, 0) && Proceeds(b, c, 1, 17)
    requires RunsAll(hooks, a, b, {Reload(Before)}, shells) && RunsAll(hooks, b, c, {Restart(Before)}, true)
    requires RunsAll(hooks, b, c, SetOf(RESTARTED), true)
    ensures RunsAll(hooks, a, c, {Reload(Before)}, shells) && RunsAll(hooks, a, c, {Restart(Before)}, true)
    ensures RunsAll(hooks, a, c, SetOf(RESTARTED), true)
  {
    hide *;
    RunsOn(hooks, a, b, c, 0, 0, 1, 17, {Reload(Before)}, shells);
    RunsOn(hooks, a, b, c, 0, 0, 1, 17, {Restart(Before)}, true);
    RunsOn(hooks, a, b, c, 0, 0, 1, 17, SetOf(RESTARTED), true);
  }

  /** A session was replaced: the old process stopped, if there was one, a new one started and booted. */
  ghost predicate Replaced(a: seq<Entry>, b: seq<Entry>, stopped: bool) {
    Does(a, b, Spawn) && Does(a, b, Boot) && (stopped ==> Does(a, b, Stop))
  }

  lemma ReplacedOn(a: seq<Entry>, b: seq<Entry>, c: seq<Entry>, lo: nat, mid: nat, mid': nat, hi: nat, stopped: bool)
    requires Proceeds(a, b, lo, mid) && Proceeds(b, c, mid', hi) && Replaced(b, c, stopped)
    ensures Replaced(a, c, stopped)
  {
    DoesOn(a, b, c, lo, mid, mid', hi, Spawn);
    DoesOn(a, b, c, lo, mid, mid', hi, Boot);
    if stopped {
      DoesOn(a, b, c, lo, mid, mid', hi, Stop);
    }
  }

  lemma NoShellsYet(hooks: seq<Hook>, world: seq<Outcome>)
    ensures AfterShells(hooks, [], world) == world
  {
  }

  lemma OneMoreShells(hooks: seq<Hook>, events: seq<Event>, i: nat, world: seq<Outcome>)
    requires i < |events|
    ensures AfterShells(hooks, events[..i + 1], world)
         == Drop(AfterShells(hooks, events[..i], world), |ShellsOf(hooks, events[i])|)
  {
    assert events[..i + 1][..i] == events[..i];
  }

  lemma Ends(events: seq<Event>)
    ensures First(events) == (if events == [] then 0 else PhaseOf(events[0]))
    ensures Last(events) == (if events == [] then 0 else PhaseOf(events[|events| - 1]))
  {
  }

  lemma ClosingPhases(events: seq<Event>)
    requires Closing(events)
    ensures Rising(events) && 11 <= First(events) <= Last(events) <= 13
  {
  }

  lemma SetOfMore(events: seq<Event>, i: nat)
    requires i < |events|
    ensures SetOf(events[..i + 1]) == SetOf(events[..i]) + {events[i]}
  {
    assert events[..i + 1] == events[..i] + [events[i]];
  }

  lemma SetOfNone()
    ensures SetOf([]) == {}
  {
  }

  lemma NothingDone(log: seq<Entry>, lo: nat)
    ensures Extends(log, log) && Proceeds(log, log, lo, lo)
  {
  }

  lemma OneDone(log: seq<Entry>, entry: Entry)
    ensures var now := log + [entry];
      Extends(log, now) && (!entry.Begun? ==> Proceeds(log, now, Phase(entry), Phase(entry)))
      && (entry.Acted? ==> Does(log, now, entry.action))
      && Runs(now) == Runs(log) + (if entry.Ran? then multiset{entry.hook} else multiset{})
      && (entry.Begun? ==> InOrder(now) && Reached(now) == 0)
  {
    assert (log + [entry])[..|log|] == log;
  }

  lemma ProceedsBoth(a: seq<Entry>, b: seq<Entry>, c: seq<Entry>, lo: nat, mid: nat, mid': nat, hi: nat)
    requires Proceeds(a, b, lo, mid) && Proceeds(b, c, mid', hi) && mid <= mid'
    ensures Proceeds(a, c, lo, hi)
  {
  }

  lemma ProceedsMore(a: seq<Entry>, b: seq<Entry>, lo: nat, hi: nat, hi': nat)
    requires Proceeds(a, b, lo, hi) && hi <= hi'
    ensures Proceeds(a, b, lo, hi')
  {
  }

  lemma {:induction false} CountsGrow(a: seq<Entry>, b: seq<Entry>)
    requires a <= b
    ensures Acts(a) <= Acts(b) && Runs(a) <= Runs(b)
    decreases |b|
  {
    if |a| < |b| {
      var front := b[..|b| - 1];
      assert a <= front;
      CountsGrow(a, front);
    } else {
      assert a == b;
    }
  }

  lemma DoesOn(a: seq<Entry>, b: seq<Entry>, c: seq<Entry>, lo: nat, mid: nat, mid': nat, hi: nat, action: Action)
    requires Proceeds(a, b, lo, mid) && Proceeds(b, c, mid', hi) && (Does(a, b, action) || Does(b, c, action))
    ensures Does(a, c, action)
  {
    CountsGrow(a, b);
    CountsGrow(b, c);
  }

  lemma RunsOn(hooks: seq<Hook>, a: seq<Entry>, b: seq<Entry>, c: seq<Entry>, lo: nat, mid: nat, mid': nat, hi: nat,
               events: set<Event>, shells: bool)
    requires Proceeds(a, b, lo, mid) && Proceeds(b, c, mid', hi)
    requires RunsAll(hooks, a, b, events, shells) || RunsAll(hooks, b, c, events, shells)
    ensures RunsAll(hooks, a, c, events, shells)
  {
    CountsGrow(a, b);
    CountsGrow(b, c);
  }

  lemma RunsUnion(hooks: seq<Hook>, a: seq<Entry>, b: seq<Entry>, events: set<Event>, more: set<Event>, shells: bool)
    requires RunsAll(hooks, a, b, events, shells) && RunsAll(hooks, a, b, more, shells)
    ensures RunsAll(hooks, a, b, events + more, shells)
  {
  }

  lemma RunsSome(hooks: seq<Hook>, a: seq<Entry>, b: seq<Entry>, events: set<Event>, some: set<Event>, shells: bool)
    requires RunsAll(hooks, a, b, events, true) && some <= events
    ensures RunsAll(hooks, a, b, some, shells)
  {
  }

  lemma RunsNone(hooks: seq<Hook>, a: seq<Entry>, shells: bool)
    ensures RunsAll(hooks, a, a, {}, shells)
  {
  }

  function SetOf(events: seq<Event>): set<Event> {
    set e | e in events
  }

  function Entries(hs: seq<Hook>, announcing: bool): seq<Entry> {
    seq(|hs|, i requires 0 <= i < |hs| => if announcing then Announced(hs[i]) else Ran(hs[i]))
  }

  lemma EntriesCons(log: seq<Entry>, h: Hook, hs: seq<Hook>)
    ensures log + Entries([h] + hs, false) == log + [Ran(h)] + Entries(hs, false)
  {
  }

  lemma NoEntries(log: seq<Entry>, announcing: bool)
    ensures log + Entries([], announcing) == log
  {
  }

  lemma EntriesSnoc(log: seq<Entry>, hs: seq<Hook>, h: Hook, announcing: bool)
    ensures log + Entries(hs + [h], announcing)
         == log + Entries(hs, announcing) + [if announcing then Announced(h) else Ran(h)]
  {
  }

  /** Hooks of one event are one phase. */
  lemma {:induction false} HooksProceed(log: seq<Entry>, hs: seq<Hook>, announcing: bool, e: Event)
    requires forall h <- hs :: h.event == e
    ensures var phase := if announcing then 3 else PhaseOf(e);
      Proceeds(log, log + Entries(hs, announcing), phase, phase)
    ensures Runs(log + Entries(hs, announcing)) == Runs(log) + if announcing then multiset{} else multiset(hs)
    decreases |hs|
  {
    var phase := if announcing then 3 else PhaseOf(e);
    if hs == [] {
      assert log + Entries(hs, announcing) == log;
      NothingDone(log, phase);
    } else {
      var front, last := hs[..|hs| - 1], hs[|hs| - 1];
      assert hs == front + [last];
      HooksProceed(log, front, announcing, e);
      EntriesSnoc(log, front, last, announcing);
      var now := log + Entries(front, announcing);
      OneDone(now, if announcing then Announced(last) else Ran(last));
      ProceedsBoth(log, now, log + Entries(hs, announcing), phase, phase, phase, phase);
    }
  }

  /** All hooks of an event, the shell commands having run before or with the others. */
  lemma RunsSelected(hooks: seq<Hook>, a: seq<Entry>, b: seq<Entry>, e: Event, skipShells: bool, strict: bool,
                     world: seq<Outcome>)
    requires if skipShells then b == a + Entries(ShellsOf(hooks, e), false) else b == a
    ensures var x := Executed(Select(hooks, e), skipShells, strict, false, world);
      var c := b + Entries(x.ran, false);
      Proceeds(a, c, PhaseOf(e), PhaseOf(e))
      && (AllFine(world) ==> x.ok && AllFine(x.world) && RunsAll(hooks, a, c, {e}, true))
  {
    hide *;
    var x := Executed(Select(hooks, e), skipShells, strict, false, world);
    var before := if skipShells then ShellsOf(hooks, e) else [];
    SelectIff(hooks, e);
    ShellsIff(hooks, e);
    RanAreListed(Select(hooks, e), skipShells, strict, false, world);
    NoEntries(a, false);
    TwoRuns(a, before, x.ran, e);
    if AllFine(world) {
      AllExecuted(Select(hooks, e), strict, world);
      RunsTwice(hooks, a, before, x.ran, e);
    }
  }

  lemma TwoRuns(log: seq<Entry>, before: seq<Hook>, hs: seq<Hook>, e: Event)
    requires (forall h <- before :: h.event == e) && forall h <- hs :: h.event == e
    ensures var now := log + Entries(before, false) + Entries(hs, false);
      Proceeds(log, now, PhaseOf(e), PhaseOf(e)) && Runs(now) == Runs(log) + multiset(before) + multiset(hs)
  {
    hide *;
    var between := log + Entries(before, false);
    HooksProceed(log, before, false, e);
    HooksProceed(between, hs, false, e);
    ProceedsBoth(log, between, between + Entries(hs, false), PhaseOf(e), PhaseOf(e), PhaseOf(e), PhaseOf(e));
  }

  lemma RunsTwice(hooks: seq<Hook>, log: seq<Entry>, before: seq<Hook>, hs: seq<Hook>, e: Event)
    requires (forall h <- before :: h.event == e) && forall h <- hs :: h.event == e
    requires forall h <- hooks | h.event == e :: h in before || h in hs
    ensures RunsAll(hooks, log, log + Entries(before, false) + Entries(hs, false), {e}, true)
  {
    TwoRuns(log, before, hs, e);
    hide Runs;
    hide Entries;
  }

  /** If all hooks of an event are among those that ran, they have run. */
  lemma HooksRunAll(hooks: seq<Hook>, log: seq<Entry>, hs: seq<Hook>, e: Event, shells: bool)
    requires (forall h <- hs :: h.event == e) && forall h <- hooks | h.event == e && (shells || h.Ghci?) :: h in hs
    ensures RunsAll(hooks, log, log + Entries(hs, false), {e}, shells)
  {
    HooksProceed(log, hs, false, e);
    hide Runs;
    hide Entries;
  }

  lemma {:induction false} RanAreListed(hs: seq<Hook>, skipShells: bool, strict: bool, ghciFailed: bool,
                                        world: seq<Outcome>)
    ensures forall h <- Executed(hs, skipShells, strict, ghciFailed, world).ran :: h in hs
    decreases |hs|
  {
    if hs != [] {
      RanAreListed(hs[1..], skipShells, strict, ghciFailed, world);
      var failed := ghciFailed || (hs[0].Ghci? && Head(world) == Fails && hs[0].event != Test);
      RanAreListed(hs[1..], skipShells, strict, failed, Later(world));
    }
  }

  lemma {:induction false} SelectIff(hs: seq<Hook>, e: Event)
    ensures forall h :: h in Select(hs, e) <==> h in hs && h.event == e
    decreases |hs|
  {
    if hs != [] {
      SelectIff(hs[1..], e);
      assert hs == [hs[0]] + hs[1..];
    }
  }

  lemma {:induction false} ShellsIff(hs: seq<Hook>, e: Event)
    ensures forall h :: h in ShellsOf(hs, e) <==> h in hs && h.event == e && h.Shell?
    decreases |hs|
  {
    if hs != [] {
      ShellsIff(hs[1..], e);
      assert hs == [hs[0]] + hs[1..];
    }
  }

  // Setup attempts.

  /** What happens after `n` commands. */
  function Drop(world: seq<Outcome>, n: nat): seq<Outcome> {
    if n <= |world| then world[n..] else []
  }

  lemma DropOneMore(world: seq<Outcome>, n: nat)
    ensures Drop(world, 0) == world && Later(Drop(world, n)) == Drop(world, n + 1)
  {
  }

  /** Outside strict mode: what happens after the shell hooks of some events. */
  function AfterShells(hooks: seq<Hook>, events: seq<Event>, world: seq<Outcome>): seq<Outcome>
    decreases |events|
  {
    if events == [] then world
    else
      var n := |events| - 1;
      Drop(AfterShells(hooks, events[..n], world), |ShellsOf(hooks, events[n])|)
  }

  /** How many setup attempts fail with their failure published, whether one succeeds in the end, and
      what happens then. */
  datatype Attempts = Attempts(failed: nat, ready: bool, world: seq<Outcome>)

  /** The setup commands are tried until they succeed. A failed attempt is written to the error file,
      announced by `n` shell hooks and followed by waiting for a change; each of these but the hooks can
      fail in its turn, and ends it. */
  function SetupAttempts(n: nat, world: seq<Outcome>): Attempts
    decreases |world|
  {
    var written := Later(world);
    var waiting := Drop(Later(written), n);
    if Head(world) == Fine then Attempts(0, true, written)
    else if Head(written) != Fine then Attempts(0, false, Later(written))
    else if Head(waiting) != Fine then Attempts(1, false, Later(waiting))
    else
      var rest := SetupAttempts(n, Later(waiting));
      rest.(failed := rest.failed + 1)
  }

  /** The setup of a fresh session. */
  function SetupOf(hooks: seq<Hook>, hasSetup: bool, world: seq<Outcome>): Attempts {
    if hasSetup then SetupAttempts(|ShellsOf(hooks, Reload(After))|, world) else Attempts(0, true, world)
  }

  /** Outside strict mode: running all hooks of an event, before a reload the shell commands first. */
  function AllHooks(hooks: seq<Hook>, e: Event, world: seq<Outcome>): Run {
    if e == Reload(Before) then
      Executed(Select(hooks, e), true, false, false, Drop(world, |ShellsOf(hooks, e)|))
    else Executed(Select(hooks, e), false, false, false, world)
  }

  /** The completion hooks of some events outside strict mode: all of them while GHCi commands work, then
      the shell commands. */
  function CompletionRun(hooks: seq<Hook>, events: seq<Event>, ghci: bool, world: seq<Outcome>): Run
    decreases |events|
  {
    if events == [] then Run([], true, world)
    else
      var x := CompletionOne(hooks, events[0], ghci, world);
      var more := CompletionRun(hooks, events[1..], ghci && x.ok, x.world);
      Run(x.ran + more.ran, x.ok && more.ok, more.world)
  }

  function CompletionOne(hooks: seq<Hook>, e: Event, ghci: bool, world: seq<Outcome>): Run {
    var shells := ShellsOf(hooks, e);
    if ghci then AllHooks(hooks, e, world).(ran := HooksRun(hooks, e, world))
    else Run(shells, true, Drop(world, |shells|))
  }

  lemma CompletionCons(hooks: seq<Hook>, events: seq<Event>, i: nat, ghci: bool, world: seq<Outcome>)
    requires i < |events|
    ensures var x := CompletionOne(hooks, events[i], ghci, world);
      var more := CompletionRun(hooks, events[i + 1..], ghci && x.ok, x.world);
      CompletionRun(hooks, events[i..], ghci, world) == Run(x.ran + more.ran, x.ok && more.ok, more.world)
  {
    hide CompletionOne;
    assert events[i..][1..] == events[i + 1..];
  }

  lemma NoCompletions(hooks: seq<Hook>, events: seq<Event>, ghci: bool, world: seq<Outcome>, ran: seq<Hook>)
    ensures events[0..] == events && events[|events|..] == []
    ensures var x := CompletionRun(hooks, [], ghci, world); x == Run([], true, world) && ran + x.ran == ran
  {
  }

  function HooksRun(hooks: seq<Hook>, e: Event, world: seq<Outcome>): seq<Hook> {
    (if e == Reload(Before) then ShellsOf(hooks, e) else []) + AllHooks(hooks, e, world).ran
  }

  /** What a replacement comes to once its hooks have run; there is no setup if the old process cannot be
      stopped. */
  function ReplacementSetup(hooks: seq<Hook>, hasSetup: bool, stop: bool, world: seq<Outcome>): nat {
    if !stop then SetupOf(hooks, hasSetup, world).failed
    else if Head(world) != Fine then 0
    else SetupOf(hooks, hasSetup, Later(world)).failed
  }

  function ProperSetup(hooks: seq<Hook>, hasSetup: bool, world: seq<Outcome>): nat {
    var restart := AllHooks(hooks, Restart(Before), world);
    if restart.ok then ReplacementSetup(hooks, hasSetup, true, restart.world) else 0
  }

  /** A restart after its before-reload shell hooks. */
  function RestartSetup(hooks: seq<Hook>, hasSetup: bool, world: seq<Outcome>): nat {
    var reload := Executed(Select(hooks, Reload(Before)), true, false, false, world);
    if reload.ok then ProperSetup(hooks, hasSetup, reload.world) else 0
  }

  /** A failed attempt is published if and only if the first one is: the setup commands fail, and the
      error file can be written. */
  lemma PublishedIff(n: nat, world: seq<Outcome>)
    ensures SetupAttempts(n, world).failed > 0 <==> Head(world) != Fine && Head(Later(world)) == Fine
  {
  }

  /** A restart publishes failed setup attempts exactly when it gets as far as the setup commands and the
      first attempt is published. */
  lemma RestartPublishesIff(hooks: seq<Hook>, hasSetup: bool, world: seq<Outcome>)
    ensures var reload := Executed(Select(hooks, Reload(Before)), true, false, false, world);
      var restart := AllHooks(hooks, Restart(Before), reload.world);
      var setup := Later(restart.world);
      RestartSetup(hooks, hasSetup, world) > 0 <==>
        hasSetup && reload.ok && restart.ok && Head(restart.world) == Fine
        && Head(setup) != Fine && Head(Later(setup)) == Fine
  {
    var reload := Executed(Select(hooks, Reload(Before)), true, false, false, world);
    var restart := AllHooks(hooks, Restart(Before), reload.world);
    hide Executed;
    hide AllHooks;
    PublishedIff(|ShellsOf(hooks, Reload(After))|, Later(restart.world));
  }

  function Fines(n: nat): seq<Outcome> {
    seq(n, _ => Fine)
  }

  lemma DropFines(n: nat, world: seq<Outcome>)
    ensures Drop(Fines(n) + world, n) == world
  {
    assert (Fines(n) + world)[n..] == world;
  }

  /** Hooks that all work, and what happens then. */
  lemma {:induction false} AllWork(hs: seq<Hook>, skipShells: bool, world: seq<Outcome>) returns (before: seq<Outcome>)
    ensures var x := Executed(hs, skipShells, false, false, before + world); x.ok && x.world == world
    decreases |hs|
  {
    if hs == [] {
      before := [];
      assert before + world == world;
    } else {
      before := AllWork(hs[1..], skipShells, world);
      if hs[0].Ghci? || !skipShells {
        var next := before;
        before := [Fine] + next;
        assert (before + world)[0] == Fine && (before + world)[1..] == next + world;
      }
    }
  }

  lemma OneFailure(n: nat, rest: seq<Outcome>)
    ensures var world := [Fails, Fine] + (Fines(n) + ([Fine] + rest));
      Head(world) == Fails && Head(Later(world)) == Fine
      && Drop(Later(Later(world)), n) == [Fine] + rest && Later([Fine] + rest) == rest
  {
    var after := [Fine] + rest;
    var world := [Fails, Fine] + (Fines(n) + after);
    assert Later(world) == [Fine] + (Fines(n) + after);
    assert Later(Later(world)) == Fines(n) + after;
    DropFines(n, after);
  }

  lemma {:induction false} SetupFails(n: nat, times: nat) returns (world: seq<Outcome>)
    ensures SetupAttempts(n, world).failed == times && SetupAttempts(n, world).ready
  {
    if times == 0 {
      world := [];
    } else {
      var rest := SetupFails(n, times - 1);
      world := [Fails, Fine] + (Fines(n) + ([Fine] + rest));
      OneFailure(n, rest);
      hide Drop;
      hide Later;
      hide Fines;
    }
  }

  /** Whatever hooks are configured, with setup commands every number of extra announcements can come. */
  lemma EveryNumberIsPublished(hooks: seq<Hook>, times: nat) returns (world: seq<Outcome>)
    ensures RestartSetup(hooks, true, world) == times
  {
    var setup := SetupFails(|ShellsOf(hooks, Reload(After))|, times);
    var stop := [Fine] + setup;
    assert Later(stop) == setup;
    var restart := AllWork(Select(hooks, Restart(Before)), false, stop);
    var reload := AllWork(Select(hooks, Reload(Before)), true, restart + stop);
    world := reload + (restart + stop);
    hide Executed;
  }

  // Sessions.

  function Repeat(hs: seq<Hook>, n: nat): seq<Hook> {
    if n == 0 then [] else Repeat(hs, n - 1) + hs
  }

  lemma {:induction false} RepeatSum(hs: seq<Hook>, m: nat, n: nat)
    ensures Repeat(hs, m) + Repeat(hs, n) == Repeat(hs, m + n)
    decreases n
  {
    if n == 0 {
      assert Repeat(hs, m) + [] == Repeat(hs, m);
    } else {
      RepeatSum(hs, m, n - 1);
      Assoc(Repeat(hs, m), Repeat(hs, n - 1), hs);
    }
  }

  /** A stretch of a run holds, for every event, all its shell hooks, in order, as many times as the
      event occurs in `es`, and no other shell hook. */
  ghost predicate Did(part: seq<Hook>, hooks: seq<Hook>, es: multiset<Event>) {
    forall e :: ShellsOf(part, e) == Repeat(ShellsOf(hooks, e), es[e])
  }

  lemma DidBoth(a: seq<Hook>, b: seq<Hook>, hooks: seq<Hook>, es: multiset<Event>, fs: multiset<Event>)
    requires Did(a, hooks, es) && Did(b, hooks, fs)
    ensures Did(a + b, hooks, es + fs)
  {
    forall e ensures ShellsOf(a + b, e) == Repeat(ShellsOf(hooks, e), (es + fs)[e]) {
      ShellsOfAppend(a, b, e);
      RepeatSum(ShellsOf(hooks, e), es[e], fs[e]);
    }
  }

  lemma PlusNothing(es: multiset<Event>)
    ensures es + multiset{} == es
  {
  }

  lemma DidNothing(hooks: seq<Hook>)
    ensures Did([], hooks, multiset{})
  {
  }

  lemma DidOne(part: seq<Hook>, hooks: seq<Hook>, e: Event)
    requires forall f :: ShellsOf(part, f) == if e == f then ShellsOf(hooks, e) else []
    ensures Did(part, hooks, multiset{e})
  {
    forall f ensures ShellsOf(part, f) == Repeat(ShellsOf(hooks, f), multiset{e}[f]) {
      assert Repeat(ShellsOf(hooks, f), 1) == [] + ShellsOf(hooks, f) by {
        assert Repeat(ShellsOf(hooks, f), 0) == [];
      }
      assert [] + ShellsOf(hooks, f) == ShellsOf(hooks, f);
    }
  }

  class Session {
    const hooks: seq<Hook>
    const strict: bool
    /** Whether setup commands are to succeed before GHCi is started. */
    const hasSetup: bool
    /** How what happens next turns out, and all hook commands run so far. */
    var world: seq<Outcome>
    var ran: seq<Hook>
    var pendingTestHook: bool
    /** Everything that was done, in order. */
    var log: seq<Entry>

    constructor (configured: seq<Hook>, strict: bool, hasSetup: bool, world: seq<Outcome>)
      ensures ShellFirst(hooks) && hooks == ByKind(configured) && ran == [] && log == []
      ensures this.strict == strict && this.hasSetup == hasSetup && this.world == world
    {
      hooks, this.strict, this.hasSetup, this.world := ByKind(configured), strict, hasSetup, world;
      ran, pendingTestHook, log := [], false, [];
      SortedShellFirst(configured);
    }

    /** What the shell hooks since `before` amount to. */
    ghost predicate Since(before: seq<Hook>, es: multiset<Event>)
      reads this
    {
      before <= ran && Did(ran[|before|..], hooks, es)
    }

    method Try() returns (outcome: Outcome)
      modifies `world
      ensures outcome == Head(old(world)) && world == Later(old(world))
      ensures |world| <= |old(world)| && (outcome != Fine ==> |world| < |old(world)|)
    {
      outcome := if world == [] then Fine else world[0];
      world := if world == [] then [] else world[1..];
    }

    method RunList(selected: seq<Hook>, skipShells: bool) returns (ok: bool)
      modifies `world, `ran, `log
      ensures var x := Executed(selected, skipShells, strict, false, old(world));
        ran == old(ran) + x.ran && ok == x.ok && world == x.world && log == old(log) + Entries(x.ran, false)
    {
      hide Entries;
      ghost var x := Executed(selected, skipShells, strict, false, world);
      var ghciFailed := false;
      assert selected[0..] == selected && ran + x.ran == old(ran) + x.ran;
      for i := 0 to |selected|
        invariant var y := Executed(selected[i..], skipShells, strict, ghciFailed, world);
          ran + y.ran == old(ran) + x.ran && y.ok == x.ok && y.world == x.world
          && log + Entries(y.ran, false) == old(log) + Entries(x.ran, false)
      {
        var hook := selected[i];
        ghost var before, sofar := ran, log;
        assert selected[i..][1..] == selected[i + 1..];
        NoEntries(log + [Ran(hook)], false);
        EntriesCons(log, hook, []);
        assert [hook] + [] == [hook];
        if hook.Shell? && !skipShells {
          var outcome := RunHook(hook, false);
          if outcome != Fine && strict { return false; }
          ghost var rest := Executed(selected[i + 1..], skipShells, strict, ghciFailed, world).ran;
          Assoc(before, [hook], rest);
          EntriesCons(sofar, hook, rest);
        } else if hook.Ghci? && !ghciFailed {
          var outcome := RunHook(hook, false);
          if outcome == Breaks { return false; }
          if outcome == Fails && hook.event != Test {
            if strict { return false; }
            ghciFailed := true;
          }
          ghost var rest := Executed(selected[i + 1..], skipShells, strict, ghciFailed, world).ran;
          Assoc(before, [hook], rest);
          EntriesCons(sofar, hook, rest);
        }
      }
      assert ran + [] == ran;
      NoEntries(log, false);
      ok := true;
    }

    /** One hook command. */
    method RunHook(hook: Hook, announcing: bool) returns (outcome: Outcome)
      modifies `world, `ran, `log
      ensures outcome == Head(old(world)) && world == Later(old(world))
      ensures |world| <= |old(world)| && (outcome != Fine ==> |world| < |old(world)|)
      ensures ran == old(ran) + [hook] && log == old(log) + [if announcing then Announced(hook) else Ran(hook)]
    {
      outcome := Try();
      ran, log := ran + [hook], log + [if announcing then Announced(hook) else Ran(hook)];
    }

    /** The shell commands of an event. */
    method RunShellHooks(e: Event, announcing: bool) returns (ok: bool)
      requires ShellFirst(hooks)
      modifies `world, `ran, `log
      ensures old(ran) <= ran
      ensures |world| <= |old(world)|
      ensures !strict ==> ok && Since(old(ran), multiset{e})
      ensures !strict ==> world == Drop(old(world), |ShellsOf(hooks, e)|)
      ensures forall i | |old(ran)| <= i < |ran| :: ran[i].Shell?
      ensures ok ==> ran == old(ran) + ShellsOf(hooks, e) && log == old(log) + Entries(ShellsOf(hooks, e), announcing)
      ensures var phase := if announcing then 3 else PhaseOf(e); Proceeds(old(log), log, phase, phase)
      ensures AllFine(old(world)) ==> ok && AllFine(world)
    {
      hide *;
      var shells := ShellsOf(hooks, e);
      ghost var before := ran;
      ShellsIff(hooks, e);
      ShellsOfShells(hooks, e);
      DropOneMore(world, 0);
      NoEntries(log, announcing);
      assert before + [] == before && shells[..0] == [];
      for i := 0 to |shells|
        invariant ran == before + shells[..i] && |world| <= |old(world)| && world == Drop(old(world), i)
        invariant log == old(log) + Entries(shells[..i], announcing)
      {
        DropOneMore(old(world), i);
        EntriesSnoc(old(log), shells[..i], shells[i], announcing);
        assert shells[..i + 1] == shells[..i] + [shells[i]];
        Assoc(before, shells[..i], [shells[i]]);
        if AllFine(old(world)) {
          FineOn(old(world), i);
          FineOn(world, 0);
        }
        var outcome := RunHook(shells[i], announcing);
        if outcome != Fine && strict {
          HooksProceed(old(log), shells[..i + 1], announcing, e);
          return false;
        }
      }
      assert shells[..|shells|] == shells;
      if AllFine(old(world)) {
        FineOn(old(world), |shells|);
      }
      SinceAll(before, shells, multiset{e});
      HooksProceed(old(log), shells, announcing, e);
      ok := true;
    }

    lemma SinceAll(before: seq<Hook>, part: seq<Hook>, es: multiset<Event>)
      requires Did(part, hooks, es)
      ensures ran == before + part ==> before <= ran && Since(before, es)
    {
      assert (before + part)[|before|..] == part;
    }

    /** All commands of an event; before a reload the shell commands come first in any case. */
    method RunHooks(e: Event) returns (ok: bool)
      requires ShellFirst(hooks)
      modifies `world, `ran, `log
      ensures old(ran) <= ran
      ensures !strict ==> Since(old(ran), multiset{e})
      ensures !strict ==> var x := AllHooks(hooks, e, old(world)); ok == x.ok && world == x.world
      ensures !strict ==> ran == old(ran) + HooksRun(hooks, e, old(world))
      ensures Proceeds(old(log), log, PhaseOf(e), PhaseOf(e))
      ensures AllFine(old(world)) ==> ok && AllFine(world) && RunsAll(hooks, old(log), log, {e}, true)
    {
      hide Did;
      hide Executed;
      hide Drop;
      hide Entries;
      hide AllFine;
      hide ShellFirst;
      hide Proceeds;
      hide RunsAll;
      ghost var before, start := ran, world;
      NothingDone(log, PhaseOf(e));
      var shellFirst := e == Reload(Before);
      if shellFirst {
        ok := RunShellHooks(e, false);
        if !ok { return; }
      }
      ghost var between, was, sofar := ran, world, log;
      var selected := Select(hooks, e);
      ok := RunList(selected, shellFirst);
      ghost var x := Executed(selected, shellFirst, strict, false, was);
      RunsSelected(hooks, old(log), sofar, e, shellFirst, strict, was);
      assert ran[|between|..] == x.ran;
      assert ran[|before|..] == between[|before|..] + ran[|between|..];
      if !strict {
        SelectedRun(hooks, e, shellFirst, was);
        if shellFirst {
          assert between[|before|..] == ShellsOf(hooks, e);
          Assoc(before, ShellsOf(hooks, e), x.ran);
          DidBoth(between[|before|..], ran[|between|..], hooks, multiset{e}, multiset{});
          PlusNothing(multiset{e});
        } else {
          assert [] + x.ran == x.ran;
          assert between[|before|..] == [] && ran[|before|..] == ran[|between|..];
        }
      }
    }

    /** The GHCi commands of an event only. */
    method RunGhciHooks(e: Event) returns (ok: bool)
      modifies `world, `ran, `log
      ensures old(ran) <= ran && Since(old(ran), multiset{})
      ensures var x := GhcisRun(Select(hooks, e), old(world));
        ran == old(ran) + x.ran && ok == x.ok && world == x.world
      ensures e != Test ==>
        GhcisRun(Select(hooks, e), old(world)) == Executed(Select(hooks, e), true, false, false, old(world))
      ensures Proceeds(old(log), log, PhaseOf(e), PhaseOf(e))
      ensures AllFine(old(world)) ==> ok && AllFine(world) && RunsAll(hooks, old(log), log, {e}, false)
    {
      hide *;
      var selected := Select(hooks, e);
      ghost var x := GhcisRun(selected, world);
      GhcisOfEvent(hooks, log, e, world);
      NoEntries(log, false);
      assert selected[0..] == selected;
      for i := 0 to |selected|
        invariant var y := GhcisRun(selected[i..], world);
          ran + y.ran == old(ran) + x.ran && y.ok == x.ok && y.world == x.world
          && log + Entries(y.ran, false) == old(log) + Entries(x.ran, false)
      {
        ghost var before, sofar, was := ran, log, world;
        assert selected[i..][1..] == selected[i + 1..] && selected[i..][0] == selected[i];
        GhcisCase(selected[i..], was);
        if selected[i].Ghci? {
          var outcome := RunHook(selected[i], false);
          ghost var rest := if outcome == Fine then GhcisRun(selected[i + 1..], world).ran else [];
          Assoc(before, [selected[i]], rest);
          EntriesCons(sofar, selected[i], rest);
          if outcome != Fine {
            NoEntries(log, false);
            assert [selected[i]] + [] == [selected[i]] && ran + [] == ran;
            SinceAll(old(ran), x.ran, multiset{});
            return outcome != Breaks;
          }
        }
      }
      GhcisCase([], world);
      assert selected[|selected|..] == [] && ran + [] == ran;
      NoEntries(log, false);
      SinceAll(old(ran), x.ran, multiset{});
      ok := true;
    }

    /** A step that runs no hook. */
    method Step(action: Action) returns (ok: bool)
      modifies `world, `log
      ensures ok == (Head(old(world)) == Fine) && world == Later(old(world))
      ensures |world| <= |old(world)| && (!ok ==> |world| < |old(world)|)
      ensures Proceeds(old(log), log, Phase(Acted(action)), Phase(Acted(action))) && Does(old(log), log, action)
      ensures AllFine(old(world)) ==> ok && AllFine(world)
    {
      var outcome := Act(action);
      ok := outcome == Fine;
    }

    method Act(action: Action) returns (outcome: Outcome)
      modifies `world, `log
      ensures outcome == Head(old(world)) && world == Later(old(world))
      ensures |world| <= |old(world)| && (outcome != Fine ==> |world| < |old(world)|)
      ensures Proceeds(old(log), log, Phase(Acted(action)), Phase(Acted(action))) && Does(old(log), log, action)
      ensures AllFine(old(world)) ==> outcome == Fine && AllFine(world)
    {
      OneDone(log, Acted(action));
      outcome := Try();
      log := log + [Acted(action)];
    }

    /** Something is found out; nothing is done. */
    method Ask() returns (ok: bool)
      modifies `world
      ensures ok == (Head(old(world)) == Fine) && world == Later(old(world))
      ensures |world| <= |old(world)| && (!ok ==> |world| < |old(world)|)
      ensures AllFine(old(world)) ==> ok && AllFine(world)
    {
      var outcome := Try();
      ok := outcome == Fine;
    }

    /** An operation begins. */
    method Begin()
      modifies `log
      ensures log == old(log) + [Begun] && InOrder(log) && Reached(log) == 0
    {
      OneDone(log, Begun);
      log := log + [Begun];
    }

    method RunShellLifecycleEvents(events: seq<Event>) returns (ok: bool)
      requires ShellFirst(hooks) && Rising(events)
      modifies `world, `ran, `log
      ensures old(ran) <= ran
      ensures !strict ==> ok && Since(old(ran), multiset(events)) && world == AfterShells(hooks, events, old(world))
      ensures Proceeds(old(log), log, First(events), Last(events))
      ensures AllFine(old(world)) ==> ok && AllFine(world)
    {
      hide *;
      SinceNow();
      Ends(events);
      NoShellsYet(hooks, world);
      assert events[..0] == [];
      NothingDone(log, First(events));
      ghost var reached := First(events);
      for i := 0 to |events|
        invariant old(ran) <= ran && (!strict ==> Since(old(ran), multiset(events[..i])))
        invariant !strict ==> world == AfterShells(hooks, events[..i], old(world))
        invariant reached == if i == 0 then First(events) else PhaseOf(events[i - 1])
        invariant Proceeds(old(log), log, First(events), reached)
        invariant AllFine(old(world)) ==> AllFine(world)
      {
        ghost var before, sofar := ran, log;
        if !strict {
          SinceMeans(old(ran), multiset(events[..i]));
        }
        ok := RunShellHooks(events[i], false);
        RisesTo(events, i);
        ProceedsBoth(old(log), sofar, log, First(events), reached, PhaseOf(events[i]), PhaseOf(events[i]));
        reached := PhaseOf(events[i]);
        if !ok {
          ProceedsMore(old(log), log, First(events), reached, Last(events));
          return;
        }
        if !strict {
          OneMore(events, i);
          OneMoreShells(hooks, events, i, old(world));
          SinceBoth(old(ran), before, multiset(events[..i]), multiset{events[i]});
        }
      }
      assert events[..|events|] == events;
      ok := true;
    }

    /** The completion hooks of an attempt: with GHCi commands as long as these work. */
    method RunCompletionHooks(events: seq<Event>, succeeded: bool) returns (ok: bool)
      requires ShellFirst(hooks) && Rising(events)
      modifies `world, `ran, `log
      ensures old(ran) <= ran
      ensures !strict ==> Since(old(ran), multiset(events))
      ensures !succeeded ==> forall i | |old(ran)| <= i < |ran| :: ran[i].Shell?
      // After a success the GHCi commands run too, up to the first that cannot or fails.
      ensures !strict ==> var x := CompletionRun(hooks, events, succeeded, old(world));
        ran == old(ran) + x.ran && ok == x.ok && world == x.world
      ensures Proceeds(old(log), log, First(events), Last(events))
      ensures AllFine(old(world)) ==> ok && AllFine(world)
      ensures AllFine(old(world)) && succeeded ==> RunsAll(hooks, old(log), log, SetOf(events), true)
    {
      hide *;
      ok := true;
      var hooksHaveGhci := succeeded;
      SinceNow();
      Ends(events);
      NothingDone(log, First(events));
      RunsNone(hooks, log, true);
      ghost var x, reached := CompletionRun(hooks, events, succeeded, world), First(events);
      NoCompletions(hooks, events, succeeded, world, ran);
      SetOfNone();
      assert events[..0] == [];
      for i := 0 to |events|
        invariant old(ran) <= ran && (!strict ==> Since(old(ran), multiset(events[..i])))
        invariant hooksHaveGhci ==> succeeded
        invariant !succeeded ==> forall i | |old(ran)| <= i < |ran| :: ran[i].Shell?
        invariant !strict ==> var y := CompletionRun(hooks, events[i..], hooksHaveGhci, world);
          ran + y.ran == old(ran) + x.ran && (ok && y.ok) == x.ok && y.world == x.world
        invariant reached == if i == 0 then First(events) else PhaseOf(events[i - 1])
        invariant Proceeds(old(log), log, First(events), reached)
        invariant AllFine(old(world)) ==> ok && AllFine(world) && hooksHaveGhci == succeeded
        invariant AllFine(old(world)) && succeeded ==> RunsAll(hooks, old(log), log, SetOf(events[..i]), true)
      {
        ghost var before, sofar, was := ran, log, world;
        if !strict {
          SinceMeans(old(ran), multiset(events[..i]));
        }
        var result := RunCompletionHook(events[i], hooksHaveGhci);
        CompletionCons(hooks, events, i, hooksHaveGhci, was);
        RisesTo(events, i);
        ghost var phase := PhaseOf(events[i]);
        ProceedsBoth(old(log), sofar, log, First(events), reached, phase, phase);
        if AllFine(old(world)) && succeeded {
          SetOfMore(events, i);
          RunsOn(hooks, old(log), sofar, log, First(events), reached, phase, phase, SetOf(events[..i]), true);
          RunsOn(hooks, old(log), sofar, log, First(events), reached, phase, phase, {events[i]}, true);
          RunsUnion(hooks, old(log), log, SetOf(events[..i]), {events[i]}, true);
        }
        reached := phase;
        if !strict {
          ghost var y := CompletionOne(hooks, events[i], hooksHaveGhci, was);
          Assoc(before, y.ran, CompletionRun(hooks, events[i + 1..], hooksHaveGhci && result, world).ran);
          OneMore(events, i);
          SinceBoth(old(ran), before, multiset(events[..i]), multiset{events[i]});
        }
        if !result {
          hooksHaveGhci, ok := false, false;
        }
      }
      NoCompletions(hooks, events, hooksHaveGhci, world, ran);
      assert events[..|events|] == events;
    }

    /** The completion hooks of one event. */
    method RunCompletionHook(e: Event, ghci: bool) returns (ok: bool)
      requires ShellFirst(hooks)
      modifies `world, `ran, `log
      ensures old(ran) <= ran && (!strict ==> Since(old(ran), multiset{e}))
      ensures !ghci ==> forall i | |old(ran)| <= i < |ran| :: ran[i].Shell?
      ensures !strict ==> var x := CompletionOne(hooks, e, ghci, old(world));
        ran == old(ran) + x.ran && ok == x.ok && world == x.world
      ensures Proceeds(old(log), log, PhaseOf(e), PhaseOf(e))
      ensures AllFine(old(world)) ==> ok && AllFine(world)
      ensures AllFine(old(world)) && ghci ==> RunsAll(hooks, old(log), log, {e}, true)
    {
      hide Did;
      hide ShellFirst;
      hide Proceeds;
      hide Does;
      hide RunsAll;
      hide AllFine;
      hide AllHooks;
      hide HooksRun;
      hide Drop;
      if ghci {
        ok := RunHooks(e);
      } else {
        ok := RunShellHooks(e, false);
      }
    }

    lemma SinceNow()
      ensures Since(ran, multiset([]))
    {
      Unchanged(hooks, ran);
    }

    lemma SinceMeans(a: seq<Hook>, es: multiset<Event>)
      requires Since(a, es)
      ensures a <= ran && Did(ran[|a|..], hooks, es)
    {
    }

    lemma SinceBoth(a: seq<Hook>, b: seq<Hook>, es: multiset<Event>, fs: multiset<Event>)
      requires a <= b <= ran && Did(b[|a|..], hooks, es) && Since(b, fs)
      ensures a <= ran && Since(a, es + fs)
    {
      Chain(hooks, a, b, ran, es, fs);
    }

    /** `finish_compilation`. Whatever fails, every shell hook of the events runs exactly once. */
    method FinishCompilation(events: seq<Event>, ghciAvailable: bool, operationSucceeded: bool, compilerError: bool,
                             runPostActions: bool) returns (ok: bool, ghost tested: bool)
      requires ShellFirst(hooks) && Closing(events)
      modifies this
      ensures old(ran) <= ran
      ensures !strict ==> Since(old(ran), multiset(events) + Tests(tested))
      ensures var succeeded := Head(old(world)) == Fine && ghciAvailable && operationSucceeded && !compilerError;
        && (!succeeded ==> !tested && forall i | |old(ran)| <= i < |ran| :: ran[i].Shell?)
        && (ok && succeeded && (runPostActions || old(pendingTestHook)) ==> tested && !pendingTestHook)
      ensures ok && (!ghciAvailable || !operationSucceeded || compilerError) ==> !pendingTestHook
      ensures ok && ghciAvailable && operationSucceeded && !compilerError && Head(old(world)) != Fine ==>
        pendingTestHook == (runPostActions || old(pendingTestHook))
      // The result is checked and published, the hooks run, and then what follows a success.
      ensures Proceeds(old(log), log, 9, 17) && Does(old(log), log, Validate)
      ensures Head(old(world)) == Fine ==> Does(old(log), log, WriteErrors)
      ensures var succeeded := Head(old(world)) == Fine && ghciAvailable && operationSucceeded && !compilerError;
        ok && succeeded && runPostActions ==> Does(old(log), log, Eval)
      ensures var succeeded := Head(old(world)) == Fine && ghciAvailable && operationSucceeded && !compilerError;
        var onward := if Head(old(world)) == Fine then Later(Later(old(world))) else Later(old(world));
        !strict ==> old(ran) + CompletionRun(hooks, events, succeeded, onward).ran <= ran
      // When nothing fails, it succeeds, and all hooks run.
      ensures AllFine(old(world)) ==>
        AllFine(world) && ((strict ==> ghciAvailable && operationSucceeded && !compilerError) ==> ok)
      ensures AllFine(old(world)) && ghciAvailable && operationSucceeded && !compilerError ==>
        RunsAll(hooks, old(log), log, SetOf(events), true)
        && (runPostActions ==> RunsAll(hooks, old(log), log, {Test}, true))
    {
      hide Did;
      hide ShellFirst;
      hide Proceeds;
      hide Does;
      hide RunsAll;
      hide AllFine;
      hide CompletionRun;
      hide AllHooks;
      hide HooksRun;
      hide Rising;
      hide Closing;
      hide First;
      hide Last;
      hide SetOf;
      hide Head;
      hide Later;
      tested := false;
      var snapshot, errorLogWritten := CheckResult();
      ghost var checked := log;
      var compilationSucceeded := snapshot == Fine && operationSucceeded && ghciAvailable && !compilerError;
      ClosingPhases(events);
      var hooksRan := RunCompletionHooks(events, compilationSucceeded);
      Continue(old(log), checked, log, 10, First(events), Last(events), 13, snapshot == Fine);
      if AllFine(old(world)) && compilationSucceeded {
        RunsOn(hooks, old(log), checked, log, 9, 10, First(events), Last(events), SetOf(events), true);
      }
      ProceedsMore(old(log), log, 9, 13, 17);
      PlusNothing(multiset(events));
      ghost var before, closed := ran, log;
      if !errorLogWritten || !hooksRan { return false, tested; }
      if strict {
        ok := Step(CheckCompiled);
        Continue(old(log), closed, log, 13, 14, 14, 14, snapshot == Fine);
        if AllFine(old(world)) && compilationSucceeded {
          RunsOn(hooks, old(log), closed, log, 9, 13, 14, 14, SetOf(events), true);
        }
        ProceedsMore(old(log), log, 9, 14, 17);
        if !compilationSucceeded || !ok { return false, tested; }
      } else {
        ProceedsMore(old(log), log, 9, 13, 14);
      }
      if !operationSucceeded || !ghciAvailable || compilerError {
        pendingTestHook := false;
      } else if snapshot != Fine && runPostActions {
        pendingTestHook := true;
      }
      if compilationSucceeded {
        ghost var done := log;
        ok, tested := AfterSuccess(runPostActions);
        Continue(old(log), done, log, 14, 15, 17, 17, true);
        if AllFine(old(world)) {
          RunsOn(hooks, old(log), done, log, 9, 14, 15, 17, SetOf(events), true);
          if runPostActions {
            RunsOn(hooks, old(log), done, log, 9, 14, 15, 17, {Test}, true);
          }
        }
        if ok && runPostActions {
          DoesOn(old(log), done, log, 9, 14, 15, 17, Eval);
        }
        if !strict {
          Chain(hooks, old(ran), before, ran, multiset(events), Tests(tested));
        }
        return;
      }
      ok := true;
    }

    /** The result is checked against the newest snapshot and, if it is current, published. */
    method CheckResult() returns (snapshot: Outcome, written: bool)
      modifies `world, `log
      ensures snapshot == Head(old(world))
      ensures world == if snapshot == Fine then Later(Later(old(world))) else Later(old(world))
      ensures written == if snapshot == Fine then Head(Later(old(world))) == Fine else snapshot != Breaks
      ensures Proceeds(old(log), log, 9, 10) && Does(old(log), log, Validate)
      ensures snapshot == Fine ==> Does(old(log), log, WriteErrors)
      ensures AllFine(old(world)) ==> snapshot == Fine && written && AllFine(world)
    {
      hide Proceeds;
      hide Does;
      hide AllFine;
      snapshot := Act(Validate);
      written := snapshot != Breaks;
      ghost var checked := log;
      ProceedsMore(old(log), log, 9, 9, 10);
      if snapshot == Fine {
        written := Step(WriteErrors);
        ProceedsBoth(old(log), checked, log, 9, 9, 10, 10);
        DoesOn(old(log), checked, log, 9, 9, 10, 10, Validate);
        DoesOn(old(log), checked, log, 9, 9, 10, 10, WriteErrors);
      }
    }

    /** Evaluation commands and tests, after a success. */
    method AfterSuccess(runPostActions: bool) returns (ok: bool, ghost tested: bool)
      requires ShellFirst(hooks)
      modifies this
      ensures old(ran) <= ran && (!strict ==> Since(old(ran), Tests(tested)))
      ensures ok && (runPostActions || old(pendingTestHook)) ==> tested && !pendingTestHook
      ensures Proceeds(old(log), log, 15, 17)
      ensures ok && runPostActions ==> Does(old(log), log, Eval)
      ensures AllFine(old(world)) ==> ok && AllFine(world)
      ensures AllFine(old(world)) && runPostActions ==> RunsAll(hooks, old(log), log, {Test}, true)
    {
      hide Did;
      hide ShellFirst;
      hide Proceeds;
      hide Does;
      hide RunsAll;
      hide AllFine;
      hide AllHooks;
      hide HooksRun;
      Unchanged(hooks, ran);
      NoTests();
      tested := false;
      NothingDone(log, 15);
      ProceedsMore(log, log, 15, 15, 17);
      if runPostActions {
        ok := Step(Eval);
        ProceedsMore(old(log), log, 15, 15, 17);
        if !ok { return; }
      }
      ghost var sofar := log;
      if runPostActions || pendingTestHook {
        ok := RunHooks(Test);
        ProceedsBoth(old(log), sofar, log, 15, 15, 16, 16);
        if runPostActions {
          DoesOn(old(log), sofar, log, 15, 15, 16, 16, Eval);
        }
        if AllFine(old(world)) {
          RunsOn(hooks, old(log), sofar, log, 15, 15, 16, 16, {Test}, true);
        }
        ProceedsMore(old(log), log, 15, 16, 17);
        tested := true;
        if !ok { return; }
        pendingTestHook := false;
      } else {
        ProceedsMore(old(log), log, 15, 15, 16);
      }
      sofar := log;
      if strict && runPostActions {
        ok := Step(CheckTests);
        ProceedsBoth(old(log), sofar, log, 15, 16, 17, 17);
        DoesOn(old(log), sofar, log, 15, 16, 17, 17, Eval);
        if AllFine(old(world)) {
          RunsOn(hooks, old(log), sofar, log, 15, 16, 17, 17, {Test}, true);
        }
        if !ok { return; }
      }
      ok := true;
    }

    /** A result has been checked, and perhaps published; something more is done. */
    lemma Continue(a: seq<Entry>, b: seq<Entry>, c: seq<Entry>, mid: nat, mid': nat, hi: nat, hi': nat, published: bool)
      requires Proceeds(a, b, 9, mid) && Proceeds(b, c, mid', hi) && mid <= mid' && hi <= hi'
      requires Does(a, b, Validate) && (published ==> Does(a, b, WriteErrors))
      ensures Proceeds(a, c, 9, hi') && Does(a, c, Validate) && (published ==> Does(a, c, WriteErrors))
    {
      ProceedsBoth(a, b, c, 9, mid, mid', hi);
      ProceedsMore(a, c, 9, hi, hi');
      DoesOn(a, b, c, 9, mid, mid', hi, Validate);
      if published {
        DoesOn(a, b, c, 9, mid, mid', hi, WriteErrors);
      }
    }

    /** A fresh session: the setup commands until they succeed, the before-startup hooks, the process.
        Every failed setup attempt whose failure can be written publishes its completion. */
    method New() returns (ok: bool, ghost setups: nat, ghost started: bool)
      requires ShellFirst(hooks)
      modifies `world, `ran, `log
      ensures old(ran) <= ran && (ok ==> started) && (!hasSetup ==> setups == 0)
      ensures !strict ==> Since(old(ran), Setups(setups, started))
      ensures !strict ==> var x := SetupOf(hooks, hasSetup, old(world));
        setups == x.failed && started == x.ready
        && (ok <==> x.ready && Head(Drop(x.world, |ShellsOf(hooks, Startup(Before))|)) == Fine)
      // Setup, then the before-startup hooks, then the process.
      ensures Proceeds(old(log), log, 3, 5)
      ensures ok ==> Does(old(log), log, Spawn) && (hasSetup ==> Does(old(log), log, Setup))
      ensures AllFine(old(world)) ==> ok && AllFine(world)
    {
      hide Did;
      hide ShellFirst;
      hide Proceeds;
      hide Does;
      hide RunsAll;
      hide AllFine;
      hide Drop;
      hide Head;
      hide Later;
      hide Setups;
      hide SetupOf;
      started := false;
      ok, setups := RunSetup();
      ProceedsMore(old(log), log, 3, 3, 5);
      if !ok { return; }
      ghost var before, sofar := ran, log;
      ok := RunShellHooks(Startup(Before), false);
      ProceedsBoth(old(log), sofar, log, 3, 3, 4, 4);
      ProceedsMore(old(log), log, 3, 4, 5);
      if hasSetup {
        DoesOn(old(log), sofar, log, 3, 3, 4, 4, Setup);
      }
      if !ok { return; }
      started := true;
      if !strict {
        Chain(hooks, old(ran), before, ran, Setups(setups, false), multiset{Startup(Before)});
        StartedAfter(setups);
      }
      sofar := log;
      ok := Step(Spawn);
      ProceedsBoth(old(log), sofar, log, 3, 4, 5, 5);
      DoesOn(old(log), sofar, log, 3, 4, 5, 5, Spawn);
      if hasSetup {
        DoesOn(old(log), sofar, log, 3, 4, 5, 5, Setup);
      }
    }

    /** The setup commands, until they succeed; each failure that can be written is announced. */
    method RunSetup() returns (ok: bool, ghost setups: nat)
      requires ShellFirst(hooks)
      modifies `world, `ran, `log
      ensures old(ran) <= ran && (!hasSetup ==> setups == 0 && ok && world == old(world))
      ensures !strict ==> Since(old(ran), Setups(setups, false))
      ensures !strict ==> var x := SetupOf(hooks, hasSetup, old(world));
        setups == x.failed && ok == x.ready && (ok ==> world == x.world)
      ensures Proceeds(old(log), log, 3, 3)
      ensures ok && hasSetup ==> Does(old(log), log, Setup)
      ensures AllFine(old(world)) ==> ok && AllFine(world)
    {
      hide Did;
      hide ShellFirst;
      hide Proceeds;
      hide Does;
      hide RunsAll;
      hide AllFine;
      hide Drop;
      hide Head;
      hide Later;
      hide Setups;
      setups := 0;
      ghost var n := |ShellsOf(hooks, Reload(After))|;
      Unchanged(hooks, ran);
      NoSetups();
      NothingDone(log, 3);
      ok := !hasSetup;
      while !ok
        invariant old(ran) <= ran && (!hasSetup ==> setups == 0 && ok && world == old(world))
        invariant !strict ==> Since(old(ran), Setups(setups, false))
        invariant !strict && hasSetup ==> var x := SetupAttempts(n, old(world));
          if ok then x == Attempts(setups, true, world)
          else x == SetupAttempts(n, world).(failed := setups + SetupAttempts(n, world).failed)
        invariant Proceeds(old(log), log, 3, 3)
        invariant ok && hasSetup ==> Does(old(log), log, Setup)
        invariant AllFine(old(world)) ==> AllFine(world)
        decreases |world|, !ok
      {
        ghost var sofar := log;
        ok := Step(Setup);
        ProceedsBoth(old(log), sofar, log, 3, 3, 3, 3);
        DoesOn(old(log), sofar, log, 3, 3, 3, 3, Setup);
        if !ok {
          sofar := log;
          var published := Step(ReportSetup);
          ProceedsBoth(old(log), sofar, log, 3, 3, 3, 3);
          if !published { return; }
          ghost var before := ran;
          sofar := log;
          var notified := RunShellHooks(Reload(After), true);
          ProceedsBoth(old(log), sofar, log, 3, 3, 3, 3);
          if !notified || strict { return; }
          Chain(hooks, old(ran), before, ran, Setups(setups, false), multiset{Reload(After)});
          OneMoreSetup(setups);
          setups := setups + 1;
          sofar := log;
          var changed := Step(AwaitChange);
          ProceedsBoth(old(log), sofar, log, 3, 3, 3, 3);
          if !changed { return; }
        }
      }
    }

    method Initialize(events: seq<Event>) returns (ok: bool, ghost es: multiset<Event>)
      requires ShellFirst(hooks) && Closing(events)
      modifies this
      ensures old(ran) <= ran && (!strict ==> Since(old(ran), es))
      ensures forall e :: es[e] == multiset(events)[e] || (e == Test && es[e] == multiset(events)[e] + 1)
      ensures Proceeds(old(log), log, 8, 17) && Does(old(log), log, Boot)
      ensures ok ==> Head(old(world)) == Fine
      ensures AllFine(old(world)) ==> ok && AllFine(world) && RunsAll(hooks, old(log), log, SetOf(events), true)
    {
      hide Did;
      hide ShellFirst;
      hide Proceeds;
      hide Does;
      hide RunsAll;
      hide AllFine;
      hide Closing;
      hide SetOf;
      hide CompletionRun;
      var result := Step(Boot);
      ghost var sofar := log;
      var compiled := Ask();
      ghost var tested;
      ok, tested := FinishCompilation(events, result, result, !result || !compiled, true);
      ProceedsBoth(old(log), sofar, log, 8, 8, 9, 17);
      DoesOn(old(log), sofar, log, 8, 8, 9, 17, Boot);
      if AllFine(old(world)) {
        RunsOn(hooks, old(log), sofar, log, 8, 8, 9, 17, SetOf(events), true);
      }
      es := multiset(events) + Tests(tested);
      ok := ok && result;
    }

    /** Stop the old process, start and initialize a new one: whatever fails, the completion hooks run
        once, and those of a reload once more for each failed setup attempt. */
    method RestartInner(events: seq<Event>, stopOldProcess: bool)
      returns (ok: bool, ghost es: multiset<Event>, ghost setups: nat)
      requires ShellFirst(hooks) && Closing(events)
      modifies this
      ensures old(ran) <= ran && (!strict ==> Since(old(ran), es)) && (!hasSetup ==> setups == 0)
      ensures !strict ==> setups == ReplacementSetup(hooks, hasSetup, stopOldProcess, old(world))
      ensures forall e | e != Test && e != Startup(Before) ::
        es[e] == multiset(events)[e] + if e == Reload(After) then setups else 0
      // The old process is stopped, the new one started and booted, in this order.
      ensures Proceeds(old(log), log, 2, 17) && (ok ==> Replaced(old(log), log, stopOldProcess))
      ensures ok && stopOldProcess ==> Head(old(world)) == Fine
      ensures AllFine(old(world)) ==> ok && AllFine(world) && RunsAll(hooks, old(log), log, SetOf(events), true)
    {
      hide Did;
      hide ShellFirst;
      hide Proceeds;
      hide Does;
      hide RunsAll;
      hide AllFine;
      hide SetupOf;
      hide Head;
      hide Later;
      hide SetOf;
      hide CompletionRun;
      hide Replaced;
      ClosingPhases(events);
      hide Closing;
      setups := 0;
      NothingDone(log, 2);
      if stopOldProcess {
        ok := Step(Stop);
        if !ok {
          ghost var stopped := log;
          var ignored := RunShellLifecycleEvents(events);
          ProceedsBoth(old(log), stopped, log, 2, 2, First(events), Last(events));
          ProceedsMore(old(log), log, 2, Last(events), 17);
          es := multiset(events);
          return;
        }
      }
      ghost var started;
      ghost var stopped := log;
      ok, setups, started := New();
      ProceedsBoth(old(log), stopped, log, 2, 2, 3, 5);
      ghost var before, sofar := ran, log;
      if !ok {
        ghost var tested;
        ok, tested := FinishCompilation(events, false, false, true, true);
        ProceedsBoth(old(log), sofar, log, 2, 5, 9, 17);
        es := Setups(setups, started) + (multiset(events) + Tests(tested));
        if !strict {
          Chain(hooks, old(ran), before, ran, Setups(setups, started), multiset(events) + Tests(tested));
        }
        return false, es, setups;
      }
      pendingTestHook := false;
      ghost var fs;
      ok, fs := Initialize(events);
      IsReplaced(old(log), stopped, sofar, log, stopOldProcess);
      if AllFine(old(world)) {
        RunsOn(hooks, old(log), sofar, log, 2, 5, 8, 17, SetOf(events), true);
      }
      es := Setups(setups, started) + fs;
      if !strict {
        Chain(hooks, old(ran), before, ran, Setups(setups, started), fs);
      }
    }

    lemma IsReplaced(a: seq<Entry>, b: seq<Entry>, c: seq<Entry>, d: seq<Entry>, stopped: bool)
      requires Proceeds(a, b, 2, 2) && Proceeds(b, c, 3, 5) && Proceeds(c, d, 8, 17)
      requires (stopped ==> Does(a, b, Stop)) && Does(b, c, Spawn) && Does(c, d, Boot)
      ensures Proceeds(a, d, 2, 17) && Replaced(a, d, stopped)
    {
      hide Proceeds;
      hide Does;
      ProceedsBoth(a, b, c, 2, 2, 3, 5);
      ProceedsBoth(a, c, d, 2, 5, 8, 17);
      DoesOn(a, b, c, 2, 2, 3, 5, Spawn);
      DoesOn(a, c, d, 2, 5, 8, 17, Spawn);
      DoesOn(a, c, d, 2, 5, 8, 17, Boot);
      if stopped {
        DoesOn(a, b, c, 2, 2, 3, 5, Stop);
        DoesOn(a, c, d, 2, 5, 8, 17, Stop);
      }
    }

    /** A full restart from its before-restart hooks on. */
    method RestartProper() returns (ok: bool, ghost es: multiset<Event>, ghost setups: nat)
      requires ShellFirst(hooks)
      modifies this
      ensures old(ran) <= ran && (!strict ==> Since(old(ran), es)) && (!hasSetup ==> setups == 0)
      ensures es[Reload(Before)] == 0 && es[Reload(After)] == 1 + setups
      ensures es[Restart(After)] == es[Restart(Before)] == 1
      ensures !strict ==> setups == ProperSetup(hooks, hasSetup, old(world))
      ensures Proceeds(old(log), log, 1, 17) && (ok ==> Replaced(old(log), log, true))
      ensures AllFine(old(world)) ==> ok && AllFine(world)
      ensures AllFine(old(world)) ==>
        RunsAll(hooks, old(log), log, {Restart(Before)}, true) && RunsAll(hooks, old(log), log, SetOf(RESTARTED), true)
    {
      hide Did;
      hide ShellFirst;
      hide Proceeds;
      hide Does;
      hide RunsAll;
      hide AllFine;
      hide AllHooks;
      hide HooksRun;
      hide ReplacementSetup;
      hide Replaced;
      RestartedCloses();
      RestartedBag();
      hide RESTARTED;
      hide First;
      hide Last;
      hide Closing;
      hide Rising;
      hide SetOf;
      setups := 0;
      ok := RunHooks(Restart(Before));
      ghost var before, fs, sofar := ran, multiset{}, log;
      if !ok {
        var ignored := RunShellLifecycleEvents([Restart(After), Reload(After)]);
        ProceedsBoth(old(log), sofar, log, 1, 1, 12, 13);
        ProceedsMore(old(log), log, 1, 13, 17);
        fs := multiset([Restart(After), Reload(After)]);
      } else {
        ok, fs, setups := RestartInner(RESTARTED, true);
        ProceedsBoth(old(log), sofar, log, 1, 1, 2, 17);
        if ok {
          ReplacedOn(old(log), sofar, log, 1, 1, 2, 17, true);
        }
        if AllFine(old(world)) {
          RunsOn(hooks, old(log), sofar, log, 1, 1, 2, 17, {Restart(Before)}, true);
          RunsOn(hooks, old(log), sofar, log, 1, 1, 2, 17, SetOf(RESTARTED), true);
        }
      }
      es := multiset{Restart(Before)} + fs;
      if !strict {
        Chain(hooks, old(ran), before, ran, multiset{Restart(Before)}, fs);
      }
    }

    /** A full restart, which is also a reload attempt. Its hooks balance on every outcome. */
    method RestartSession(beforeReloadShellRan: bool) returns (ok: bool, ghost es: multiset<Event>, ghost setups: nat)
      requires ShellFirst(hooks)
      modifies this
      ensures old(ran) <= ran && (!strict ==> Since(old(ran), es)) && (!hasSetup ==> setups == 0)
      ensures es[Reload(Before)] == (if beforeReloadShellRan then 0 else 1) && es[Reload(After)] == 1 + setups
      ensures es[Restart(After)] == es[Restart(Before)] <= 1
      ensures !strict ==> var shells := if beforeReloadShellRan then 0 else |ShellsOf(hooks, Reload(Before))|;
        setups == RestartSetup(hooks, hasSetup, Drop(old(world), shells))
      ensures Proceeds(old(log), log, 0, 17) && (ok ==> Replaced(old(log), log, true))
      ensures AllFine(old(world)) ==> ok && AllFine(world)
      ensures AllFine(old(world)) ==>
        RunsAll(hooks, old(log), log, {Reload(Before)}, !beforeReloadShellRan)
        && RunsAll(hooks, old(log), log, {Restart(Before)}, true)
        && RunsAll(hooks, old(log), log, SetOf(RESTARTED), true)
    {
      NoneDropped(world);
      hide AllHooks;
      hide RestartSetup;
      RestartSetupIs(hooks, hasSetup, beforeReloadShellRan, world);
      hide Did;
      hide ShellFirst;
      hide Proceeds;
      hide Does;
      hide RunsAll;
      hide AllFine;
      hide Executed;
      hide GhcisRun;
      hide Drop;
      hide ProperSetup;
      hide HooksRun;
      hide Replaced;
      RestartedCloses();
      RestartedBag();
      hide RESTARTED;
      hide First;
      hide Last;
      hide Closing;
      hide Rising;
      hide SetOf;
      setups := 0;
      if beforeReloadShellRan {
        ok := RunGhciHooks(Reload(Before));
      } else {
        ok := RunHooks(Reload(Before));
      }
      ghost var first: multiset<Event> := if beforeReloadShellRan then multiset{} else multiset{Reload(Before)};
      ghost var before, fs, sofar := ran, multiset{}, log;
      if !ok {
        var ignored := RunShellLifecycleEvents([Reload(After)]);
        ProceedsBoth(old(log), sofar, log, 0, 0, 13, 13);
        ProceedsMore(old(log), log, 0, 13, 17);
        fs := multiset([Reload(After)]);
      } else {
        ok, fs, setups := RestartProper();
        ProceedsBoth(old(log), sofar, log, 0, 0, 1, 17);
        if ok {
          ReplacedOn(old(log), sofar, log, 0, 0, 1, 17, true);
        }
        if AllFine(old(world)) {
          RestartRuns(hooks, old(log), sofar, log, !beforeReloadShellRan);
        }
      }
      es := first + fs;
      if !strict {
        Chain(hooks, old(ran), before, ran, first, fs);
      }
    }

    /** A replacement for a command that exited: only shell hooks come before it. */
    method StartupRestart() returns (ok: bool, ghost es: multiset<Event>, ghost setups: nat)
      requires ShellFirst(hooks)
      modifies this
      ensures old(ran) <= ran && (!strict ==> Since(old(ran), es)) && (!hasSetup ==> setups == 0)
      ensures !strict ==> es[Reload(Before)] == es[Restart(Before)] == es[Restart(After)] == 1
      ensures !strict ==> es[Reload(After)] == 1 + setups
      ensures !strict ==>
        var world := AfterShells(hooks, [Reload(Before), Restart(Before)], old(world));
        setups == ReplacementSetup(hooks, hasSetup, false, world)
      ensures Proceeds(old(log), log, 0, 17) && (ok ==> Replaced(old(log), log, false))
      ensures AllFine(old(world)) ==> ok && AllFine(world) && RunsAll(hooks, old(log), log, SetOf(RESTARTED), true)
    {
      hide Did;
      hide ShellFirst;
      hide Proceeds;
      hide Does;
      hide RunsAll;
      hide AllFine;
      hide ReplacementSetup;
      hide AfterShells;
      hide Replaced;
      RestartedCloses();
      RestartedBag();
      hide RESTARTED;
      hide First;
      hide Last;
      hide Closing;
      hide Rising;
      hide SetOf;
      setups, es := 0, multiset{};
      ok := RunShellLifecycleEvents([Reload(Before), Restart(Before)]);
      ProceedsMore(old(log), log, 0, 1, 17);
      if !ok { return; }
      ghost var before, fs, sofar := ran, multiset{}, log;
      ok, fs, setups := RestartInner(RESTARTED, false);
      ProceedsBoth(old(log), sofar, log, 0, 1, 2, 17);
      if ok {
        ReplacedOn(old(log), sofar, log, 0, 1, 2, 17, false);
      }
      if AllFine(old(world)) {
        RunsOn(hooks, old(log), sofar, log, 0, 1, 2, 17, SetOf(RESTARTED), true);
      }
      es := multiset([Reload(Before), Restart(Before)]) + fs;
      if !strict {
        Chain(hooks, old(ran), before, ran, multiset([Reload(Before), Restart(Before)]), fs);
      }
    }

    /** After a recovery kill no hook precedes the replacement: after-restart hooks run unpaired. */
    method RestartAfterRecoveryKill() returns (ok: bool, ghost es: multiset<Event>, ghost setups: nat)
      requires ShellFirst(hooks)
      modifies this
      ensures old(ran) <= ran && (!strict ==> Since(old(ran), es)) && (!hasSetup ==> setups == 0)
      ensures es[Restart(Before)] == 0 && es[Restart(After)] == 1 && es[Reload(After)] == setups
      ensures !strict ==> setups == SetupOf(hooks, hasSetup, old(world)).failed
      ensures Proceeds(old(log), log, 2, 17) && (ok ==> Replaced(old(log), log, false))
      ensures AllFine(old(world)) ==>
        ok && AllFine(world) && RunsAll(hooks, old(log), log, {Startup(After), Restart(After)}, true)
    {
      hide Did;
      hide ShellFirst;
      hide Proceeds;
      hide Does;
      hide RunsAll;
      hide AllFine;
      hide Replaced;
      RestartedCloses();
      RestartedSets();
      hide Closing;
      hide SetOf;
      ok, es, setups := RestartInner([Startup(After), Restart(After)], false);
    }

    /** What the events call for is done; the steps in between run no hooks but may fail. */
    method Modify(removes: bool, adds: bool, reloads: bool) returns (ok: bool)
      requires ShellFirst(hooks)
      modifies `world, `ran, `log
      ensures old(ran) <= ran && Since(old(ran), multiset{})
      ensures Proceeds(old(log), log, 0, 8)
      ensures ok ==> Modified(old(log), log, removes, adds, reloads)
      ensures ok <==> ModifySucceeds(hooks, removes, adds, reloads, old(world))
      ensures AllFine(old(world)) ==> ok && AllFine(world) && RunsAll(hooks, old(log), log, {Reload(Before)}, false)
    {
      hide Did;
      hide ShellFirst;
      hide Proceeds;
      hide Does;
      hide RunsAll;
      hide AllFine;
      hide GhcisRun;
      hide FineFor;
      hide Head;
      hide Later;
      hide Executed;
      Unchanged(hooks, ran);
      NothingDone(log, 0);
      if adds {
        ok := Step(Prepare);
        ProceedsMore(old(log), log, 0, 0, 8);
        if !ok { return; }
      }
      ghost var sofar := log;
      ok := RunGhciHooks(Reload(Before));
      ProceedsBoth(old(log), sofar, log, 0, 0, 0, 0);
      if AllFine(old(world)) {
        RunsOn(hooks, old(log), sofar, log, 0, 0, 0, 0, {Reload(Before)}, false);
      }
      ProceedsMore(old(log), log, 0, 0, 8);
      if !ok { return; }
      sofar := log;
      ok := Tell(removes, adds, reloads);
      ProceedsBoth(old(log), sofar, log, 0, 0, 6, 8);
      if AllFine(old(world)) {
        RunsOn(hooks, old(log), sofar, log, 0, 0, 6, 8, {Reload(Before)}, false);
      }
      if ok {
        ModifiedOn(old(log), sofar, log, 0, 0, 6, 8, removes, adds, reloads);
      }
    }

    /** `:unadd`, `:add` and `:reload`, as far as they are called for. */
    method Tell(removes: bool, adds: bool, reloads: bool) returns (ok: bool)
      modifies `world, `log
      ensures Proceeds(old(log), log, 6, 8) && (ok ==> Modified(old(log), log, removes, adds, reloads))
      ensures ok <==> FineFor(Called(removes, adds, reloads), old(world))
      ensures AllFine(old(world)) ==> ok && AllFine(world)
    {
      hide Did;
      hide ShellFirst;
      hide Proceeds;
      hide Does;
      hide RunsAll;
      hide AllFine;
      hide FineFor;
      hide Head;
      hide Later;
      FineForMore(2, world);
      FineForMore(1, world);
      FineForMore(0, world);
      FineForMore(1, Later(world));
      FineForMore(0, Later(world));
      FineForMore(0, Later(Later(world)));
      FineForMore(0, Later(Later(Later(world))));
      ok := true;
      NothingDone(log, 6);
      if removes {
        ok := Step(Unadd);
        ProceedsMore(old(log), log, 6, 6, 8);
        if !ok { return; }
      }
      ProceedsMore(old(log), log, 6, 6, 7);
      if adds {
        ghost var sofar := log;
        ok := Step(Add);
        ProceedsBoth(old(log), sofar, log, 6, 6, 7, 7);
        DoesOn(old(log), sofar, log, 6, 6, 7, 7, Add);
        ModifiedOn(old(log), sofar, log, 6, 6, 7, 7, removes, false, false);
        ProceedsMore(old(log), log, 6, 7, 8);
        if !ok { return; }
      }
      ProceedsMore(old(log), log, 6, 7, 8);
      if reloads {
        ghost var sofar := log;
        ok := Step(Load);
        ProceedsBoth(old(log), sofar, log, 6, 7, 8, 8);
        DoesOn(old(log), sofar, log, 6, 7, 8, 8, Load);
        ModifiedOn(old(log), sofar, log, 6, 7, 8, 8, removes, adds, false);
      }
    }

    /** `reload`, whose before-reload shell hooks the manager has run. Once the events are classified,
        the after-reload hooks run on every outcome; if they cannot be, none does. */
    method ReloadSession(plan: Plan) returns (ok: bool, ghost es: multiset<Event>, ghost setups: nat)
      requires ShellFirst(hooks)
      modifies this
      ensures old(ran) <= ran && (!strict ==> Since(old(ran), es)) && (!hasSetup ==> setups == 0)
      ensures es[Reload(Before)] == 0 && es[Reload(After)] == if plan == Unclassified then 0 else 1 + setups
      ensures es[Restart(After)] == es[Restart(Before)] <= (if plan == NeedsRestart then 1 else 0)
      ensures plan != NeedsRestart ==> setups == 0
      ensures !strict && plan == NeedsRestart ==> setups == RestartSetup(hooks, hasSetup, old(world))
      // What the events call for is done between the before- and the after-hooks, and its result checked.
      ensures Proceeds(old(log), log, 0, 17) && (ok ==> Reloaded(old(log), log, plan))
      ensures plan != Unclassified && plan != NeedsRestart ==> Does(old(log), log, Validate)
      ensures ok && plan.NeedsModify? ==> ModifySucceeds(hooks, plan.removes, plan.adds, plan.reloads, old(world))
      // When nothing fails, it succeeds, and the GHCi commands of the hooks run too.
      ensures AllFine(old(world)) && plan != Unclassified ==>
        ok && AllFine(world) && RunsAll(hooks, old(log), log, {Reload(After)}, true)
        && (plan != NothingToDo ==> RunsAll(hooks, old(log), log, {Reload(Before)}, false))
    {
      hide Did;
      hide ShellFirst;
      hide Proceeds;
      hide Does;
      hide RunsAll;
      hide AllFine;
      hide Drop;
      hide ModifySucceeds;
      hide RestartSetup;
      hide Replaced;
      hide Modified;
      hide CompletionRun;
      RestartedCloses();
      RestartedSets();
      hide RESTARTED;
      hide First;
      hide Last;
      hide Closing;
      hide SetOf;
      setups := 0;
      Unchanged(hooks, ran);
      NothingDone(log, 0);
      ProceedsMore(log, log, 0, 0, 9);
      ProceedsMore(log, log, 0, 0, 17);
      NoneDropped(world);
      ghost var tested;
      match plan
      case Unclassified => ok, es := false, multiset([]);
      case NeedsRestart =>
        ok, es, setups := RestartSession(true);
        if AllFine(old(world)) {
          RunsSome(hooks, old(log), log, SetOf(RESTARTED), {Reload(After)}, true);
        }
      case NothingToDo =>
        ok, tested := FinishCompilation([Reload(After)], true, true, false, false);
        ProceedsBoth(old(log), old(log), log, 0, 9, 9, 17);
        es := multiset([Reload(After)]) + Tests(tested);
      case NeedsModify(removes, adds, reloads) =>
        var result := Modify(removes, adds, reloads);
        var available := true;
        var compiled := Ask();
        if !result {
          available := Ask();
        }
        ghost var before, sofar := ran, log;
        ok, tested := FinishCompilation([Reload(After)], available, result, !compiled, true);
        ProceedsBoth(old(log), sofar, log, 0, 8, 9, 17);
        DoesOn(old(log), sofar, log, 0, 8, 9, 17, Validate);
        if result {
          ModifiedOn(old(log), sofar, log, 0, 8, 9, 17, removes, adds, reloads);
        }
        if AllFine(old(world)) {
          RunsOn(hooks, old(log), sofar, log, 0, 8, 9, 17, {Reload(Before)}, false);
          RunsOn(hooks, old(log), sofar, log, 0, 8, 9, 17, {Reload(After)}, true);
        }
        es := multiset{} + (multiset([Reload(After)]) + Tests(tested));
        if !strict {
          Chain(hooks, old(ran), before, ran, multiset{}, multiset([Reload(After)]) + Tests(tested));
        }
        ok := ok && result;
    }

    /** A dispatched event: the manager's before-reload shell hooks, then the reload. */
    method DispatchReload(plan: Plan) returns (ok: bool, ghost es: multiset<Event>, ghost setups: nat)
      requires ShellFirst(hooks)
      modifies this
      ensures old(ran) <= ran && (!strict ==> Since(old(ran), es)) && (!hasSetup ==> setups == 0)
      ensures !strict ==> es[Reload(Before)] == 1 && es[Reload(After)] == if plan == Unclassified then 0 else 1 + setups
      ensures es[Restart(After)] == es[Restart(Before)]
      ensures !strict ==>
        setups == if plan == NeedsRestart
                  then RestartSetup(hooks, hasSetup, Drop(old(world), |ShellsOf(hooks, Reload(Before))|)) else 0
      // An operation of its own, in order: the plan is carried out between the hooks, all of which run when
      // nothing fails.
      ensures InOrder(log) && (ok ==> Reloaded(old(log), log, plan))
      ensures AllFine(old(world)) && plan != Unclassified ==>
        ok && AllFine(world) && RunsAll(hooks, old(log), log, {Reload(After)}, true)
        && (plan != NothingToDo ==> RunsAll(hooks, old(log), log, {Reload(Before)}, true))
    {
      hide Did;
      hide ShellFirst;
      hide Proceeds;
      hide Does;
      hide RunsAll;
      hide AllFine;
      hide RestartSetup;
      hide Drop;
      hide Reloaded;
      hide Entries;
      hide InOrder;
      hide Reached;
      setups, es := 0, multiset{};
      Begin();
      ghost var begun := log;
      ok := RunShellHooks(Reload(Before), false);
      StillInOrder(begun, log, 0, 0);
      if !ok { return; }
      ghost var before, fs, sofar := ran, multiset{}, log;
      ok, fs, setups := ReloadSession(plan);
      ProceedsBoth(begun, sofar, log, 0, 0, 0, 17);
      StillInOrder(begun, log, 0, 17);
      AfterBegin(old(log), begun, sofar, log, plan, ok, AllFine(old(world)) && plan != Unclassified);
      es := multiset{Reload(Before)} + fs;
      if !strict {
        Chain(hooks, old(ran), before, ran, multiset{Reload(Before)}, fs);
      }
    }

    lemma StillInOrder(a: seq<Entry>, b: seq<Entry>, lo: nat, hi: nat)
      requires Proceeds(a, b, lo, hi) && InOrder(a) && Reached(a) <= lo
      ensures InOrder(b)
    {
    }

    lemma AfterBegin(a: seq<Entry>, begun: seq<Entry>, sofar: seq<Entry>, b: seq<Entry>, plan: Plan, ok: bool,
                     all: bool)
      requires begun == a + [Begun] && Proceeds(begun, sofar, 0, 0) && Proceeds(sofar, b, 0, 17)
      requires ok ==> Reloaded(sofar, b, plan)
      requires all ==> sofar == begun + Entries(ShellsOf(hooks, Reload(Before)), false)
      requires all ==> RunsAll(hooks, sofar, b, {Reload(After)}, true)
      requires all && plan != NothingToDo ==> RunsAll(hooks, sofar, b, {Reload(Before)}, false)
      ensures ok ==> Reloaded(a, b, plan)
      ensures all ==> RunsAll(hooks, a, b, {Reload(After)}, true)
      ensures all && plan != NothingToDo ==> RunsAll(hooks, a, b, {Reload(Before)}, true)
    {
      SameCounts(a);
      if ok {
        ReloadedOn(begun, sofar, b, 17, plan);
        SameReloaded(a, begun, b, plan);
      }
      if all {
        RunsOn(hooks, begun, sofar, b, 0, 0, 0, 17, {Reload(After)}, true);
        if plan != NothingToDo {
          ShellsRunToo(hooks, begun, sofar, b, Reload(Before));
        }
      }
      hide Runs;
    }

    /** A reload asked for over the evaluation socket. */
    method ReloadFromEval() returns (ok: bool, ghost es: multiset<Event>)
      requires ShellFirst(hooks)
      modifies this
      ensures old(ran) <= ran && (!strict ==> Since(old(ran), es))
      ensures es[Reload(Before)] == 1 && es[Reload(After)] == 1
      ensures Proceeds(old(log), log, 0, 17) && (ok ==> Does(old(log), log, Load))
      ensures AllFine(old(world)) ==>
        ok && AllFine(world) && RunsAll(hooks, old(log), log, {Reload(Before)}, true)
        && RunsAll(hooks, old(log), log, {Reload(After)}, true)
    {
      hide Did;
      hide ShellFirst;
      hide Proceeds;
      hide Does;
      hide RunsAll;
      hide AllFine;
      hide HooksRun;
      hide AllHooks;
      hide CompletionRun;
      RestartedCloses();
      RestartedSets();
      hide Closing;
      hide SetOf;
      var result := RunHooks(Reload(Before));
      ProceedsMore(old(log), log, 0, 0, 8);
      if result {
        ghost var sofar := log;
        result := Step(Load);
        ProceedsBoth(old(log), sofar, log, 0, 8, 8, 8);
        DoesOn(old(log), sofar, log, 0, 8, 8, 8, Load);
        if AllFine(old(world)) {
          RunsOn(hooks, old(log), sofar, log, 0, 8, 8, 8, {Reload(Before)}, true);
        }
      }
      var available := true;
      var compiled := Ask();
      if !result {
        available := Ask();
      }
      ghost var before, sofar := ran, log;
      ghost var tested;
      ok, tested := FinishCompilation([Reload(After)], available, result, !compiled, true);
      ProceedsBoth(old(log), sofar, log, 0, 8, 9, 17);
      if result {
        DoesOn(old(log), sofar, log, 0, 8, 9, 17, Load);
      }
      if AllFine(old(world)) {
        RunsOn(hooks, old(log), sofar, log, 0, 8, 9, 17, {Reload(Before)}, true);
        RunsOn(hooks, old(log), sofar, log, 0, 8, 9, 17, {Reload(After)}, true);
      }
      es := multiset{Reload(Before)} + (multiset([Reload(After)]) + Tests(tested));
      if !strict {
        Chain(hooks, old(ran), before, ran, multiset{Reload(Before)}, multiset([Reload(After)]) + Tests(tested));
      }
      ok := ok && result;
    }

    /** An attempt that a newer event cancelled is closed the same way. */
    method FinishInterruptedReload(ghciAvailable: bool) returns (ok: bool)
      requires ShellFirst(hooks)
      modifies `world, `ran, `log
      ensures old(ran) <= ran && (!strict ==> Since(old(ran), multiset{Reload(After)}))
      ensures Proceeds(old(log), log, 13, 13)
      ensures AllFine(old(world)) ==> ok && AllFine(world)
      ensures AllFine(old(world)) && ghciAvailable ==> RunsAll(hooks, old(log), log, {Reload(After)}, true)
    {
      if ghciAvailable {
        ok := RunHooks(Reload(After));
      } else {
        ok := RunShellHooks(Reload(After), false);
      }
    }
  }

  /** What a reload finds to do; the first case is a path or event that cannot be classified. */
  datatype Plan = Unclassified | NeedsRestart | NothingToDo | NeedsModify(removes: bool, adds: bool, reloads: bool)

  /** The hooks of starting a session after some failed setup attempts. */
  function Setups(setups: nat, started: bool): multiset<Event> {
    var es: multiset<Event> := multiset{}[Reload(After) := setups];
    if started then es + multiset{Startup(Before)} else es
  }

  lemma OneMoreSetup(setups: nat)
    ensures Setups(setups, false) + multiset{Reload(After)} == Setups(setups + 1, false)
  {
  }

  lemma StartedAfter(setups: nat)
    ensures Setups(setups, false) + multiset{Startup(Before)} == Setups(setups, true)
  {
  }

  lemma NoSetups()
    ensures Setups(0, false) == multiset([])
  {
  }

  function Tests(tested: bool): multiset<Event> {
    if tested then multiset{Test} else multiset{}
  }

  lemma NoTests()
    ensures Tests(false) == multiset([])
  {
  }

  lemma OneMore(events: seq<Event>, i: nat)
    requires i < |events|
    ensures multiset(events[..i]) + multiset{events[i]} == multiset(events[..i + 1])
  {
    assert events[..i + 1] == events[..i] + [events[i]];
  }

  lemma Unchanged(hooks: seq<Hook>, ran: seq<Hook>)
    ensures Did(ran[|ran|..], hooks, multiset([]))
  {
    assert ran[|ran|..] == [];
    DidNothing(hooks);
  }

  /** What is done after what has been done. */
  lemma Chain(hooks: seq<Hook>, a: seq<Hook>, b: seq<Hook>, c: seq<Hook>, es: multiset<Event>, fs: multiset<Event>)
    requires a <= b <= c && Did(b[|a|..], hooks, es) && Did(c[|b|..], hooks, fs)
    ensures a <= c && Did(c[|a|..], hooks, es + fs)
  {
    assert c[|a|..] == b[|a|..] + c[|b|..];
    DidBoth(b[|a|..], c[|b|..], hooks, es, fs);
  }

  lemma {:induction false} AreShells(hs: seq<Hook>, e: Event)
    ensures forall i | 0 <= i < |ShellsOf(hs, e)| :: ShellsOf(hs, e)[i].Shell?
    decreases |hs|
  {
    if hs != [] {
      AreShells(hs[1..], e);
    }
  }

  lemma {:induction false} SelectOnly(hs: seq<Hook>, e: Event)
    ensures forall i | 0 <= i < |Select(hs, e)| :: Select(hs, e)[i].event == e
    decreases |hs|
  {
    if hs != [] {
      SelectOnly(hs[1..], e);
    }
  }

  lemma {:induction false} NothingMore(hs: seq<Hook>, world: seq<Outcome>)
    ensures Executed(hs, true, false, true, world) == Run([], true, world)
    decreases |hs|
  {
    if hs != [] {
      NothingMore(hs[1..], world);
    }
  }

  lemma GhcisCase(hs: seq<Hook>, world: seq<Outcome>)
    ensures GhcisRun(hs, world) ==
      if hs == [] then Run([], true, world)
      else if hs[0].Shell? then GhcisRun(hs[1..], world)
      else if Head(world) != Fine then Run([hs[0]], Head(world) != Breaks, Later(world))
      else GhcisRun(hs[1..], Later(world)).(ran := [hs[0]] + GhcisRun(hs[1..], Later(world)).ran)
  {
  }

  lemma GhcisOfEvent(hooks: seq<Hook>, log: seq<Entry>, e: Event, world: seq<Outcome>)
    ensures var x := GhcisRun(Select(hooks, e), world);
      Did(x.ran, hooks, multiset{})
      && Proceeds(log, log + Entries(x.ran, false), PhaseOf(e), PhaseOf(e))
      && (e != Test ==> x == Executed(Select(hooks, e), true, false, false, world))
      && (AllFine(world) ==>
            x.ok && AllFine(x.world) && RunsAll(hooks, log, log + Entries(x.ran, false), {e}, false))
  {
    var x := GhcisRun(Select(hooks, e), world);
    SelectIff(hooks, e);
    GhcisRunIs(Select(hooks, e), world);
    hide GhcisRun;
    hide Executed;
    hide Entries;
    hide Select;
    NoShellsDone(x.ran, hooks);
    HooksProceed(log, x.ran, false, e);
    if AllFine(world) {
      AllGhcisRun(Select(hooks, e), world);
      HooksRunAll(hooks, log, x.ran, e, false);
    }
  }

  lemma {:induction false} ShellsOfShells(hs: seq<Hook>, e: Event)
    ensures Did(ShellsOf(hs, e), hs, multiset{e})
  {
    forall f ensures ShellsOf(ShellsOf(hs, e), f) == if e == f then ShellsOf(hs, f) else [] {
      ShellsTwice(hs, e, f);
    }
    DidOne(ShellsOf(hs, e), hs, e);
  }

  lemma {:induction false} ShellsTwice(hs: seq<Hook>, e: Event, f: Event)
    ensures ShellsOf(ShellsOf(hs, e), f) == if e == f then ShellsOf(hs, f) else []
    decreases |hs|
  {
    if hs != [] {
      var rest := ShellsOf(hs[1..], e);
      ShellsTwice(hs[1..], e, f);
      assert ([hs[0]] + rest)[1..] == rest && [] + rest == rest;
      assert [] + ShellsOf(rest, f) == ShellsOf(rest, f) && [] + ShellsOf(hs[1..], f) == ShellsOf(hs[1..], f);
    }
  }

  lemma SelectedRun(hooks: seq<Hook>, e: Event, skipShells: bool, world: seq<Outcome>)
    requires ShellFirst(hooks)
    ensures Did(Executed(Select(hooks, e), skipShells, false, false, world).ran, hooks,
                if skipShells then multiset{} else multiset{e})
  {
    SelectShellFirst(hooks, e);
    var part := Executed(Select(hooks, e), skipShells, false, false, world).ran;
    forall f ensures ShellsOf(part, f) == if e == f && !skipShells then ShellsOf(hooks, f) else [] {
      ShellsAllRun(Select(hooks, e), skipShells, false, world, f);
      ShellsOfSelect(hooks, e, f);
    }
    if !skipShells {
      DidOne(part, hooks, e);
    }
  }
}
