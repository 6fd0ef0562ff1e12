/** Keeping GHCi's targets in step with the watched source files (src/ghci/mod.rs and
    src/ghci/file_classifier.rs), with no replacement for automatic additions configured. Paths are
    already relative to GHCi's working directory. */
module Targets {
  import opened Basics

  datatype Path = Path(directory: seq<string>, name: string)

  datatype Glob = NoMatch | Ignored | Whitelisted

  type FileEvent = Basics.FileEvent<Path>

  datatype Classifier = Classifier(restart: Path -> Glob, reload: Path -> Glob)

  const HASKELL_SOURCE_EXTENSIONS := ["hs", "lhs", "hs-boot", "hsig", "hsc", "x", "y", "c2hs", "gc"]

  /** The position of the last dot, or -1. */
  function LastDot(name: string): (i: int)
    ensures -1 <= i < |name|
  {
    if name == "" then -1
    else if name[|name| - 1] == '.' then |name| - 1
    else LastDot(name[..|name| - 1])
  }

  function Extension(p: Path): Option<string> {
    var i := LastDot(p.name);
    if i <= 0 then None else Some(p.name[i + 1..])
  }

  predicate Dotfile(p: Path) {
    p.name != "" && p.name[0] == '.'
  }

  predicate IsHaskellSource(p: Path) {
    var ext := Extension(p);
    ext.Some? && ext.value in HASKELL_SOURCE_EXTENSIONS && !Dotfile(p)
  }

  predicate IsTargetSource(c: Classifier, p: Path) {
    IsHaskellSource(p) && c.restart(p) != Whitelisted && c.reload(p) != Ignored && !Dotfile(p)
  }

  predicate DefaultRestart(p: Path) {
    Extension(p) == Some("cabal") || p.name == ".ghci"
  }

  datatype Kind = Restart | Reload | Add | Unadd | Skip

  /** What one event calls for. */
  function KindOf(c: Classifier, event: FileEvent, targets: set<Path>): Kind {
    var p := event.path;
    if c.restart(p) != Ignored && (DefaultRestart(p) || c.restart(p) == Whitelisted) then Restart
    else if c.reload(p) == Ignored then Skip
    else if event.Remove? && IsHaskellSource(p) && p in targets then Unadd
    else if event.Modify? && IsHaskellSource(p) && !Dotfile(p) then (if p in targets then Reload else Add)
    else if c.reload(p) == Whitelisted then Reload
    else Skip
  }

  datatype Actions = Actions(restart: seq<Path>, reload: seq<Path>, add: seq<Path>, remove: seq<Path>)

  function Elements(s: seq<Path>): set<Path> {
    set p | p in s
  }

  function Of(c: Classifier, events: set<FileEvent>, targets: set<Path>, kind: Kind): set<Path> {
    set e | e in events && KindOf(c, e, targets) == kind :: e.path
  }

  method Classify(c: Classifier, events: set<FileEvent>, targets: set<Path>) returns (a: Actions)
    ensures Elements(a.restart) == Of(c, events, targets, Restart)
    ensures Elements(a.reload) == Of(c, events, targets, Reload)
    ensures Elements(a.add) == Of(c, events, targets, Add) && Elements(a.remove) == Of(c, events, targets, Unadd)
  {
    a := Actions([], [], [], []);
    var rest := events;
    while rest != {}
      invariant rest <= events
      invariant Elements(a.restart) == Of(c, events - rest, targets, Restart)
      invariant Elements(a.reload) == Of(c, events - rest, targets, Reload)
      invariant Elements(a.add) == Of(c, events - rest, targets, Add)
      invariant Elements(a.remove) == Of(c, events - rest, targets, Unadd)
    {
      var event;
      ghost var before := events - rest;
      event, rest := TakeOne(rest);
      assert events - rest == before + {event};
      forall kind
        ensures Of(c, before + {event}, targets, kind)
             == Of(c, before, targets, kind) + if KindOf(c, event, targets) == kind then {event.path} else {}
      {
        OfOneMore(c, before, event, targets, kind);
      }
      ghost var was := a;
      match KindOf(c, event, targets) {
        case Restart => a := a.(restart := a.restart + [event.path]);
        case Reload => a := a.(reload := a.reload + [event.path]);
        case Add => a := a.(add := a.add + [event.path]);
        case Unadd => a := a.(remove := a.remove + [event.path]);
        case Skip =>
      }
      ElementsSnoc(was.restart, event.path);
      ElementsSnoc(was.reload, event.path);
      ElementsSnoc(was.add, event.path);
      ElementsSnoc(was.remove, event.path);
    }
    assert events - rest == events;
  }

  lemma OfOneMore(c: Classifier, events: set<FileEvent>, event: FileEvent, targets: set<Path>, kind: Kind)
    ensures Of(c, events + {event}, targets, kind)
         == Of(c, events, targets, kind) + if KindOf(c, event, targets) == kind then {event.path} else {}
  {
  }

  lemma ElementsSnoc(s: seq<Path>, p: Path)
    ensures Elements(s + [p]) == Elements(s) + {p}
  {
  }

  // What the classification means.

  predicate NoDot(s: string) {
    forall i | 0 <= i < |s| :: s[i] != '.'
  }

  lemma {:induction false} LastDotIs(stem: string, ext: string)
    requires NoDot(ext)
    ensures LastDot(stem + "." + ext) == |stem|
    decreases |ext|
  {
    var name := stem + "." + ext;
    if ext == "" {
      assert name[|stem|] == '.';
    } else {
      var front := ext[..|ext| - 1];
      assert name[..|name| - 1] == stem + "." + front;
      assert name[|name| - 1] == ext[|ext| - 1];
      LastDotIs(stem, front);
    }
  }

  lemma {:induction false} AfterLastDot(name: string)
    ensures var i := LastDot(name);
      (forall j | i < j < |name| :: name[j] != '.') && (i >= 0 ==> name[i] == '.')
    decreases |name|
  {
    if name != "" && name[|name| - 1] != '.' {
      var front := name[..|name| - 1];
      AfterLastDot(front);
      assert LastDot(name) == LastDot(front);
      forall j | LastDot(front) < j < |name| ensures name[j] != '.' {
        if j < |front| {
          assert front[j] == name[j];
        }
      }
    }
  }

  /** The extension is what follows the last dot, unless the name begins with that dot. */
  lemma ExtensionIff(p: Path, ext: string)
    ensures Extension(p) == Some(ext) <==> NoDot(ext) && exists stem :: stem != "" && p.name == stem + "." + ext
  {
    AfterLastDot(p.name);
    var i := LastDot(p.name);
    assert NoDot(p.name[i + 1..]);
    if i > 0 {
      assert p.name == p.name[..i] + "." + p.name[i + 1..];
    }
    if NoDot(ext) {
      forall stem | stem != "" && p.name == stem + "." + ext ensures i == |stem| && p.name[i + 1..] == ext {
        LastDotIs(stem, ext);
      }
    }
  }

  /** Cabal files, `.ghci` and whatever a restart pattern selects restart, unless a restart pattern excludes
      them. */
  ghost predicate CallsForRestart(c: Classifier, p: Path) {
    c.restart(p) != Ignored
    && (p.name == ".ghci" || c.restart(p) == Whitelisted || exists stem :: stem != "" && p.name == stem + "." + "cabal")
  }

  /** What each event calls for: a restart comes first, an excluded path is passed by otherwise, Haskell
      sources become or stop being targets or are reloaded, and a reload pattern selects the rest. */
  lemma KindIff(c: Classifier, e: FileEvent, targets: set<Path>)
    ensures var p := e.path; var source := IsHaskellSource(p);
      var passed := CallsForRestart(c, p) || c.reload(p) == Ignored;
      && (KindOf(c, e, targets) == Restart <==> CallsForRestart(c, p))
      && (KindOf(c, e, targets) == Add <==> !passed && e.Modify? && source && p !in targets)
      && (KindOf(c, e, targets) == Unadd <==> !passed && e.Remove? && source && p in targets)
      && (KindOf(c, e, targets) == Reload <==>
           !passed
           && (if e.Modify? && source then p in targets
               else c.reload(p) == Whitelisted && !(e.Remove? && source && p in targets)))
      && (source <==> exists stem, ext ::
           ext in HASKELL_SOURCE_EXTENSIONS && stem != "" && stem[0] != '.' && p.name == stem + "." + ext)
  {
    var p := e.path;
    hide Extension;
    hide LastDot;
    hide HASKELL_SOURCE_EXTENSIONS;
    RestartIff(p);
    SourceName(p);
    hide IsHaskellSource;
    hide DefaultRestart;
  }

  lemma RestartIff(p: Path)
    ensures DefaultRestart(p) <==> p.name == ".ghci" || exists stem :: stem != "" && p.name == stem + "." + "cabal"
  {
    assert NoDot("cabal");
    ExtensionIff(p, "cabal");
  }

  lemma SourceName(p: Path)
    ensures IsHaskellSource(p) <==> exists stem, ext ::
      ext in HASKELL_SOURCE_EXTENSIONS && stem != "" && stem[0] != '.' && p.name == stem + "." + ext
  {
    hide Extension;
    assert forall ext <- HASKELL_SOURCE_EXTENSIONS :: NoDot(ext);
    if IsHaskellSource(p) {
      var ext := Extension(p).value;
      ExtensionIff(p, ext);
      var stem :| stem != "" && p.name == stem + "." + ext;
      assert p.name[0] == stem[0];
    }
    forall stem, ext | ext in HASKELL_SOURCE_EXTENSIONS && stem != "" && stem[0] != '.' && p.name == stem + "." + ext
      ensures IsHaskellSource(p)
    {
      ExtensionIff(p, ext);
      assert p.name[0] == stem[0];
    }
  }

  // Planning.

  datatype Options = Options(autoReload: bool, restartOnAdd: bool)

  /** Event kinds follow the newer snapshot. */
  function Reconciled(events: set<FileEvent>, files: set<Path>): set<FileEvent> {
    set e | e in events ::
      if !IsHaskellSource(e.path) then e else if e.path in files then Modify(e.path) else Remove(e.path)
  }

  class Session {
    const classifier: Classifier
    const options: Options
    /** GHCi's own target set. */
    var actual: set<Path>
    /** What ghciwatch believes it to be. */
    var targets: set<Path>
    var known: set<Path>
    var initializationFailed: bool

    constructor (classifier: Classifier, options: Options)
      ensures this.classifier == classifier && this.options == options
      ensures actual == targets == known == {} && !initializationFailed
    {
      this.classifier, this.options := classifier, options;
      actual, targets, known, initializationFailed := {}, {}, {}, false;
    }

    function S(): State
      reads this
    {
      State(targets, known, initializationFailed)
    }

    method GetReloadActions(events: set<FileEvent>, files: set<Path>) returns (a: Actions)
      ensures Elements(a.restart) == Planned(classifier, options, S(), events, files).restart
      ensures Elements(a.reload) == Planned(classifier, options, S(), events, files).reload
      ensures Elements(a.add) == Planned(classifier, options, S(), events, files).add
      ensures Elements(a.remove) == Planned(classifier, options, S(), events, files).remove
    {
      var reconciled := Reconciled(events, files);
      var recovery := if initializationFailed && !options.autoReload
                      then set e | e in reconciled && IsHaskellSource(e.path) :: e.path else {};
      a := Classify(classifier, reconciled, targets);
      var restart := Extend(a.restart, recovery);
      a := a.(restart := restart);
      if !options.autoReload {
        a := a.(reload := []);
      }
      var appeared := set p | p in files - known && IsTargetSource(classifier, p) && p !in targets;
      var vanished := set p | p in known - files && IsTargetSource(classifier, p) && p in targets;
      var add := Extend(a.add, appeared);
      var remove := Extend(a.remove, vanished);
      a := a.(add := add, remove := remove);
      if options.restartOnAdd && a.add != [] {
        ElementsAppend(a.restart, a.add);
        a := a.(restart := a.restart + a.add, add := []);
      }
    }

    /** `:add`, first by module name and then by path; GHCi accepts what is resolvable either way. */
    method AddModules(paths: seq<Path>, byName: set<Path>, byPath: set<Path>) returns (ok: bool, unresolved: seq<Path>)
      requires targets == actual
      modifies this`actual, this`targets
      ensures ok <==> Elements(paths) !! old(targets)
      ensures targets == actual
      ensures !ok ==> targets == old(targets)
      ensures ok ==> targets == old(targets) + Elements(paths) * (byName + byPath)
      ensures ok ==> Elements(unresolved) == Elements(paths) - targets
    {
      unresolved := [];
      for i := 0 to |paths|
        invariant Elements(paths[..i]) !! targets
      {
        if paths[i] in targets {
          assert paths[i] in Elements(paths);
          return false, [];
        }
        assert paths[..i + 1] == paths[..i] + [paths[i]];
      }
      assert paths[..|paths|] == paths;
      ok := true;
      actual := actual + Elements(paths) * byName;
      targets := actual;
      var unnamed := Outside(paths, targets);
      if unnamed != [] {
        actual := actual + Elements(unnamed) * byPath;
        targets := actual;
      }
      unresolved := Outside(paths, targets);
    }

    /** `:unadd`. */
    method RemoveModules(paths: seq<Path>)
      requires targets == actual
      modifies this`actual, this`targets
      ensures targets == actual == old(targets) - Elements(paths)
    {
      actual := actual - Elements(paths);
      for i := 0 to |paths|
        invariant actual == old(targets) - Elements(paths) && targets == old(targets) - Elements(paths[..i])
      {
        targets := targets - {paths[i]};
        assert paths[..i + 1] == paths[..i] + [paths[i]];
        ElementsSnoc(paths[..i], paths[i]);
      }
      assert paths[..|paths|] == paths;
    }

    /** What every uninterrupted reload or restart keeps. */
    ghost predicate Inv()
      reads this
    {
      targets == actual && forall p <- known :: IsTargetSource(classifier, p) ==> p in targets
    }

    /** A reload that is not interrupted. The known files end up being the snapshot without the target
        sources GHCi did not accept. */
    method Reload(events: set<FileEvent>, files: set<Path>, byName: set<Path>, byPath: set<Path>,
                  commandTargets: set<Path>, startupErrors: bool) returns (ok: bool)
      requires Inv()
      modifies this
      ensures ok && Inv()
      ensures S() == AfterReload(classifier, options, old(S()), events, files,
                                 Ghci(byName + byPath, commandTargets, startupErrors))
    {
      hide Planned;
      hide IsTargetSource;
      hide Elements;
      hide Refused;
      ghost var s := S();
      ghost var planned := Planned(classifier, options, s, events, files);
      ghost var ghci := Ghci(byName + byPath, commandTargets, startupErrors);
      if planned.restart == {} {
        LeftOver(classifier, options, s, events, files, ghci);
      }
      PlanIsConsistent(classifier, options, s, events, files);
      KnownAreTargets(classifier, AfterReload(classifier, options, s, events, files, ghci).targets, files);
      var a := GetReloadActions(events, files);
      EmptyElements(a.restart);
      EmptyElements(a.remove);
      EmptyElements(a.add);
      EmptyElements(a.reload);
      if a.restart != [] {
        ok := DoRestart(files, byName, byPath, commandTargets, startupErrors);
        return;
      }
      if a.add == [] && a.reload == [] && a.remove == [] {
        known := files;
        return true;
      }
      ok := true;
      var unresolved := [];
      if a.remove != [] {
        RemoveModules(a.remove);
      }
      if a.add != [] {
        ok, unresolved := AddModules(a.add, byName, byPath);
      }
      known := files - Elements(unresolved);
    }

    /** A fresh session knows only the command's targets; the whole snapshot is synchronised. */
    method DoRestart(files: set<Path>, byName: set<Path>, byPath: set<Path>, commandTargets: set<Path>,
                     startupErrors: bool)
      returns (ok: bool)
      modifies this
      ensures ok && Inv()
      ensures S() == AfterRestart(classifier, files, Ghci(byName + byPath, commandTargets, startupErrors))
    {
      actual, targets, known, initializationFailed := commandTargets, commandTargets, {}, startupErrors;
      hide IsTargetSource;
      ok := SynchronizeHaskellFiles(files, byName, byPath);
    }

    method SynchronizeHaskellFiles(files: set<Path>, byName: set<Path>, byPath: set<Path>) returns (ok: bool)
      requires targets == actual
      modifies this`actual, this`targets, this`known
      ensures ok && Inv()
      ensures var vanished := set p | p in old(known) - files && IsTargetSource(classifier, p) && p in old(targets);
        targets == old(targets) - vanished + Refused(classifier, old(targets), files) * (byName + byPath)
      ensures known == files - Refused(classifier, targets, files) && initializationFailed == old(initializationFailed)
    {
      var needsRemove := Listed(set p | p in known - files && IsTargetSource(classifier, p) && p in targets);
      var needsAdd := Listed(Refused(classifier, targets, files));
      if needsRemove != [] {
        RemoveModules(needsRemove);
      }
      ok := true;
      var unresolved := [];
      if needsAdd != [] {
        ok, unresolved := AddModules(needsAdd, byName, byPath);
      }
      known := files - Elements(unresolved);
    }
  }

  /** The paths of a set, in some order. */
  method Listed(s: set<Path>) returns (paths: seq<Path>)
    ensures Elements(paths) == s
  {
    paths := [];
    var rest := s;
    while rest != {}
      invariant rest <= s && Elements(paths) == s - rest
    {
      var p;
      p, rest := TakeOne(rest);
      ElementsSnoc(paths, p);
      paths := paths + [p];
    }
  }

  /** Pushes what is not there yet. */
  method Extend(paths: seq<Path>, more: set<Path>) returns (all: seq<Path>)
    ensures Elements(all) == Elements(paths) + more
  {
    all := paths;
    var rest := more;
    while rest != {}
      invariant rest <= more && Elements(all) == Elements(paths) + (more - rest)
    {
      var p;
      p, rest := TakeOne(rest);
      if p !in all {
        ElementsSnoc(all, p);
        all := all + [p];
      }
    }
  }

  method Outside(paths: seq<Path>, targets: set<Path>) returns (some: seq<Path>)
    ensures Elements(some) == Elements(paths) - targets
  {
    some := [];
    for i := 0 to |paths|
      invariant Elements(some) == Elements(paths[..i]) - targets
    {
      assert paths[..i + 1] == paths[..i] + [paths[i]];
      ElementsSnoc(paths[..i], paths[i]);
      ElementsSnoc(some, paths[i]);
      if paths[i] !in targets {
        some := some + [paths[i]];
      }
    }
    assert paths[..|paths|] == paths;
  }

  lemma ElementsAppend(a: seq<Path>, b: seq<Path>)
    ensures Elements(a + b) == Elements(a) + Elements(b)
  {
  }

  lemma EmptyElements(a: seq<Path>)
    ensures a == [] <==> Elements(a) == {}
  {
    if a != [] {
      assert a[0] in Elements(a);
    }
  }

  datatype State = State(targets: set<Path>, known: set<Path>, initializationFailed: bool)

  datatype ActionSets = ActionSets(restart: set<Path>, reload: set<Path>, add: set<Path>, remove: set<Path>)

  function Planned(c: Classifier, o: Options, s: State, events: set<FileEvent>, files: set<Path>): ActionSets {
    var reconciled := Reconciled(events, files);
    var recovery := if s.initializationFailed && !o.autoReload
                    then set e | e in reconciled && IsHaskellSource(e.path) :: e.path else {};
    var restart := Of(c, reconciled, s.targets, Restart) + recovery;
    var reload := if o.autoReload then Of(c, reconciled, s.targets, Reload) else {};
    var add := Of(c, reconciled, s.targets, Add)
             + set p | p in files - s.known && IsTargetSource(c, p) && p !in s.targets;
    var remove := Of(c, reconciled, s.targets, Unadd)
                + set p | p in s.known - files && IsTargetSource(c, p) && p in s.targets;
    if o.restartOnAdd && add != {} then ActionSets(restart + add, reload, {}, remove)
    else ActionSets(restart, reload, add, remove)
  }

  /** What GHCi makes of additions, and what a fresh session starts with. */
  datatype Ghci = Ghci(accepted: set<Path>, commandTargets: set<Path>, startupErrors: bool)

  /** The target sources of a snapshot that are no targets. */
  function Refused(c: Classifier, targets: set<Path>, files: set<Path>): set<Path> {
    set p | p in files && IsTargetSource(c, p) && p !in targets
  }

  function AfterRestart(c: Classifier, files: set<Path>, ghci: Ghci): State {
    var targets := ghci.commandTargets + Refused(c, ghci.commandTargets, files) * ghci.accepted;
    State(targets, files - Refused(c, targets, files), ghci.startupErrors)
  }

  function AfterReload(c: Classifier, o: Options, s: State, events: set<FileEvent>, files: set<Path>,
                       ghci: Ghci): State {
    var a := Planned(c, o, s, events, files);
    if a.restart != {} then AfterRestart(c, files, ghci)
    else
      var targets := s.targets - a.remove + a.add * ghci.accepted;
      State(targets, files - Refused(c, targets, files), s.initializationFailed)
  }

  // What a plan is worth.

  lemma HaskellIsNoDefaultRestart(p: Path)
    requires IsHaskellSource(p)
    ensures !DefaultRestart(p)
  {
  }

  /** The event classification and the snapshot comparison agree on what may be added. */
  lemma AddableIffTargetSource(c: Classifier, p: Path, targets: set<Path>)
    ensures KindOf(c, Modify(p), targets) == Add <==> IsTargetSource(c, p) && p !in targets
  {
    if IsHaskellSource(p) {
      HaskellIsNoDefaultRestart(p);
    }
  }

  /** Removals are targets that vanished, additions are target sources that exist and are not targets;
      so the two are disjoint, and removing first leaves every addition a non-target. */
  lemma PlanIsConsistent(c: Classifier, o: Options, s: State, events: set<FileEvent>, files: set<Path>)
    ensures var a := Planned(c, o, s, events, files);
      && a.remove <= s.targets && a.remove !! files
      && a.add <= files && a.add !! s.targets && (forall p <- a.add :: IsTargetSource(c, p))
      && a.add !! a.remove && a.add !! (s.targets - a.remove)
    ensures var a := Planned(c, o, s, events, files);
      && (forall p <- s.known - files :: IsTargetSource(c, p) && p in s.targets ==> p in a.remove)
      && (forall p <- files - s.known :: IsTargetSource(c, p) && p !in s.targets ==> p in a.add || p in a.restart)
  {
    var reconciled := Reconciled(events, files);
    forall p <- Of(c, reconciled, s.targets, Add) ensures p in files && p !in s.targets && IsTargetSource(c, p) {
      var e :| e in reconciled && KindOf(c, e, s.targets) == Add && e.path == p;
      AddableIffTargetSource(c, p, s.targets);
    }
    forall p <- Of(c, reconciled, s.targets, Unadd) ensures p !in files && p in s.targets {
    }
  }

  // Successive reloads.

  ghost predicate InStep(c: Classifier, s: State) {
    forall p <- s.known :: IsTargetSource(c, p) ==> p in s.targets
  }

  lemma KnownAreTargets(c: Classifier, targets: set<Path>, files: set<Path>)
    ensures forall p <- files - Refused(c, targets, files) :: IsTargetSource(c, p) ==> p in targets
  {
  }

  /** Without a restart, what is refused is what was to be added and was not accepted. */
  lemma LeftOver(c: Classifier, o: Options, s: State, events: set<FileEvent>, files: set<Path>, ghci: Ghci)
    requires InStep(c, s) && Planned(c, o, s, events, files).restart == {}
    ensures var a := Planned(c, o, s, events, files);
      var targets := s.targets - a.remove + a.add * ghci.accepted;
      Refused(c, targets, files) == a.add - targets
  {
    PlanIsConsistent(c, o, s, events, files);
    hide Planned;
    hide IsTargetSource;
  }

  /** The known files are the snapshot without the target sources GHCi did not accept. Without a restart,
      target sources that vanished are no targets, no target that is there is lost, and what is new is a
      target source that is there and was accepted; a fresh session has its command's targets and what
      was accepted. */
  lemma ReloadKeepsInStep(c: Classifier, o: Options, s: State, events: set<FileEvent>, files: set<Path>, ghci: Ghci)
    requires InStep(c, s)
    ensures var s1 := AfterReload(c, o, s, events, files, ghci);
      InStep(c, s1) && s1.known == set p | p in files && (IsTargetSource(c, p) ==> p in s1.targets)
    ensures var s1 := AfterReload(c, o, s, events, files, ghci);
      if Planned(c, o, s, events, files).restart == {} then
        (forall p <- s.known - files :: IsTargetSource(c, p) ==> p !in s1.targets)
        && (forall p <- s.targets :: p !in s1.targets ==> p !in files)
        && (forall p <- s1.targets :: p !in s.targets ==> p in files && IsTargetSource(c, p))
        && (forall p <- files :: IsTargetSource(c, p) && p !in s.targets ==> (p in s1.targets <==> p in ghci.accepted))
      else
        forall p <- files - ghci.commandTargets :: p in s1.targets <==> IsTargetSource(c, p) && p in ghci.accepted
  {
    PlanIsConsistent(c, o, s, events, files);
    hide Planned;
    hide IsTargetSource;
  }

  /** A state that a snapshot has been applied to: the known files are the snapshot, less what was refused.
      With the same snapshot and whatever events, everything refused is planned again. If no event leads to
      anything but a target source that is there, nothing else is planned but reloads of targets: nothing at
      all if nothing was refused and nothing happened. */
  lemma PlanAfterReload(c: Classifier, o: Options, s: State, events: set<FileEvent>, files: set<Path>)
    requires s.known == files - Refused(c, s.targets, files)
    ensures var a := Planned(c, o, s, events, files); Refused(c, s.targets, files) <= a.add + a.restart
    ensures var refused := Refused(c, s.targets, files);
      var reload := if o.autoReload then set e | e in events && e.path in s.targets :: e.path else {};
      (forall e <- events :: IsTargetSource(c, e.path) && e.path in files)
      && (s.initializationFailed && !o.autoReload ==> events == {}) ==>
        Planned(c, o, s, events, files) ==
          if o.restartOnAdd && refused != {} then ActionSets(refused, reload, {}, {})
          else ActionSets({}, reload, refused, {})
  {
    PlanIsConsistent(c, o, s, events, files);
    if (forall e <- events :: IsTargetSource(c, e.path) && e.path in files)
       && (s.initializationFailed && !o.autoReload ==> events == {}) {
      OnlyReloads(c, s.targets, events, files);
      var refused := Refused(c, s.targets, files);
      assert (set p | p in files - s.known && IsTargetSource(c, p) && p !in s.targets) == refused;
      assert (set p | p in s.known - files && IsTargetSource(c, p) && p in s.targets) == {};
      var reconciled := Reconciled(events, files);
      hide IsTargetSource;
      hide Of;
      assert Of(c, reconciled, s.targets, Add) + refused == refused;
    }
  }

  /** Events for target sources that are there. */
  lemma OnlyReloads(c: Classifier, targets: set<Path>, events: set<FileEvent>, files: set<Path>)
    requires forall e <- events :: IsTargetSource(c, e.path) && e.path in files
    ensures var reconciled := Reconciled(events, files);
      Of(c, reconciled, targets, Restart) == Of(c, reconciled, targets, Unadd) == {}
      && Of(c, reconciled, targets, Reload) == (set e | e in events && e.path in targets :: e.path)
      && Of(c, reconciled, targets, Add) <= Refused(c, targets, files)
  {
    var reconciled := Reconciled(events, files);
    forall e <- reconciled ensures KindOf(c, e, targets) == if e.path in targets then Reload else Add {
      HaskellIsNoDefaultRestart(e.path);
    }
    forall e <- events | e.path in targets ensures e.path in Of(c, reconciled, targets, Reload) {
      assert Modify(e.path) in reconciled;
    }
  }

  lemma NoAdditions(c: Classifier, o: Options, s: State, events: set<FileEvent>, files: set<Path>)
    requires Planned(c, o, s, events, files).restart == {} && o.restartOnAdd
    ensures Planned(c, o, s, events, files).add == {}
  {
    hide Reconciled;
    hide Of;
  }

  /** What a reload leaves refused, GHCi did not accept. */
  lemma RefusedIsNotAccepted(c: Classifier, o: Options, s: State, events: set<FileEvent>, files: set<Path>, ghci: Ghci)
    requires InStep(c, s)
    ensures var s1 := AfterReload(c, o, s, events, files, ghci); Refused(c, s1.targets, files) !! ghci.accepted
    ensures Planned(c, o, s, events, files).restart == {} && o.restartOnAdd ==>
      Refused(c, AfterReload(c, o, s, events, files, ghci).targets, files) == {}
  {
    PlanIsConsistent(c, o, s, events, files);
    if Planned(c, o, s, events, files).restart == {} && o.restartOnAdd {
      NoAdditions(c, o, s, events, files);
    }
    hide Planned;
  }

  /** Reloading a snapshot again, with no event between, asks only for what was refused: whatever the first
      reload had to do, nothing changes if GHCi accepts what it accepted, and otherwise exactly what it has
      come to accept is added. */
  lemma SecondReload(c: Classifier, o: Options, s: State, events: set<FileEvent>, files: set<Path>, ghci: Ghci,
                     now: set<Path>)
    requires InStep(c, s)
    ensures var s1 := AfterReload(c, o, s, events, files, ghci);
      AfterReload(c, o, s1, {}, files, ghci) == s1
    ensures var s1 := AfterReload(c, o, s, events, files, ghci);
      var refused := Refused(c, s1.targets, files);
      var s2 := AfterReload(c, o, s1, {}, files, ghci.(accepted := now));
      !o.restartOnAdd ==> s2.targets == s1.targets + refused * now && s2.known == s1.known + refused * now
  {
    var s1 := AfterReload(c, o, s, events, files, ghci);
    var refused := Refused(c, s1.targets, files);
    assert s1.known == files - refused;
    PlanAfterReload(c, o, s1, {}, files);
    RefusedIsNotAccepted(c, o, s, events, files, ghci);
    hide Planned;
    if !(o.restartOnAdd && refused != {}) {
      assert s1.targets - {} + refused * ghci.accepted == s1.targets;
    }
  }
}
