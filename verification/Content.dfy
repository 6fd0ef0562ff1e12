/** The content baseline of watched files (src/watcher/content.rs): what an event batch reports
    against it, and that it then agrees with the file system. */
module Content {
  import opened Basics

  /** A path as its components. */
  type Path = seq<string>

  /** The captured contents of a file; only equality matters. */
  type State = nat

  /** What is at a path once file symlinks are followed. */
  datatype Node =
    | File(state: State)
    | Dir(entries: Entries)
    | DirLink(entries: Entries)
    | Dangling
    | Special
    | Unreadable

  datatype Entries = Nil | Cons(name: string, node: Node, rest: Entries)

  datatype Resolved = Found(node: Node) | NotFound | Failed

  type Snapshot = map<Path, State>

  type FileEvent = Basics.FileEvent<Path>

  function Named(es: Entries, name: string): Option<Node> {
    match es
    case Nil => None
    case Cons(n, node, rest) => if n == name then Some(node) else Named(rest, name)
  }

  /** `std::fs::metadata`: a step through anything but a directory fails, a missing entry is not found. */
  function Resolve(n: Node, rel: Path): Resolved
    decreases |rel|
  {
    match n
    case Unreadable => Failed
    case Dangling => NotFound
    case File(_) => if rel == [] then Found(n) else Failed
    case Special => if rel == [] then Found(n) else Failed
    case Dir(es) => if rel == [] then Found(n) else ResolveIn(es, rel)
    case DirLink(es) => if rel == [] then Found(n) else ResolveIn(es, rel)
  }

  function ResolveIn(es: Entries, rel: Path): Resolved
    requires rel != []
    decreases |rel|, 0
  {
    match Named(es, rel[0]) case None => NotFound case Some(child) => Resolve(child, rel[1..])
  }

  /** The regular file at a path, if there is one. */
  function FileAt(root: Node, p: Path): Option<State> {
    match Resolve(root, p)
    case Found(File(s)) => Some(s)
    case _ => None
  }

  /** All files under a node, not looking through directory symlinks below it. */
  function Files(n: Node, at: Path): Snapshot {
    match n
    case File(s) => map[at := s]
    case Dir(es) => FilesIn(es, at)
    case DirLink(es) => FilesIn(es, at)
    case _ => map[]
  }

  function FilesIn(es: Entries, at: Path): Snapshot {
    match es
    case Nil => map[]
    case Cons(name, node, rest) =>
      (if node.DirLink? then map[] else Files(node, at + [name])) + FilesIn(rest, at)
  }

  predicate Scannable(n: Node) {
    match n
    case Unreadable => false
    case Dir(es) => AllScannable(es)
    case DirLink(es) => AllScannable(es)
    case _ => true
  }

  predicate AllScannable(es: Entries) {
    match es
    case Nil => true
    case Cons(_, node, rest) => (node.DirLink? || Scannable(node)) && AllScannable(rest)
  }

  /** A tree: names in a directory are distinct. */
  predicate IsTree(n: Node) {
    match n
    case Dir(es) => AreTrees(es)
    case DirLink(es) => AreTrees(es)
    case _ => true
  }

  predicate AreTrees(es: Entries) {
    match es
    case Nil => true
    case Cons(name, node, rest) => IsTree(node) && Named(rest, name).None? && AreTrees(rest)
  }

  predicate NoLinks(n: Node) {
    match n
    case Dir(es) => NoneLinks(es)
    case DirLink(_) => false
    case _ => true
  }

  predicate NoneLinks(es: Entries) {
    match es
    case Nil => true
    case Cons(_, node, rest) => NoLinks(node) && NoneLinks(rest)
  }

  lemma ChildFiles(n: Node, at: Path)
    ensures forall p | p in Files(n, at) :: at <= p
    decreases n
  {
    match n
    case Dir(es) => ChildrenFiles(es, at);
    case DirLink(es) => ChildrenFiles(es, at);
    case _ =>
  }

  lemma ChildrenFiles(es: Entries, at: Path)
    ensures forall p | p in FilesIn(es, at) :: |at| < |p| && at <= p
    ensures forall p | p in FilesIn(es, at) :: Named(es, p[|at|]).Some?
    decreases es
  {
    match es
    case Nil =>
    case Cons(name, node, rest) =>
      ChildFiles(node, at + [name]);
      ChildrenFiles(rest, at);
      forall p | p in FilesIn(es, at) ensures |at| < |p| && at <= p && Named(es, p[|at|]).Some? {
        if p !in FilesIn(rest, at) {
          assert !node.DirLink? && p in Files(node, at + [name]);
          assert at <= at + [name] <= p;
          assert p[|at|] == (at + [name])[|at|];
        }
      }
  }

  /** What a scan of a node finds at a path below it: it does not look through a directory symlink on
      the way. */
  function SeenIn(n: Node, rel: Path): Option<State>
    decreases |rel|
  {
    match n
    case File(s) => if rel == [] then Some(s) else None
    case Dir(es) => SeenBelow(es, rel)
    case DirLink(es) => SeenBelow(es, rel)
    case _ => None
  }

  function SeenBelow(es: Entries, rel: Path): Option<State>
    decreases |rel|, 0
  {
    if rel == [] then None
    else match Named(es, rel[0])
      case None => None
      case Some(child) => if child.DirLink? then None else SeenIn(child, rel[1..])
  }

  /** A directory symlink lies on the way, below the node and above the end. */
  predicate Hidden(n: Node, rel: Path)
    decreases |rel|
  {
    |rel| > 1 && (n.Dir? || n.DirLink?) &&
    (match Named(n.entries, rel[0])
     case None => false
     case Some(child) => child.DirLink? || Hidden(child, rel[1..]))
  }

  /** Scanning agrees with going down each path. */
  lemma {:induction false} ScanIsWalk(n: Node, at: Path, rel: Path)
    requires IsTree(n)
    ensures Get(Files(n, at), at + rel) == SeenIn(n, rel)
    decreases n
  {
    if n.Dir? || n.DirLink? {
      if rel == [] {
        ChildrenFiles(n.entries, at);
        assert at + rel !in FilesIn(n.entries, at);
      } else {
        ScanInIsWalk(n.entries, at, rel);
      }
    } else if n.File? {
      assert |at + rel| == |at| <==> rel == [];
      if rel == [] {
        assert at + rel == at;
      }
    }
  }

  lemma {:induction false} ScanInIsWalk(es: Entries, at: Path, rel: Path)
    requires AreTrees(es) && rel != []
    ensures Get(FilesIn(es, at), at + rel) == SeenBelow(es, rel)
    decreases es
  {
    match es
    case Nil =>
    case Cons(name, node, rest) =>
      ScanInIsWalk(rest, at, rel);
      ChildFiles(node, at + [name]);
      ChildrenFiles(rest, at);
      var p := at + rel;
      assert p[|at|] == rel[0];
      if rel[0] == name {
        ScanIsWalk(node, at + [name], rel[1..]);
        assert at + [name] + rel[1..] == p;
      } else {
        assert (at + [name])[|at|] == name;
      }
  }

  /** Going down finds what looking up finds, unless a directory symlink hides a file. */
  lemma {:induction false} WalkIsLookupIff(n: Node, rel: Path)
    ensures SeenIn(n, rel) == FileAt(n, rel) <==> !(Hidden(n, rel) && FileAt(n, rel).Some?)
    ensures Hidden(n, rel) ==> SeenIn(n, rel) == None
    decreases |rel|
  {
    if rel != [] && (n.Dir? || n.DirLink?) {
      assert Resolve(n, rel) == ResolveIn(n.entries, rel);
      match Named(n.entries, rel[0])
      case None =>
      case Some(child) =>
        assert FileAt(n, rel) == FileAt(child, rel[1..]);
        WalkIsLookupIff(child, rel[1..]);
        if |rel| == 1 {
          assert rel[1..] == [];
        }
    }
  }

  /** Resolving a path in two parts. */
  lemma {:induction false} ResolveSplit(n: Node, a: Path, b: Path)
    ensures Resolve(n, a).Found? ==> Resolve(n, a + b) == Resolve(Resolve(n, a).node, b)
    ensures Resolve(n, a) == NotFound ==> Resolve(n, a + b) == NotFound
    decreases |a|
  {
    if a == [] {
      assert a + b == b;
    } else if n.Dir? || n.DirLink? {
      assert a + b != [] && (a + b)[0] == a[0] && (a + b)[1..] == a[1..] + b;
      assert Resolve(n, a) == ResolveIn(n.entries, a) && Resolve(n, a + b) == ResolveIn(n.entries, a + b);
      var child := Named(n.entries, a[0]);
      if child.Some? {
        ResolveSplit(child.value, a[1..], b);
      }
    }
  }

  lemma {:induction false} PartsOfTrees(n: Node, rel: Path)
    requires IsTree(n) && Resolve(n, rel).Found?
    ensures IsTree(Resolve(n, rel).node) && (NoLinks(n) ==> NoLinks(Resolve(n, rel).node))
    decreases |rel|
  {
    if rel != [] && (n.Dir? || n.DirLink?) {
      NamedIsTree(n.entries, rel[0]);
      PartsOfTrees(Named(n.entries, rel[0]).value, rel[1..]);
    }
  }

  lemma {:induction false} NamedIsTree(es: Entries, name: string)
    requires AreTrees(es) && Named(es, name).Some?
    ensures IsTree(Named(es, name).value) && (NoneLinks(es) ==> NoLinks(Named(es, name).value))
    decreases es
  {
    if es.name != name {
      NamedIsTree(es.rest, name);
    }
  }

  lemma {:induction false} NothingHidden(n: Node, rel: Path)
    requires IsTree(n) && NoLinks(n)
    ensures !Hidden(n, rel)
    decreases |rel|
  {
    if rel != [] && n.Dir? && Named(n.entries, rel[0]).Some? {
      NamedIsTree(n.entries, rel[0]);
      NothingHidden(Named(n.entries, rel[0]).value, rel[1..]);
    }
  }

  /** What a scan started at a path finds. */
  function Scanned(root: Node, path: Path): Snapshot {
    match Resolve(root, path) case Found(n) => Files(n, path) case _ => map[]
  }

  predicate CanScan(root: Node, path: Path) {
    match Resolve(root, path) case Found(n) => Scannable(n) case NotFound => true case Failed => false
  }

  /** What a scan started at `path` finds at `p`. */
  function Seen(root: Node, path: Path, p: Path): Option<State> {
    if path <= p && Resolve(root, path).Found? then SeenIn(Resolve(root, path).node, p[|path|..]) else None
  }

  /** A directory symlink strictly below `path` lies on the way to `p`. */
  predicate HiddenFrom(root: Node, path: Path, p: Path) {
    path <= p && Resolve(root, path).Found? && Hidden(Resolve(root, path).node, p[|path|..])
  }

  lemma ScannedIsSeen(root: Node, path: Path, p: Path)
    requires IsTree(root)
    ensures Get(Scanned(root, path), p) == Seen(root, path, p)
  {
    hide Files;
    hide IsTree;
    if path <= p {
      var rel := p[|path|..];
      assert p == path + rel;
      if Resolve(root, path).Found? {
        PartsOfTrees(root, path);
        ScanIsWalk(Resolve(root, path).node, path, rel);
      }
    } else if Resolve(root, path).Found? {
      ChildFiles(Resolve(root, path).node, path);
    }
  }

  /** A scan that succeeds finds a file below its path if and only if no directory symlink hides it. */
  lemma SeenIsFileIff(root: Node, path: Path, p: Path)
    requires path <= p && CanScan(root, path)
    ensures Seen(root, path, p) == FileAt(root, p) <==> !(FileAt(root, p).Some? && HiddenFrom(root, path, p))
    ensures HiddenFrom(root, path, p) ==> Seen(root, path, p) == None
  {
    var rel := p[|path|..];
    assert p == path + rel;
    ResolveSplit(root, path, rel);
    if Resolve(root, path).Found? {
      WalkIsLookupIff(Resolve(root, path).node, rel);
    }
  }

  /** Without directory symlinks a scan finds below its path exactly what the tree holds there. */
  lemma ScannedIsTree(root: Node, path: Path, p: Path)
    requires IsTree(root) && NoLinks(root) && CanScan(root, path)
    ensures Get(Scanned(root, path), p) == if path <= p then FileAt(root, p) else None
  {
    ScannedIsSeen(root, path, p);
    if path <= p {
      SeenIsFileIff(root, path, p);
      if Resolve(root, path).Found? {
        PartsOfTrees(root, path);
        NothingHidden(Resolve(root, path).node, p[|path|..]);
      }
    }
  }

  // What can be scanned.

  /** What stands at the first `k` names of a path, if anything does. */
  function At(root: Node, path: Path, k: nat): Option<Node>
    requires k <= |path|
  {
    if k == 0 then Some(root)
    else match At(root, path, k - 1)
      case Some(Dir(es)) => Named(es, path[k - 1])
      case Some(DirLink(es)) => Named(es, path[k - 1])
      case _ => None
  }

  /** The way down ends in failure: at something that cannot be read, or at a file, or the like, on which
      the path goes on. Nothing there, and a symlink that leads nowhere, are no failures. */
  predicate Blocks(root: Node, path: Path, k: nat)
    requires k <= |path|
  {
    match At(root, path, k)
    case Some(Unreadable) => true
    case Some(File(_)) => k < |path|
    case Some(Special) => k < |path|
    case _ => false
  }

  /** At `rel` below a node is something that cannot be read, and no directory symlink stands there or on
      the way. */
  predicate UnreadableAt(n: Node, rel: Path) {
    At(n, rel, |rel|) == Some(Unreadable)
    && forall k | 1 <= k <= |rel| :: At(n, rel, k).Some? && !At(n, rel, k).value.DirLink?
  }

  /** Neither the way to a path nor anything a scan visits below it fails. */
  ghost predicate Readable(root: Node, path: Path) {
    && (forall k | 0 <= k <= |path| :: !Blocks(root, path, k))
    && (At(root, path, |path|).Some? ==> forall rel :: !UnreadableAt(At(root, path, |path|).value, rel))
  }

  lemma {:induction false} AtTail(root: Node, path: Path, k: nat)
    requires 0 < k <= |path|
    ensures At(root, path, k) ==
      if root.Dir? || root.DirLink? then
        match Named(root.entries, path[0]) case None => None case Some(child) => At(child, path[1..], k - 1)
      else None
    decreases k
  {
    assert At(root, path, 0) == Some(root);
    if k > 1 {
      AtTail(root, path, k - 1);
      assert path[1..][k - 2] == path[k - 1];
    }
  }

  /** Resolving is going down, if nothing blocks the way. */
  lemma {:induction false} ResolveIsAt(root: Node, path: Path)
    ensures Resolve(root, path) == Failed <==> exists k | 0 <= k <= |path| :: Blocks(root, path, k)
    ensures Resolve(root, path) != Failed ==>
      Resolve(root, path) ==
        match At(root, path, |path|) case None => NotFound case Some(Dangling) => NotFound case Some(n) => Found(n)
    decreases |path|
  {
    assert At(root, path, 0) == Some(root);
    if path != [] && (root.Dir? || root.DirLink?) {
      assert Resolve(root, path) == ResolveIn(root.entries, path);
      forall k | 0 < k <= |path| ensures At(root, path, k) ==
        match Named(root.entries, path[0]) case None => None case Some(child) => At(child, path[1..], k - 1)
      {
        AtTail(root, path, k);
      }
      match Named(root.entries, path[0])
      case None =>
      case Some(child) =>
        ResolveIsAt(child, path[1..]);
        BlocksTail(root, child, path);
    } else {
      assert Blocks(root, path, 0) || root.Dangling? || path == [];
      NoneBelow(root, path);
    }
  }

  lemma BlocksTail(root: Node, child: Node, path: Path)
    requires path != [] && (root.Dir? || root.DirLink?) && Named(root.entries, path[0]) == Some(child)
    ensures (exists k | 0 <= k <= |path| :: Blocks(root, path, k))
       <==> exists k | 0 <= k <= |path[1..]| :: Blocks(child, path[1..], k)
  {
    forall k | 0 < k <= |path| ensures Blocks(root, path, k) == Blocks(child, path[1..], k - 1) {
      AtTail(root, path, k);
    }
    assert !Blocks(root, path, 0);
    if k :| 0 <= k <= |path[1..]| && Blocks(child, path[1..], k) {
      assert Blocks(root, path, k + 1);
    }
  }

  lemma NoneBelow(root: Node, path: Path)
    ensures !root.Dir? && !root.DirLink? ==> forall k | 0 < k <= |path| :: At(root, path, k) == None
  {
    if !root.Dir? && !root.DirLink? {
      forall k | 0 < k <= |path| ensures At(root, path, k) == None {
        AtTail(root, path, k);
      }
    }
  }

  lemma {:induction false} ScannableIff(n: Node)
    requires IsTree(n)
    ensures Scannable(n) <==> forall rel :: !UnreadableAt(n, rel)
    decreases n
  {
    assert At(n, [], 0) == Some(n);
    if n.Dir? || n.DirLink? {
      AllScannableIff(n.entries);
      forall rel ensures UnreadableAt(n, rel) <==> rel != [] && UnreadableIn(n.entries, rel) {
        UnreadableTail(n, rel);
      }
    } else if n.Unreadable? {
      assert UnreadableAt(n, []);
    } else {
      forall rel ensures !UnreadableAt(n, rel) {
        NoneBelow(n, rel);
      }
    }
  }

  predicate UnreadableIn(es: Entries, rel: Path)
    requires rel != []
  {
    match Named(es, rel[0]) case None => false case Some(child) => !child.DirLink? && UnreadableAt(child, rel[1..])
  }

  lemma UnreadableTail(n: Node, rel: Path)
    requires n.Dir? || n.DirLink?
    ensures UnreadableAt(n, rel) <==> rel != [] && UnreadableIn(n.entries, rel)
  {
    assert At(n, rel, 0) == Some(n);
    if rel != [] {
      forall k | 0 < k <= |rel| ensures At(n, rel, k) ==
        match Named(n.entries, rel[0]) case None => None case Some(child) => At(child, rel[1..], k - 1)
      {
        AtTail(n, rel, k);
      }
      match Named(n.entries, rel[0])
      case None => assert At(n, rel, 1) == None;
      case Some(child) =>
        assert At(n, rel, 1) == At(child, rel[1..], 0) == Some(child);
        if UnreadableIn(n.entries, rel) {
          forall k | 1 <= k <= |rel| ensures At(n, rel, k).Some? && !At(n, rel, k).value.DirLink? {
            assert At(n, rel, k) == At(child, rel[1..], k - 1);
          }
        }
        if UnreadableAt(n, rel) {
          forall k | 1 <= k <= |rel[1..]|
            ensures At(child, rel[1..], k).Some? && !At(child, rel[1..], k).value.DirLink?
          {
            assert At(n, rel, k + 1) == At(child, rel[1..], k);
          }
        }
    }
  }

  lemma {:induction false} AllScannableIff(es: Entries)
    requires AreTrees(es)
    ensures AllScannable(es) <==> forall rel | rel != [] :: !UnreadableIn(es, rel)
    decreases es
  {
    match es
    case Nil =>
    case Cons(name, node, rest) =>
      AllScannableIff(rest);
      ScannableIff(node);
      forall rel | rel != [] ensures UnreadableIn(es, rel) <==>
        if rel[0] == name then !node.DirLink? && UnreadableAt(node, rel[1..]) else UnreadableIn(rest, rel) {
      }
      if rel :| UnreadableAt(node, rel) && !node.DirLink? {
        assert ([name] + rel)[0] == name && ([name] + rel)[1..] == rel;
        assert UnreadableIn(es, [name] + rel);
      }
      if rel :| rel != [] && UnreadableIn(rest, rel) {
        assert rel[0] != name;
        assert UnreadableIn(es, rel);
      }
  }

  /** A scan succeeds if and only if nothing on the way to its path and nothing it visits below fails. */
  lemma CanScanIff(root: Node, path: Path)
    requires IsTree(root)
    ensures CanScan(root, path) <==> Readable(root, path)
  {
    ResolveIsAt(root, path);
    if Resolve(root, path).Found? {
      PartsOfTrees(root, path);
      ScannableIff(Resolve(root, path).node);
    } else if Resolve(root, path).NotFound? && At(root, path, |path|).Some? {
      forall rel ensures !UnreadableAt(Dangling, rel) {
        NoneBelow(Dangling, rel);
        assert At(Dangling, rel, 0) == Some(Dangling);
      }
    }
  }

  /** A file is at a path exactly if going down the path comes to it. */
  lemma FileAtIff(root: Node, p: Path, state: State)
    ensures FileAt(root, p) == Some(state) <==> At(root, p, |p|) == Some(File(state))
  {
    ResolveIsAt(root, p);
    if At(root, p, |p|) == Some(File(state)) {
      forall k | 0 <= k <= |p| ensures !Blocks(root, p, k) {
        if k < |p| {
          AtPrefix(root, p, k, |p|);
        }
      }
    }
  }

  lemma {:induction false} AtPrefix(root: Node, path: Path, k: nat, n: nat)
    requires k < n <= |path| && At(root, path, n).Some?
    ensures At(root, path, k).Some? && (At(root, path, k).value.Dir? || At(root, path, k).value.DirLink?)
    decreases n
  {
    if k < n - 1 {
      AtPrefix(root, path, k, n - 1);
    }
  }

  /** `scan` from a node on. */
  method ScanNode(n: Node, at: Path, files: Snapshot) returns (ok: bool, found: Snapshot)
    ensures ok == Scannable(n)
    ensures ok ==> found == files + Files(n, at)
    decreases n
  {
    ok, found := true, files;
    match n
    case Unreadable => ok := false;
    case Dangling => return;
    case Special => return;
    case File(s) => found := found[at := s];
    case Dir(es) => ok, found := ScanEntries(es, at, files);
    case DirLink(es) => ok, found := ScanEntries(es, at, files);
  }

  method ScanEntries(all: Entries, at: Path, files: Snapshot) returns (ok: bool, found: Snapshot)
    ensures ok == AllScannable(all)
    ensures ok ==> found == files + FilesIn(all, at)
    decreases all
  {
    ok, found := true, files;
    var es := all;
    while es.Cons?
      invariant es == all || es < all
      invariant AllScannable(all) == AllScannable(es)
      invariant found + FilesIn(es, at) == files + FilesIn(all, at)
      decreases es
    {
      if !es.node.DirLink? {
        ghost var before := found;
        ok, found := ScanNode(es.node, at + [es.name], found);
        if !ok { return; }
        MapAssoc(before, Files(es.node, at + [es.name]), FilesIn(es.rest, at));
      } else {
        assert map[] + FilesIn(es.rest, at) == FilesIn(es.rest, at);
      }
      es := es.rest;
    }
  }

  method Scan(root: Node, path: Path, files: Snapshot) returns (ok: bool, found: Snapshot)
    ensures ok == CanScan(root, path)
    ensures ok ==> found == files + Scanned(root, path)
  {
    match Resolve(root, path)
    case NotFound => return true, files;
    case Failed => return false, files;
    case Found(n) => ok, found := ScanNode(n, path, files);
  }

  // The baseline.

  predicate Covered(paths: seq<Path>, p: Path) {
    exists i | 0 <= i < |paths| :: paths[i] <= p
  }

  /** The event that tells a file's change, if it changed. */
  predicate Tells(e: FileEvent, before: Option<State>, now: Option<State>) {
    match e
    case Modify(_) => now.Some? && now != before
    case Remove(_) => now.None? && before.Some?
  }

  /** A baseline after the paths in `done` were replaced by what `now` holds there. */
  ghost predicate Moved(files: Snapshot, before: Snapshot, now: Snapshot, done: set<Path>) {
    forall p :: Get(files, p) == if p in done then Get(now, p) else Get(before, p)
  }

  /** The events `all` are `changed` and those that tell a difference on the paths in `done`. */
  ghost predicate Reported(all: set<FileEvent>, changed: set<FileEvent>, before: Snapshot, now: Snapshot,
                           done: set<Path>) {
    forall e :: e in all <==> (e in changed || (e.path in done && Tells(e, Get(before, e.path), Get(now, e.path))))
  }

  /** What is reported for one file. */
  function Told(file: Path, before: Option<State>, now: Option<State>): (events: set<FileEvent>)
    ensures forall e :: e in events <==> e.path == file && Tells(e, before, now)
  {
    if now.Some? && now != before then {Modify(file)}
    else if now.None? && before.Some? then {Remove(file)}
    else {}
  }

  function Put(files: Snapshot, file: Path, state: Option<State>): Snapshot {
    if state.Some? then files[file := state.value] else files - {file}
  }

  lemma MovedOne(files: Snapshot, before: Snapshot, now: Snapshot, done: set<Path>, file: Path)
    requires Moved(files, before, now, done)
    ensures Moved(Put(files, file, Get(now, file)), before, now, done + {file})
    ensures file !in done ==> Get(files, file) == Get(before, file)
  {
  }

  lemma ReportedOne(all: set<FileEvent>, changed: set<FileEvent>, before: Snapshot, now: Snapshot, done: set<Path>,
                    file: Path)
    requires Reported(all, changed, before, now, done)
    ensures Reported(all + Told(file, Get(before, file), Get(now, file)), changed, before, now, done + {file})
  {
  }

  /** What is still to be placed of `now`. */
  ghost predicate Remains(current: Snapshot, now: Snapshot, done: set<Path>) {
    forall p :: Get(current, p) == if p in done then None else Get(now, p)
  }

  lemma RemainsOne(current: Snapshot, now: Snapshot, done: set<Path>, file: Path)
    requires Remains(current, now, done)
    ensures Remains(current - {file}, now, done + {file})
    ensures file !in done ==> Get(current, file) == Get(now, file)
  {
  }

  lemma NothingDone(files: Snapshot, now: Snapshot, changed: set<FileEvent>)
    ensures Moved(files, files, now, {}) && Reported(changed, changed, files, now, {}) && Remains(now, now, {})
  {
  }

  lemma NothingLeft(all: set<Path>)
    ensures all - all == {}
  {
  }

  lemma NoneLeft(all: set<Path>)
    ensures all - {} == all
  {
  }

  lemma OneLess(all: set<Path>, todo: set<Path>, file: Path)
    requires file in todo && todo <= all
    ensures file !in all - todo && (all - todo) + {file} == all - (todo - {file})
  {
  }

  lemma StillIn(files: Snapshot, todo: set<Path>, file: Path, state: Option<State>)
    requires todo <= files.Keys && file !in todo
    ensures todo <= Put(files, file, state).Keys
  {
  }

  lemma SetAssoc(a: set<Path>, b: set<Path>, c: set<Path>)
    ensures a + b + c == a + (b + c)
  {
  }

  lemma Unseen(current: Snapshot, now: Snapshot, previous: set<Path>, before: Snapshot, file: Path)
    requires Remains(current, now, previous) && file in current && current.Keys !! before.Keys
    ensures Get(now, file) == Some(current[file]) && Get(before, file) == None
    ensures Told(file, Get(before, file), Get(now, file)) == {Modify(file)}
  {
    assert Get(current, file) == Some(current[file]);
  }

  lemma InsertOne(files: Snapshot, current: Snapshot, all: set<FileEvent>, told: set<FileEvent>, before: Snapshot,
                  now: Snapshot, previous: set<Path>, done: set<Path>, file: Path)
    requires Moved(files, before, now, previous + done)
    requires Reported(all, told, before, now, previous + done)
    requires Remains(current, now, previous) && current.Keys !! before.Keys && file in current
    ensures Moved(files[file := current[file]], before, now, previous + (done + {file}))
    ensures Reported(all + {Modify(file)}, told, before, now, previous + (done + {file}))
  {
    hide Moved;
    hide Reported;
    hide Remains;
    hide Told;
    Unseen(current, now, previous, before, file);
    MovedOne(files, before, now, previous + done, file);
    ReportedOne(all, told, before, now, previous + done, file);
    SetAssoc(previous, done, {file});
  }

  /** The files of a snapshot at or below a path. */
  function Below(files: Snapshot, path: Path): set<Path> {
    set p | p in files && path <= p
  }

  lemma RestIsNew(current: Snapshot, now: Snapshot, path: Path, before: Snapshot)
    requires Remains(current, now, Below(before, path)) && forall p | p in now :: path <= p
    ensures Below(before, path) + current.Keys == Below(before, path) + now.Keys
    ensures current.Keys !! before.Keys
  {
    var previous := Below(before, path);
    forall p ensures p in current <==> p in now && p !in previous {
      assert Get(current, p) == if p in previous then None else Get(now, p);
    }
  }

  // What a batch does, path by path.

  /** What the baseline holds at `p` after scans of the given paths: what the last of those above `p`
      saw. */
  function After(before: Snapshot, root: Node, paths: seq<Path>, p: Path): Option<State>
    decreases |paths|
  {
    if paths == [] then Get(before, p)
    else
      var last := paths[|paths| - 1];
      if last <= p then Seen(root, last, p) else After(before, root, paths[..|paths| - 1], p)
  }

  /** Some scan sees `e.path` otherwise than it was seen before it. */
  predicate ToldBy(e: FileEvent, before: Snapshot, root: Node, paths: seq<Path>)
    decreases |paths|
  {
    paths != [] &&
    var front, last := paths[..|paths| - 1], paths[|paths| - 1];
    ToldBy(e, before, root, front)
    || (last <= e.path && Tells(e, After(before, root, front, e.path), Seen(root, last, e.path)))
  }

  ghost predicate Leaves(files: Snapshot, before: Snapshot, root: Node, paths: seq<Path>) {
    forall p :: Get(files, p) == After(before, root, paths, p)
  }

  ghost predicate Reports(changed: set<FileEvent>, before: Snapshot, root: Node, paths: seq<Path>) {
    forall e :: e in changed <==> ToldBy(e, before, root, paths)
  }

  ghost predicate IsScan(now: Snapshot, root: Node, path: Path) {
    forall p :: Get(now, p) == Seen(root, path, p)
  }

  lemma ScanBelow(now: Snapshot, root: Node, path: Path)
    requires IsScan(now, root, path)
    ensures forall p | p in now :: path <= p
  {
    forall p | p in now ensures path <= p {
      assert Get(now, p).Some?;
    }
  }

  /** What one replacement leaves, path by path. */
  lemma PlacedAt(files: Snapshot, was: Snapshot, now: Snapshot, root: Node, path: Path, p: Path)
    requires IsScan(now, root, path) && Moved(files, was, now, Below(was, path) + now.Keys)
    ensures Get(files, p) == if path <= p then Seen(root, path, p) else Get(was, p)
  {
    hide Seen;
    ScanBelow(now, root, path);
    assert Get(now, p) == Seen(root, path, p);
  }

  lemma Snoc(paths: seq<Path>, path: Path)
    ensures var all := paths + [path]; all[..|all| - 1] == paths && all[|all| - 1] == path
  {
  }

  lemma LeavesOneMore(files: Snapshot, was: Snapshot, before: Snapshot, now: Snapshot, root: Node, paths: seq<Path>,
                      path: Path)
    requires IsScan(now, root, path) && Moved(files, was, now, Below(was, path) + now.Keys)
    requires Leaves(was, before, root, paths)
    ensures Leaves(files, before, root, paths + [path])
  {
    hide IsScan;
    hide Moved;
    hide Seen;
    Snoc(paths, path);
    forall p ensures Get(files, p) == After(before, root, paths + [path], p) {
      PlacedAt(files, was, now, root, path, p);
    }
  }

  lemma ToldAt(e: FileEvent, was: Snapshot, now: Snapshot, root: Node, path: Path)
    requires IsScan(now, root, path)
    ensures e.path in Below(was, path) + now.Keys && Tells(e, Get(was, e.path), Get(now, e.path))
       <==> path <= e.path && Tells(e, Get(was, e.path), Seen(root, path, e.path))
  {
    ScanBelow(now, root, path);
    hide Seen;
    assert Get(now, e.path) == Seen(root, path, e.path);
  }

  lemma ReportsOneMore(all: set<FileEvent>, changed: set<FileEvent>, was: Snapshot, before: Snapshot, now: Snapshot,
                       root: Node, paths: seq<Path>, path: Path)
    requires IsScan(now, root, path) && Reported(all, changed, was, now, Below(was, path) + now.Keys)
    requires Leaves(was, before, root, paths) && Reports(changed, before, root, paths)
    ensures Reports(all, before, root, paths + [path])
  {
    hide IsScan;
    hide Seen;
    hide Below;
    Snoc(paths, path);
    forall e: FileEvent ensures e in all <==> ToldBy(e, before, root, paths + [path]) {
      ToldAt(e, was, now, root, path);
      assert Get(was, e.path) == After(before, root, paths, e.path);
    }
  }

  lemma SeededOneMore(files: Snapshot, root: Node, paths: seq<Path>, path: Path, all: Snapshot)
    requires IsTree(root) && CanScan(root, path) && Seeded(files, root, paths) && all == files + Scanned(root, path)
    ensures Seeded(all, root, paths + [path])
  {
    hide FileAt;
    hide Scanned;
    hide Seen;
    hide HiddenFrom;
    hide IsTree;
    hide CanScan;
    Snoc(paths, path);
    forall p ensures Get(all, p) == if SeenByAny(root, paths + [path], p) then FileAt(root, p) else None {
      ScannedIsSeen(root, path, p);
      SeenIsBelow(root, path, p);
      if path <= p {
        SeenIsFileIff(root, path, p);
      }
      assert Get(files, p) == if SeenByAny(root, paths, p) then FileAt(root, p) else None;
      assert Get(all, p) == if Get(Scanned(root, path), p).Some? then Get(Scanned(root, path), p) else Get(files, p);
    }
  }

  lemma SeenIsBelow(root: Node, path: Path, p: Path)
    ensures Seen(root, path, p).Some? ==> path <= p
  {
  }

  /** Some of the scans sees a file. */
  predicate SeenByAny(root: Node, paths: seq<Path>, p: Path)
    decreases |paths|
  {
    paths != [] && (SeenByAny(root, paths[..|paths| - 1], p) || Seen(root, paths[|paths| - 1], p).Some?)
  }

  ghost predicate Seeded(files: Snapshot, root: Node, paths: seq<Path>) {
    forall p :: Get(files, p) == if SeenByAny(root, paths, p) then FileAt(root, p) else None
  }

  class ContentChanges {
    var files: Snapshot

    constructor ()
      ensures files == map[]
    {
      files := map[];
    }

    /** The first look, before any event: the files below the watched roots. */
    method Seed(root: Node, roots: seq<Path>) returns (ok: bool)
      requires IsTree(root) && files == map[]
      modifies this
      ensures ok <==> forall i | 0 <= i < |roots| :: Readable(root, roots[i])
      ensures ok ==> Seeded(files, root, roots)
    {
      assert Seeded(map[], root, []);
      assert roots[..0] == [];
      for i := 0 to |roots|
        invariant forall k | 0 <= k < i :: Readable(root, roots[k])
        invariant Seeded(files, root, roots[..i])
      {
        hide *;
        ghost var before := files;
        CanScanIff(root, roots[i]);
        ok, files := Scan(root, roots[i], files);
        if !ok { return; }
        assert roots[..i + 1] == roots[..i] + [roots[i]];
        SeededOneMore(before, root, roots[..i], roots[i], files);
      }
      assert roots[..|roots|] == roots;
      ok := true;
    }

    /** One file that was known before. */
    method ReplaceOne(file: Path, current: Snapshot, changed: set<FileEvent>)
      returns (left: Snapshot, all: set<FileEvent>)
      requires file in files
      modifies this
      ensures files == Put(old(files), file, Get(current, file))
      ensures left == current - {file}
      ensures all == changed + Told(file, Get(old(files), file), Get(current, file))
    {
      left, all := current, changed;
      var previous := files[file];
      files := files - {file};
      if file in current {
        var state := current[file];
        left := left - {file};
        if state != previous {
          all := all + {Modify(file)};
        }
        files := files[file := state];
      } else {
        all := all + {Remove(file)};
      }
    }

    method ReplaceKnown(previous: set<Path>, now: Snapshot, changed: set<FileEvent>)
      returns (current: Snapshot, all: set<FileEvent>)
      requires previous <= files.Keys
      modifies this
      ensures Moved(files, old(files), now, previous)
      ensures Reported(all, changed, old(files), now, previous)
      ensures Remains(current, now, previous)
    {
      all, current := changed, now;
      var todo := previous;
      NothingLeft(previous);
      NothingDone(files, now, changed);
      while todo != {}
        invariant todo <= previous && todo <= files.Keys
        invariant Moved(files, old(files), now, previous - todo)
        invariant Reported(all, changed, old(files), now, previous - todo)
        invariant Remains(current, now, previous - todo)
        decreases |todo|
      {
        hide *;
        ghost var was, done := todo, previous - todo;
        var file;
        file, todo := TakeOne(todo);
        OneLess(previous, was, file);
        MovedOne(files, old(files), now, done, file);
        ReportedOne(all, changed, old(files), now, done, file);
        RemainsOne(current, now, done, file);
        StillIn(files, todo, file, Get(now, file));
        current, all := ReplaceOne(file, current, all);
      }
      NoneLeft(previous);
    }

    method InsertNew(current: Snapshot, changed: set<FileEvent>, ghost told: set<FileEvent>, ghost before: Snapshot,
                     ghost now: Snapshot, ghost previous: set<Path>) returns (all: set<FileEvent>)
      requires Moved(files, before, now, previous)
      requires Reported(changed, told, before, now, previous)
      requires Remains(current, now, previous)
      requires current.Keys !! before.Keys
      modifies this
      ensures Moved(files, before, now, previous + current.Keys)
      ensures Reported(all, told, before, now, previous + current.Keys)
    {
      hide *;
      all := changed;
      var todo := current.Keys;
      NothingLeft(current.Keys);
      assert previous + {} == previous;
      while todo != {}
        invariant todo <= current.Keys
        invariant Moved(files, before, now, previous + (current.Keys - todo))
        invariant Reported(all, told, before, now, previous + (current.Keys - todo))
        decreases |todo|
      {
        var file;
        ghost var was, done := todo, current.Keys - todo;
        file, todo := TakeOne(todo);
        OneLess(current.Keys, was, file);
        InsertOne(files, current, all, told, before, now, previous, done, file);
        all := all + {Modify(file)};
        files := files[file := current[file]];
      }
      NoneLeft(current.Keys);
    }

    /** One event: the baseline below its path becomes what is there now. */
    method Replace(path: Path, now: Snapshot, changed: set<FileEvent>)
      returns (all: set<FileEvent>, ghost done: set<Path>)
      requires forall p | p in now :: path <= p
      modifies this
      ensures done == Below(old(files), path) + now.Keys
      ensures Moved(files, old(files), now, done)
      ensures Reported(all, changed, old(files), now, done)
    {
      hide Moved;
      hide Reported;
      var previous := Below(files, path);
      ghost var before := files;
      var current;
      current, all := ReplaceKnown(previous, now, changed);
      done := previous + now.Keys;
      RestIsNew(current, now, path, before);
      all := InsertNew(current, all, changed, before, now, previous);
    }

    /** A whole batch; events below one another are allowed. A path that cannot be scanned ends it, and
        nothing is reported then. */
    method Observe(root: Node, events: seq<FileEvent>) returns (ok: bool, changed: set<FileEvent>, ghost done: nat)
      requires IsTree(root)
      modifies this
      ensures done <= |events| && ok == (done == |events|)
      ensures ok <==> forall i | 0 <= i < |events| :: Readable(root, events[i].path)
      ensures forall i | 0 <= i < done :: CanScan(root, events[i].path)
      ensures !ok ==> !CanScan(root, events[done].path) && changed == {}
      ensures Leaves(files, old(files), root, Paths(events[..done]))
      ensures ok ==> Reports(changed, old(files), root, Paths(events))
    {
      hide Leaves;
      hide Reports;
      hide Readable;
      changed := {};
      NoEvents(files, root);
      assert events[..0] == [];
      done := 0;
      for i := 0 to |events|
        invariant done == i
        invariant forall k | 0 <= k < i :: CanScan(root, events[k].path) && Readable(root, events[k].path)
        invariant Leaves(files, old(files), root, Paths(events[..i]))
        invariant Reports(changed, old(files), root, Paths(events[..i]))
      {
        hide CanScan;
        hide Moved;
        hide Reported;
        hide Below;
        var path := events[i].path;
        var now;
        CanScanIff(root, path);
        ok, now := Scan(root, path, map[]);
        if !ok { return ok, {}, done; }
        ScanIsScan(root, path, now);
        ScanBelow(now, root, path);
        ghost var was, told := files, changed;
        ghost var touched;
        changed, touched := Replace(path, now, changed);
        assert events[..i + 1] == events[..i] + [events[i]];
        PathsSnoc(events[..i], events[i]);
        LeavesOneMore(files, was, old(files), now, root, Paths(events[..i]), path);
        ReportsOneMore(changed, told, was, old(files), now, root, Paths(events[..i]), path);
        done := i + 1;
      }
      assert events[..|events|] == events;
      ok := true;
    }
  }

  function Paths(events: seq<FileEvent>): seq<Path> {
    seq(|events|, i requires 0 <= i < |events| => events[i].path)
  }

  lemma PathsSnoc(events: seq<FileEvent>, e: FileEvent)
    ensures Paths(events + [e]) == Paths(events) + [e.path]
  {
  }

  lemma NoEvents(files: Snapshot, root: Node)
    ensures Leaves(files, files, root, Paths([])) && Reports({}, files, root, Paths([]))
  {
  }

  lemma ScanIsScan(root: Node, path: Path, now: Snapshot)
    requires IsTree(root) && CanScan(root, path) && now == map[] + Scanned(root, path)
    ensures IsScan(now, root, path)
  {
    assert now == Scanned(root, path);
    forall p ensures Get(now, p) == Seen(root, path, p) {
      ScannedIsSeen(root, path, p);
    }
  }

  // Agreement with the tree.

  /** The last of the paths above `p`. */
  function LastCover(paths: seq<Path>, p: Path): (i: nat)
    requires Covered(paths, p)
    ensures i < |paths| && paths[i] <= p && forall j | i < j < |paths| :: !(paths[j] <= p)
    decreases |paths|
  {
    var n := |paths| - 1;
    if paths[n] <= p then n
    else
      assert Covered(paths[..n], p) by {
        var i :| 0 <= i < |paths| && paths[i] <= p;
        assert paths[..n][i] <= p;
      }
      LastCover(paths[..n], p)
  }

  lemma {:induction false} AfterIsLast(before: Snapshot, root: Node, paths: seq<Path>, p: Path)
    ensures After(before, root, paths, p)
         == if Covered(paths, p) then Seen(root, paths[LastCover(paths, p)], p) else Get(before, p)
    decreases |paths|
  {
    if paths != [] {
      var n := |paths| - 1;
      assert forall i | 0 <= i < n :: paths[..n][i] == paths[i];
      AfterIsLast(before, root, paths[..n], p);
      if Covered(paths[..n], p) {
        var i :| 0 <= i < n && paths[..n][i] <= p;
        assert paths[i] <= p;
      }
    }
  }

  /** The baseline agrees with the tree below the given paths, and is as before elsewhere. */
  ghost predicate Agrees(files: Snapshot, before: Snapshot, root: Node, paths: seq<Path>) {
    forall p :: Get(files, p) == if Covered(paths, p) then FileAt(root, p) else Get(before, p)
  }

  predicate CanScanAll(root: Node, paths: seq<Path>) {
    forall i | 0 <= i < |paths| :: CanScan(root, paths[i])
  }

  /** A batch leaves the baseline in agreement with the tree exactly when no covered file is hidden by a
      directory symlink from the last path that covers it. */
  lemma AgreesIff(files: Snapshot, before: Snapshot, root: Node, paths: seq<Path>)
    requires Leaves(files, before, root, paths) && CanScanAll(root, paths)
    ensures Agrees(files, before, root, paths) <==>
      forall p | Covered(paths, p) && FileAt(root, p).Some? :: !HiddenFrom(root, paths[LastCover(paths, p)], p)
  {
    forall p ensures Get(files, p) == After(before, root, paths, p) {
    }
    forall p | Covered(paths, p)
      ensures Get(files, p) == FileAt(root, p)
         <==> !(FileAt(root, p).Some? && HiddenFrom(root, paths[LastCover(paths, p)], p))
    {
      AfterIsLast(before, root, paths, p);
      SeenIsFileIff(root, paths[LastCover(paths, p)], p);
    }
    forall p | !Covered(paths, p) ensures Get(files, p) == Get(before, p) {
      AfterIsLast(before, root, paths, p);
    }
  }

  // What a batch tells.

  /** The changes told are those between the baseline and the tree, below the given paths. */
  ghost predicate ReportsExactly(changed: set<FileEvent>, before: Snapshot, root: Node, paths: seq<Path>) {
    forall e :: e in changed <==> Covered(paths, e.path) && Tells(e, Get(before, e.path), FileAt(root, e.path))
  }

  predicate HidesAt(root: Node, paths: seq<Path>, p: Path, i: nat)
    requires i < |paths|
  {
    paths[i] <= p && HiddenFrom(root, paths[i], p)
  }

  predicate ShowsAt(root: Node, paths: seq<Path>, p: Path, i: nat)
    requires i < |paths|
  {
    paths[i] <= p && !HiddenFrom(root, paths[i], p)
  }

  predicate Shown(root: Node, paths: seq<Path>, p: Path) {
    exists i | 0 <= i < |paths| :: ShowsAt(root, paths, p, i)
  }

  predicate HiddenOnce(root: Node, paths: seq<Path>, p: Path) {
    exists i | 0 <= i < |paths| :: HidesAt(root, paths, p, i)
  }

  /** No path hides a file that the baseline or an earlier path has shown. */
  predicate Keeps(known: bool, root: Node, paths: seq<Path>, p: Path) {
    (known ==> !HiddenOnce(root, paths, p))
    && forall i, j | 0 <= j < i < |paths| && ShowsAt(root, paths, p, j) :: !HidesAt(root, paths, p, i)
  }

  /** What one more path adds to the predicates above. */
  lemma OneMorePath(known: bool, root: Node, paths: seq<Path>, p: Path)
    requires paths != []
    ensures var front, n := paths[..|paths| - 1], |paths| - 1;
      (Covered(paths, p) <==> Covered(front, p) || paths[n] <= p)
      && (Shown(root, paths, p) <==> Shown(root, front, p) || ShowsAt(root, paths, p, n))
      && (HiddenOnce(root, paths, p) <==> HiddenOnce(root, front, p) || HidesAt(root, paths, p, n))
      && (Keeps(known, root, paths, p)
          <==> Keeps(known, root, front, p) && (HidesAt(root, paths, p, n) ==> !known && !Shown(root, front, p)))
  {
    hide HiddenFrom;
    var front, n := paths[..|paths| - 1], |paths| - 1;
    forall i | 0 <= i < n
      ensures front[i] == paths[i]
      ensures ShowsAt(root, front, p, i) == ShowsAt(root, paths, p, i)
      ensures HidesAt(root, front, p, i) == HidesAt(root, paths, p, i)
    {
    }
    assert Covered(front, p) ==> Covered(paths, p) by {
      if i :| 0 <= i < n && front[i] <= p {
        assert paths[i] <= p;
      }
    }
    assert Covered(paths, p) && !(paths[n] <= p) ==> Covered(front, p) by {
      if i :| 0 <= i < n && paths[i] <= p {
        assert front[i] <= p;
      }
    }
  }

  lemma ScansOfFront(root: Node, paths: seq<Path>)
    requires CanScanAll(root, paths) && paths != []
    ensures CanScanAll(root, paths[..|paths| - 1]) && CanScan(root, paths[|paths| - 1])
  {
    hide CanScan;
    var front := paths[..|paths| - 1];
    forall i | 0 <= i < |front| ensures CanScan(root, front[i]) {
      assert CanScan(root, paths[i]);
    }
  }

  /** A file that is gone is told once, if it was known. */
  lemma {:induction false} GoneIsTold(before: Snapshot, root: Node, paths: seq<Path>, p: Path)
    requires CanScanAll(root, paths) && FileAt(root, p) == None
    ensures After(before, root, paths, p) == if Covered(paths, p) then None else Get(before, p)
    ensures ToldBy(Remove(p), before, root, paths) <==> Covered(paths, p) && p in before
    ensures !ToldBy(Modify(p), before, root, paths)
    decreases |paths|
  {
    hide HiddenFrom;
    hide Seen;
    hide CanScan;
    if paths != [] {
      var front, last := paths[..|paths| - 1], paths[|paths| - 1];
      ScansOfFront(root, paths);
      OneMorePath(false, root, paths, p);
      GoneIsTold(before, root, front, p);
      if last <= p {
        SeenIsFileIff(root, last, p);
      }
    }
  }

  /** A file that is there is told to be gone exactly when some path loses sight of it; otherwise it is
      told exactly if some path shows it other than it was. */
  lemma {:induction false} PresentIsTold(before: Snapshot, root: Node, paths: seq<Path>, p: Path)
    requires CanScanAll(root, paths) && FileAt(root, p).Some?
    ensures ToldBy(Remove(p), before, root, paths) <==> !Keeps(p in before, root, paths, p)
    ensures Keeps(p in before, root, paths, p) ==>
      After(before, root, paths, p) == (if Shown(root, paths, p) then FileAt(root, p) else Get(before, p))
      && (ToldBy(Modify(p), before, root, paths) <==> Shown(root, paths, p) && Get(before, p) != FileAt(root, p))
    decreases |paths|
  {
    hide HiddenFrom;
    hide FileAt;
    hide Seen;
    hide CanScan;
    hide CanScanAll;
    if paths != [] {
      hide HiddenOnce;
      hide Shown;
      hide Keeps;
      var front, last := paths[..|paths| - 1], paths[|paths| - 1];
      ScansOfFront(root, paths);
      OneMorePath(p in before, root, paths, p);
      PresentIsTold(before, root, front, p);
      if last <= p {
        SeenIsFileIff(root, last, p);
      }
    }
  }

  /** Every covered file that is there is hidden, if at all, only at first, only when it was not known,
      and not from the last path that covers it. */
  ghost predicate Steady(before: Snapshot, root: Node, paths: seq<Path>) {
    forall p | Covered(paths, p) && FileAt(root, p).Some? ::
      Keeps(p in before, root, paths, p) && !HiddenFrom(root, paths[LastCover(paths, p)], p)
  }

  lemma ExactAt(changed: set<FileEvent>, before: Snapshot, root: Node, paths: seq<Path>, p: Path)
    requires Reports(changed, before, root, paths) && CanScanAll(root, paths)
    ensures (forall e: FileEvent | e.path == p ::
              e in changed <==> Covered(paths, p) && Tells(e, Get(before, p), FileAt(root, p)))
       <==> (Covered(paths, p) && FileAt(root, p).Some? ==>
              Keeps(p in before, root, paths, p) && !HiddenFrom(root, paths[LastCover(paths, p)], p))
  {
    hide HiddenFrom;
    hide FileAt;
    hide CanScan;
    hide ToldBy;
    assert Modify(p) in changed <==> ToldBy(Modify(p), before, root, paths);
    assert Remove(p) in changed <==> ToldBy(Remove(p), before, root, paths);
    if FileAt(root, p).None? {
      GoneIsTold(before, root, paths, p);
    } else {
      PresentIsTold(before, root, paths, p);
      if Covered(paths, p) {
        var i := LastCover(paths, p);
        assert HidesAt(root, paths, p, i) == HiddenFrom(root, paths[i], p);
        assert ShowsAt(root, paths, p, i) == !HiddenFrom(root, paths[i], p);
        if HidesAt(root, paths, p, i) && Keeps(p in before, root, paths, p) {
          assert p !in before && !Shown(root, paths, p);
        }
      } else {
        assert !Shown(root, paths, p) && !HiddenOnce(root, paths, p);
      }
    }
  }

  /** A batch tells exactly the changes below its paths if and only if no directory symlink makes it
      lose sight of a file. */
  lemma ReportsExactlyIff(changed: set<FileEvent>, before: Snapshot, root: Node, paths: seq<Path>)
    requires Reports(changed, before, root, paths) && CanScanAll(root, paths)
    ensures ReportsExactly(changed, before, root, paths) <==> Steady(before, root, paths)
  {
    hide HiddenFrom;
    hide FileAt;
    hide CanScan;
    hide Reports;
    hide Keeps;
    forall p ensures
      (forall e: FileEvent | e.path == p ::
        e in changed <==> Covered(paths, p) && Tells(e, Get(before, p), FileAt(root, p)))
      <==> (Covered(paths, p) && FileAt(root, p).Some? ==>
        Keeps(p in before, root, paths, p) && !HiddenFrom(root, paths[LastCover(paths, p)], p))
    {
      ExactAt(changed, before, root, paths, p);
    }
  }

  /** Without directory symlinks every batch that succeeds agrees with the tree and tells exactly what
      changed. */
  lemma WithoutLinks(files: Snapshot, changed: set<FileEvent>, before: Snapshot, root: Node, paths: seq<Path>)
    requires IsTree(root) && NoLinks(root) && CanScanAll(root, paths)
    requires Leaves(files, before, root, paths) && Reports(changed, before, root, paths)
    ensures Agrees(files, before, root, paths) && ReportsExactly(changed, before, root, paths)
  {
    forall path, p ensures !HiddenFrom(root, path, p) {
      if path <= p && Resolve(root, path).Found? {
        PartsOfTrees(root, path);
        NothingHidden(Resolve(root, path).node, p[|path|..]);
      }
    }
    hide *;
    assert Steady(before, root, paths) by {
      NeverHidden(before, root, paths);
    }
    ReportsExactlyIff(changed, before, root, paths);
    AgreesIff(files, before, root, paths);
  }

  lemma NeverHidden(before: Snapshot, root: Node, paths: seq<Path>)
    requires forall path, p :: !HiddenFrom(root, path, p)
    ensures Steady(before, root, paths)
  {
    hide HiddenFrom;
  }

  /** Each file is then told at most once, as changed or as gone. */
  lemma ReportedOnce(before: Snapshot, root: Node, paths: seq<Path>, changed: set<FileEvent>, p: Path)
    requires ReportsExactly(changed, before, root, paths)
    ensures !(Modify(p) in changed && Remove(p) in changed)
    ensures (Modify(p) in changed || Remove(p) in changed) <==> Covered(paths, p) && Get(before, p) != FileAt(root, p)
  {
    assert Modify(p).path == p && Remove(p).path == p;
  }

  /** A known file that has gone from a directory that is there: the batch of its own removal succeeds,
      reports it, and forgets it. */
  lemma GoneIsReported(files: Snapshot, root: Node, dir: Path, name: string)
    requires IsTree(root) && dir + [name] in files
    requires var n := At(root, dir, |dir|); n.Some? && n.value.Dir? && Named(n.value.entries, name).None?
    ensures var p := dir + [name]; var paths := [p];
      Readable(root, p) && ToldBy(Remove(p), files, root, paths) && After(files, root, paths, p) == None
  {
    var p := dir + [name];
    var paths := [p];
    forall k | 0 <= k <= |dir| ensures At(root, p, k) == At(root, dir, k) {
      AtSame(root, p, dir, k);
    }
    forall k | 0 <= k <= |p| ensures !Blocks(root, p, k) {
      if k < |dir| {
        AtPrefix(root, dir, k, |dir|);
      }
    }
    assert At(root, p, |p|) == None;
    CanScanIff(root, p);
    if FileAt(root, p).Some? {
      FileAtIff(root, p, FileAt(root, p).value);
    }
    assert CanScanAll(root, paths) && p <= p && Covered(paths, p) by {
      assert paths[0] <= p;
    }
    GoneIsTold(files, root, paths, p);
  }

  lemma {:induction false} AtSame(root: Node, path: Path, dir: Path, k: nat)
    requires k <= |dir| <= |path| && path[..|dir|] == dir
    ensures At(root, path, k) == At(root, dir, k)
    decreases k
  {
    if k > 0 {
      AtSame(root, path, dir, k - 1);
      assert path[k - 1] == path[..|dir|][k - 1];
    }
  }

  // The same batch again.

  /** Every covered file that is there is hidden from all the paths that cover it, or from none. */
  ghost predicate OneView(root: Node, paths: seq<Path>) {
    forall p | FileAt(root, p).Some? :: !(Shown(root, paths, p) && HiddenOnce(root, paths, p))
  }

  lemma QuietAt(files: Snapshot, before: Snapshot, root: Node, paths: seq<Path>, p: Path)
    requires Leaves(files, before, root, paths) && CanScanAll(root, paths)
    ensures ToldBy(Modify(p), files, root, paths) || ToldBy(Remove(p), files, root, paths) <==>
      FileAt(root, p).Some? && Shown(root, paths, p) && HiddenOnce(root, paths, p)
  {
    hide HiddenFrom;
    hide FileAt;
    hide CanScan;
    hide ToldBy;
    assert Get(files, p) == After(before, root, paths, p);
    AfterIsLast(before, root, paths, p);
    if FileAt(root, p).None? {
      GoneIsTold(files, root, paths, p);
      GoneIsTold(before, root, paths, p);
    } else {
      PresentIsTold(files, root, paths, p);
      if Covered(paths, p) {
        var i := LastCover(paths, p);
        SeenIsFileIff(root, paths[i], p);
        assert HidesAt(root, paths, p, i) == HiddenFrom(root, paths[i], p);
        assert ShowsAt(root, paths, p, i) == !HiddenFrom(root, paths[i], p);
      } else {
        assert !Shown(root, paths, p) && !HiddenOnce(root, paths, p);
      }
    }
  }

  /** The same batch again, with nothing changed between, tells nothing if and only if no file is hidden
      from one of its paths and shown by another. */
  lemma SecondLookIsQuietIff(files: Snapshot, before: Snapshot, root: Node, paths: seq<Path>, changed: set<FileEvent>)
    requires Leaves(files, before, root, paths) && Reports(changed, files, root, paths) && CanScanAll(root, paths)
    ensures changed == {} <==> OneView(root, paths)
  {
    hide *;
    forall p ensures
      (Modify(p) in changed || Remove(p) in changed)
      <==> FileAt(root, p).Some? && Shown(root, paths, p) && HiddenOnce(root, paths, p)
    {
      QuietAt(files, before, root, paths, p);
      InReport(changed, files, root, paths, Modify(p));
      InReport(changed, files, root, paths, Remove(p));
    }
    SomeEvent(changed);
    ViewOf(root, paths);
  }

  lemma InReport(changed: set<FileEvent>, before: Snapshot, root: Node, paths: seq<Path>, e: FileEvent)
    requires Reports(changed, before, root, paths)
    ensures e in changed <==> ToldBy(e, before, root, paths)
  {
  }

  lemma SomeEvent(changed: set<FileEvent>)
    ensures changed == {} <==> forall p: Path :: Modify(p) !in changed && Remove(p) !in changed
  {
    if e :| e in changed {
      assert e == Modify(e.path) || e == Remove(e.path);
    }
  }

  lemma ViewOf(root: Node, paths: seq<Path>)
    ensures OneView(root, paths) <==>
      forall p :: !(FileAt(root, p).Some? && Shown(root, paths, p) && HiddenOnce(root, paths, p))
  {
    hide Shown;
    hide HiddenOnce;
    hide FileAt;
  }

  /** What an earlier path told stays told. */
  lemma {:induction false} TellsOn(e: FileEvent, before: Snapshot, root: Node, paths: seq<Path>, n: nat)
    requires n <= |paths| && ToldBy(e, before, root, paths[..n])
    ensures ToldBy(e, before, root, paths)
    decreases |paths|
  {
    if n == |paths| {
      assert paths[..n] == paths;
    } else {
      assert paths[..|paths| - 1][..n] == paths[..n];
      TellsOn(e, before, root, paths[..|paths| - 1], n);
    }
  }

  /** A file that ends up in the baseline was told, if it was not there before or was lost on the way. */
  lemma {:induction false} FoundIsTold(before: Snapshot, root: Node, paths: seq<Path>, p: Path)
    requires CanScanAll(root, paths) && FileAt(root, p).Some? && After(before, root, paths, p) == FileAt(root, p)
    requires Get(before, p) != FileAt(root, p) || HiddenOnce(root, paths, p)
    ensures ToldBy(Modify(p), before, root, paths)
    decreases |paths|
  {
    hide HiddenFrom;
    hide FileAt;
    hide Seen;
    hide CanScan;
    hide CanScanAll;
    if paths != [] {
      var front, last := paths[..|paths| - 1], paths[|paths| - 1];
      ScansOfFront(root, paths);
      OneMorePath(false, root, paths, p);
      hide HiddenOnce;
      if last <= p {
        SeenIsFileIff(root, last, p);
      }
      if After(before, root, front, p) == FileAt(root, p) {
        FoundIsTold(before, root, front, p);
      }
    }
  }

  /** A file that one path of a batch hides and another shows is told to be gone and told to have changed
      by every repetition of the batch, although nothing happens to it. */
  lemma MixedFlaps(files: Snapshot, before: Snapshot, root: Node, paths: seq<Path>, p: Path)
    requires Leaves(files, before, root, paths) && CanScanAll(root, paths)
    requires FileAt(root, p).Some? && Shown(root, paths, p) && HiddenOnce(root, paths, p)
    ensures ToldBy(Remove(p), files, root, paths) && ToldBy(Modify(p), files, root, paths)
  {
    hide HiddenFrom;
    hide FileAt;
    hide CanScan;
    hide ToldBy;
    assert Get(files, p) == After(before, root, paths, p);
    AfterIsLast(before, root, paths, p);
    AfterIsLast(files, root, paths, p);
    QuietAt(files, before, root, paths, p);
    PresentIsTold(files, root, paths, p);
    var j :| 0 <= j < |paths| && ShowsAt(root, paths, p, j);
    assert Covered(paths, p);
    var i := LastCover(paths, p);
    SeenIsFileIff(root, paths[i], p);
    if HiddenFrom(root, paths[i], p) {
      var some := paths[..j + 1];
      assert CanScanAll(root, some);
      assert some[|some| - 1] == paths[j];
      SeenIsFileIff(root, paths[j], p);
      FoundIsTold(files, root, some, p);
      TellsOn(Modify(p), files, root, paths, j + 1);
    } else {
      FoundIsTold(files, root, paths, p);
    }
  }

  /** A directory symlink below a covered directory, itself named by an event: with every such batch the
      file behind it is told to be gone and to have changed, and is back in the baseline. */
  lemma LinksFlap(state: State, before: Snapshot, files: Snapshot)
    requires var root := Dir(Cons("a", Dir(Cons("l", DirLink(Cons("f", File(state), Nil)), Nil)), Nil));
      Leaves(files, before, root, [["a"], ["a", "l"]])
    ensures var root := Dir(Cons("a", Dir(Cons("l", DirLink(Cons("f", File(state), Nil)), Nil)), Nil));
      var paths, p := [["a"], ["a", "l"]], ["a", "l", "f"];
      CanScanAll(root, paths) && Get(files, p) == Some(state)
      && ToldBy(Remove(p), files, root, paths) && ToldBy(Modify(p), files, root, paths)
  {
    var link := DirLink(Cons("f", File(state), Nil));
    var a := Dir(Cons("l", link, Nil));
    var root := Dir(Cons("a", a, Nil));
    var paths, p := [["a"], ["a", "l"]], ["a", "l", "f"];
    LinkedTree(state);
    hide *;
    LinkedPaths(root, paths, p);
    MixedFlaps(files, before, root, paths, p);
    LinkedAfter(files, before, root, paths, p);
  }

  lemma LinkedPaths(root: Node, paths: seq<Path>, p: Path)
    requires p == ["a", "l", "f"] && paths == [["a"], ["a", "l"]]
    requires CanScan(root, ["a"]) && CanScan(root, ["a", "l"])
    requires HiddenFrom(root, ["a"], p) && !HiddenFrom(root, ["a", "l"], p)
    ensures CanScanAll(root, paths) && Shown(root, paths, p) && HiddenOnce(root, paths, p)
  {
    hide HiddenFrom;
    hide CanScan;
    assert HidesAt(root, paths, p, 0);
    assert ShowsAt(root, paths, p, 1);
  }

  lemma LinkedAfter(files: Snapshot, before: Snapshot, root: Node, paths: seq<Path>, p: Path)
    requires p == ["a", "l", "f"] && paths == [["a"], ["a", "l"]] && Leaves(files, before, root, paths)
    requires CanScan(root, ["a", "l"]) && !HiddenFrom(root, ["a", "l"], p)
    ensures Get(files, p) == FileAt(root, p)
  {
    hide HiddenFrom;
    hide CanScan;
    hide Seen;
    hide FileAt;
    assert paths[1] == ["a", "l"] && ["a", "l"] <= p;
    assert Get(files, p) == After(before, root, paths, p) == Seen(root, ["a", "l"], p);
    SeenIsFileIff(root, ["a", "l"], p);
  }

  lemma LinkedTree(state: State)
    ensures var root := Dir(Cons("a", Dir(Cons("l", DirLink(Cons("f", File(state), Nil)), Nil)), Nil));
      var p := ["a", "l", "f"];
      CanScan(root, ["a"]) && CanScan(root, ["a", "l"])
      && HiddenFrom(root, ["a"], p) && !HiddenFrom(root, ["a", "l"], p) && FileAt(root, p) == Some(state)
  {
    var link := DirLink(Cons("f", File(state), Nil));
    var a := Dir(Cons("l", link, Nil));
    var root := Dir(Cons("a", a, Nil));
    var p := ["a", "l", "f"];
    assert ["a"][1..] == [] && ["a", "l"][1..] == ["l"] && ["l"][1..] == [] && ["f"][1..] == [];
    assert p[1..] == ["l", "f"] && p[2..] == ["f"] && ["l", "f"][1..] == ["f"];
    assert Named(root.entries, "a") == Some(a) && Named(a.entries, "l") == Some(link);
    assert Named(link.entries, "f") == Some(File(state));
    assert Resolve(root, ["a"]) == Found(a) && Resolve(a, ["l"]) == Found(link);
    assert ResolveIn(root.entries, ["a", "l"]) == Found(link) == Resolve(root, ["a", "l"]);
    assert Resolve(link, ["f"]) == ResolveIn(link.entries, ["f"]) == Found(File(state));
    assert Resolve(a, ["l", "f"]) == ResolveIn(a.entries, ["l", "f"]) == Found(File(state));
    assert Resolve(root, p) == ResolveIn(root.entries, p) == Found(File(state));
    assert ["a"] <= p && ["a", "l"] <= p;
    assert Hidden(a, p[1..]);
    assert !Hidden(link, p[2..]);
  }

  // A batch that fails.

  /** A file of which the baseline holds what the tree holds is not told, unless a directory symlink hides
      it. */
  lemma {:induction false} UpToDateIsQuiet(files: Snapshot, root: Node, paths: seq<Path>, p: Path)
    requires CanScanAll(root, paths) && Get(files, p) == FileAt(root, p)
    ensures ToldBy(Modify(p), files, root, paths) || ToldBy(Remove(p), files, root, paths)
       <==> FileAt(root, p).Some? && HiddenOnce(root, paths, p)
  {
    hide HiddenFrom;
    hide FileAt;
    hide CanScan;
    hide ToldBy;
    if FileAt(root, p).None? {
      GoneIsTold(files, root, paths, p);
    } else {
      PresentIsTold(files, root, paths, p);
    }
  }

  /** After a batch that failed behind `front`, a difference is told by a later batch over it, as one event,
      if and only if `front` does not cover it. */
  lemma {:induction false} ToldLaterIff(files: Snapshot, before: Snapshot, root: Node, mended: Node, front: seq<Path>,
                                        more: seq<Path>, p: Path)
    requires Leaves(files, before, root, front) && CanScanAll(root, front) && !HiddenOnce(root, front, p)
    requires CanScanAll(mended, more) && Covered(more, p) && !HiddenOnce(mended, more, p)
    requires FileAt(mended, p) == FileAt(root, p) != Get(before, p)
    ensures var now := FileAt(mended, p);
      (ToldBy(Modify(p), files, mended, more) <==> !Covered(front, p) && now.Some?)
      && (ToldBy(Remove(p), files, mended, more) <==> !Covered(front, p) && now.None?)
  {
    hide HiddenFrom;
    hide FileAt;
    hide CanScan;
    hide ToldBy;
    assert Get(files, p) == After(before, root, front, p);
    AfterIsLast(before, root, front, p);
    if Covered(front, p) {
      var i := LastCover(front, p);
      SeenIsFileIff(root, front[i], p);
      assert HidesAt(root, front, p, i) == HiddenFrom(root, front[i], p);
      UpToDateIsQuiet(files, mended, more, p);
    } else if FileAt(mended, p).None? {
      GoneIsTold(files, mended, more, p);
    } else {
      var i := LastCover(more, p);
      assert HidesAt(mended, more, p, i) == HiddenFrom(mended, more[i], p);
      assert ShowsAt(mended, more, p, i);
      PresentIsTold(files, mended, more, p);
    }
  }

  lemma NotHiddenOnce(root: Node, paths: seq<Path>, p: Path)
    requires IsTree(root) && NoLinks(root)
    ensures !HiddenOnce(root, paths, p)
  {
    if i :| 0 <= i < |paths| && HidesAt(root, paths, p, i) {
      PartsOfTrees(root, paths[i]);
      NothingHidden(Resolve(root, paths[i]).node, p[|paths[i]|..]);
    }
  }

  /** On trees without directory symlinks: a failing batch loses exactly the differences below the paths it
      had scanned. A difference elsewhere is told by the next batch over it that succeeds; one it had
      scanned is told by none, as long as the file stays as it is. */
  lemma FailedBatchLosesIff(files: Snapshot, before: Snapshot, root: Node, mended: Node, front: seq<Path>,
                            more: seq<Path>, p: Path)
    requires IsTree(root) && NoLinks(root) && IsTree(mended) && NoLinks(mended)
    requires Leaves(files, before, root, front) && CanScanAll(root, front)
    requires CanScanAll(mended, more) && Covered(more, p)
    requires FileAt(mended, p) == FileAt(root, p) != Get(before, p)
    ensures ToldBy(Modify(p), files, mended, more) || ToldBy(Remove(p), files, mended, more) <==> !Covered(front, p)
  {
    NotHiddenOnce(root, front, p);
    NotHiddenOnce(mended, more, p);
    hide *;
    ToldLaterIff(files, before, root, mended, front, more, p);
  }

  /** The change of `a` is found ahead of the failure at `b`, and no later batch on the tree as it
      is, or with `b` readable again, tells it: two files in one directory, no symlink at all. */
  lemma FailedBatchLoses(was: State, state: State, files: Snapshot, b: State, more: seq<Path>)
    requires was != state
    requires Leaves(files, map[["a"] := was], Dir(Cons("a", File(state), Cons("b", Unreadable, Nil))), [["a"]])
    ensures var broken := Dir(Cons("a", File(state), Cons("b", Unreadable, Nil)));
      CanScan(broken, ["a"]) && !CanScan(broken, ["b"])
      && ToldBy(Modify(["a"]), map[["a"] := was], broken, [["a"]])
      && (CanScanAll(broken, more) ==> !ToldBy(Modify(["a"]), files, broken, more))
    ensures var mended := Dir(Cons("a", File(state), Cons("b", File(b), Nil)));
      CanScan(mended, ["b"]) && (CanScanAll(mended, more) ==> !ToldBy(Modify(["a"]), files, mended, more))
  {
    var before: Snapshot := map[["a"] := was];
    var broken := Dir(Cons("a", File(state), Cons("b", Unreadable, Nil)));
    var mended := Dir(Cons("a", File(state), Cons("b", File(b), Nil)));
    var paths: seq<Path> := [["a"]];
    TwoFiles(state, Unreadable);
    TwoFiles(state, File(b));
    assert paths[..0] == [] && paths[0] == ["a"] && ["a"][1..] == [];
    assert Get(files, ["a"]) == After(before, broken, paths, ["a"]) == Some(state);
    hide *;
    if CanScanAll(broken, more) {
      NothingToTell(files, broken, more, ["a"]);
    }
    if CanScanAll(mended, more) {
      NothingToTell(files, mended, more, ["a"]);
    }
  }

  lemma TwoFiles(state: State, b: Node)
    requires b.Unreadable? || b.File?
    ensures var root := Dir(Cons("a", File(state), Cons("b", b, Nil)));
      Resolve(root, ["a"]) == Found(File(state)) && CanScan(root, ["a"]) && FileAt(root, ["a"]) == Some(state)
      && Seen(root, ["a"], ["a"]) == Some(state) && (CanScan(root, ["b"]) <==> b.File?)
  {
    var root := Dir(Cons("a", File(state), Cons("b", b, Nil)));
    assert ["a"][1..] == [] && ["b"][1..] == [];
    assert Named(root.entries, "a") == Some(File(state));
    assert Named(root.entries.rest, "b") == Named(root.entries, "b") == Some(b);
    assert Resolve(root, ["a"]) == ResolveIn(root.entries, ["a"]);
    assert Resolve(root, ["b"]) == ResolveIn(root.entries, ["b"]) == Resolve(b, []);
  }

  lemma NothingToTell(files: Snapshot, root: Node, paths: seq<Path>, p: Path)
    requires CanScanAll(root, paths) && Get(files, p) == FileAt(root, p) && |p| == 1
    ensures !ToldBy(Modify(p), files, root, paths)
  {
    hide ToldBy;
    UpToDateIsQuiet(files, root, paths, p);
  }
}
