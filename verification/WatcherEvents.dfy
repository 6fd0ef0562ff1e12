/** Watcher events: merging, discarding and marking as applied (src/ghci/manager.rs). */
module WatcherEvents {
  import opened Basics

  type Path = string

  type FileEvent = Basics.FileEvent<Path>

  datatype FileKind = Missing | File | Directory | Other

  datatype FileState = FileState(kind: FileKind, contentHash: Option<nat>)

  type States = map<Path, FileState>

  datatype Event = Event(
    events: set<FileEvent>, states: States, haskellFiles: set<Path>, snapshot: States, startupRetry: bool)

  datatype Applied = Applied(states: States, snapshot: Option<States>)

  function Paths(events: set<FileEvent>): set<Path> {
    set e | e in events :: e.path
  }

  ghost predicate OnePerPath(events: set<FileEvent>) {
    forall e, f | e in events && f in events && e.path == f.path :: e == f
  }

  /** What the watcher sends: a state for each event path, and one complete source snapshot. */
  ghost predicate IsDelivery(e: Event) {
    OnePerPath(e.events) && e.states.Keys == Paths(e.events) && e.haskellFiles == e.snapshot.Keys
  }

  /** Events are visited in their order, removals last; so a removal wins over a modification. */
  function Newest(events: set<FileEvent>): set<FileEvent> {
    set e | e in events && (e.Remove? || Remove(e.path) !in events)
  }

  function Without(events: set<FileEvent>, paths: set<Path>): set<FileEvent> {
    set e | e in events && e.path !in paths
  }

  function MergedEvents(a: set<FileEvent>, b: set<FileEvent>): set<FileEvent> {
    Without(a, Paths(b)) + Newest(b)
  }

  function Merged(a: Event, b: Event): Event {
    Event(MergedEvents(a.events, b.events), a.states + b.states, b.haskellFiles, b.snapshot,
          a.startupRetry || b.startupRetry)
  }

  function Join(a: Option<Event>, b: Event): Event {
    if a.Some? then Merged(a.value, b) else b
  }

  function Filtered(e: Event, applied: Applied): Event {
    e.(events := set f | f in e.events && Get(e.states, f.path) != Get(applied.states, f.path))
  }

  predicate Redundant(e: Event, applied: Applied) {
    Filtered(e, applied).events == {} && applied.snapshot == Some(e.snapshot)
  }

  function Marked(e: Event, applied: Applied): Applied {
    Applied(applied.states + e.states, Some(e.snapshot))
  }

  class AppliedStates {
    var states: States
    var snapshot: Option<States>

    constructor ()
      ensures Value() == Applied(map[], None)
    {
      states, snapshot := map[], None;
    }

    function Value(): Applied
      reads this
    {
      Applied(states, snapshot)
    }
  }

  class WatcherEvent {
    var events: set<FileEvent>
    var states: States
    var haskellFiles: set<Path>
    var snapshot: States
    var startupRetry: bool

    constructor (e: Event)
      ensures Value() == e
    {
      events, states, haskellFiles := e.events, e.states, e.haskellFiles;
      snapshot, startupRetry := e.snapshot, e.startupRetry;
    }

    function Value(): Event
      reads this
    {
      Event(events, states, haskellFiles, snapshot, startupRetry)
    }

    /** The newest event kind and state of each path survive. */
    method Merge(other: Event)
      modifies this
      ensures Value() == Merged(old(Value()), other)
    {
      var rest := other.events;
      ghost var done: set<FileEvent> := {};
      while rest != {}
        invariant done == other.events - rest && rest <= other.events
        invariant events == MergedEvents(old(events), done)
        invariant states == old(states) && startupRetry == old(startupRetry)
        invariant (forall e <- rest :: e.Remove?) || (forall e <- done :: e.Modify?)
      {
        var e;
        if f :| f in rest && f.Modify? {
          e, rest := f, rest - {f};
        } else {
          e, rest := TakeOne(rest);
        }
        MergeOne(old(events), done, e);
        events := (set f | f in events && f.path != e.path) + {e};
        done := done + {e};
      }
      assert done == other.events;
      states := states + other.states;
      haskellFiles, snapshot := other.haskellFiles, other.snapshot;
      startupRetry := startupRetry || other.startupRetry;
    }

    /** Drops the events whose state is applied already. */
    method DiscardApplied(applied: AppliedStates) returns (redundant: bool)
      modifies this
      ensures Value() == Filtered(old(Value()), applied.Value())
      ensures redundant <==> Redundant(old(Value()), applied.Value())
    {
      events := set f | f in events && Get(states, f.path) != Get(applied.states, f.path);
      redundant := events == {} && applied.snapshot == Some(snapshot);
    }

    method MarkApplied(applied: AppliedStates)
      modifies applied
      ensures applied.Value() == Marked(Value(), old(applied.Value()))
    {
      applied.states := applied.states + states;
      applied.snapshot := Some(snapshot);
    }
  }

  lemma MergeOne(a: set<FileEvent>, done: set<FileEvent>, e: FileEvent)
    requires e !in done && (e.Modify? ==> forall f <- done :: f.Modify?)
    ensures MergedEvents(a, done + {e}) == (set f | f in MergedEvents(a, done) && f.path != e.path) + {e}
  {
  }

  /** Merging is associative, so a burst may be folded in any grouping. */
  lemma MergeAssociative(a: Event, b: Event, c: Event)
    ensures Merged(Merged(a, b), c) == Merged(a, Merged(b, c))
  {
    assert Paths(MergedEvents(b.events, c.events)) == Paths(b.events) + Paths(c.events) by {
      PathsMerged(b.events, c.events);
    }
    assert MergedEvents(MergedEvents(a.events, b.events), c.events)
        == MergedEvents(a.events, MergedEvents(b.events, c.events));
    assert (a.states + b.states) + c.states == a.states + (b.states + c.states);
  }

  lemma PathsMerged(a: set<FileEvent>, b: set<FileEvent>)
    ensures Paths(MergedEvents(a, b)) == Paths(a) + Paths(b)
    ensures OnePerPath(a) ==> OnePerPath(MergedEvents(a, b))
  {
    forall p <- Paths(b) ensures p in Paths(MergedEvents(a, b)) {
      var e :| e in b && e.path == p;
      if Remove(p) in b {
        assert Remove(p) in Newest(b);
      } else {
        assert e in Newest(b);
      }
    }
    forall p <- Paths(a) - Paths(b) ensures p in Paths(MergedEvents(a, b)) {
      var e :| e in a && e.path == p;
      assert e in Without(a, Paths(b));
    }
  }

  /** Two deliveries merge into one that could have been delivered. */
  lemma MergeOfDeliveries(a: Event, b: Event)
    requires IsDelivery(a) && IsDelivery(b)
    ensures IsDelivery(Merged(a, b))
  {
    PathsMerged(a.events, b.events);
  }

  /** A delivery is redundant exactly when taking it as applied would change nothing. */
  lemma RedundantIffApplied(e: Event, applied: Applied)
    requires IsDelivery(e)
    ensures Redundant(e, applied) <==> Marked(e, applied) == applied
  {
    if Redundant(e, applied) {
      forall p <- e.states ensures Get(applied.states, p) == Some(e.states[p]) {
        var f :| f in e.events && f.path == p;
        assert f !in Filtered(e, applied).events;
      }
      assert applied.states + e.states == applied.states;
    }
    if f :| f in Filtered(e, applied).events {
      assert f.path in Paths(e.events);
      assert (applied.states + e.states)[f.path] == e.states[f.path];
    }
  }

  /** What a merged event says of a path: what the later one says, if it says anything. */
  lemma MergedSays(a: Event, b: Event, p: Path)
    requires IsDelivery(a) && IsDelivery(b)
    ensures Get(Merged(a, b).states, p) == if p in Paths(b.events) then Get(b.states, p) else Get(a.states, p)
    ensures Modify(p) in Merged(a, b).events <==> Modify(p) in if p in Paths(b.events) then b.events else a.events
    ensures Remove(p) in Merged(a, b).events <==> Remove(p) in if p in Paths(b.events) then b.events else a.events
    ensures Merged(a, b).startupRetry <==> a.startupRetry || b.startupRetry
  {
    assert Modify(p).path == p && Remove(p).path == p;
  }
}
