/** The manager's event loop (src/ghci/manager.rs): coalescing, dispatching, interrupting and
    retrying, as steps of a state machine in which GHCi does not exit. */
module Manager {
  import opened Basics
  import opened WatcherEvents

  datatype State = State(
    coalescer: Option<Event>,   // merged by the receiver that keeps listening to the watcher
    channel: Option<Event>,     // the dispatch channel, of capacity one
    inflight: Option<Event>,    // being dispatched, or about to be
    pending: Option<Event>,     // arrived during the dispatch
    applied: Applied)

  datatype Step =
    | Deliver(event: Event)     // the watcher sends an event
    | Forward                   // the coalescer hands over what it has
    | Receive                   // an idle manager takes an event
    | Accumulate                // an event arrives during a dispatch that goes on
    | Interrupt                 // an event arrives and interrupts the dispatch
    | Finish                    // the dispatch completes

  predicate Enabled(s: State, step: Step) {
    match step
    case Deliver(_) => true
    case Forward => s.channel.None? && s.coalescer.Some?
    case Receive => s.inflight.None? && s.channel.Some?
    case Accumulate => s.inflight.Some? && s.channel.Some?
    case Interrupt => s.inflight.Some? && s.channel.Some?
    case Finish => s.inflight.Some?
  }

  /** An event is taken up, unless everything it says has been applied. */
  function TakeUp(e: Event, applied: Applied): Option<Event> {
    if Redundant(e, applied) then None else Some(Filtered(e, applied))
  }

  function Next(s: State, step: Step): State
    requires Enabled(s, step)
  {
    match step
    case Deliver(e) => s.(coalescer := Some(Join(s.coalescer, e)))
    case Forward => s.(channel := s.coalescer, coalescer := None)
    case Receive => s.(channel := None, inflight := TakeUp(s.channel.value, s.applied))
    case Accumulate => s.(channel := None, pending := Some(Join(s.pending, s.channel.value)))
    case Interrupt =>
      var newer := if s.pending.Some? then Merged(s.inflight.value, s.pending.value) else s.inflight.value;
      s.(channel := None, pending := None, inflight := Some(Merged(newer, s.channel.value)))
    case Finish =>
      var applied := Marked(s.inflight.value, s.applied);
      s.(applied := applied, pending := None,
         inflight := if s.pending.Some? then TakeUp(s.pending.value, applied) else None)
  }

  // The same, as the manager's objects do it.

  class GhciManager {
    var coalescer: Option<Event>
    var channel: Option<Event>
    var inflight: Option<Event>
    var pending: Option<Event>
    const applied: AppliedStates

    constructor (applied: AppliedStates)
      ensures this.applied == applied && S() == State(None, None, None, None, applied.Value())
    {
      coalescer, channel, inflight, pending, this.applied := None, None, None, None, applied;
    }

    function S(): State
      reads this, applied
    {
      State(coalescer, channel, inflight, pending, applied.Value())
    }

    /** The "setup_watcher" task. */
    method Coalesce(event: Event)
      modifies this
      ensures S() == Next(old(S()), Deliver(event))
    {
      if coalescer.Some? {
        var merged := new WatcherEvent(coalescer.value);
        merged.Merge(event);
        coalescer := Some(merged.Value());
      } else {
        coalescer := Some(event);
      }
    }

    method SendPermit()
      requires Enabled(S(), Forward)
      modifies this
      ensures S() == Next(old(S()), Forward)
    {
      channel := coalescer;
      coalescer := None;
    }

    method WaitForEvent()
      requires Enabled(S(), Receive)
      modifies this
      ensures S() == Next(old(S()), Receive)
    {
      var event := new WatcherEvent(channel.value);
      channel := None;
      var redundant := event.DiscardApplied(applied);
      if !redundant {
        inflight := Some(event.Value());
      }
    }

    /** A watcher event arrives while a dispatch is under way. */
    method Arrive(interrupt: bool)
      requires Enabled(S(), Accumulate)
      modifies this
      ensures S() == Next(old(S()), if interrupt then Interrupt else Accumulate)
    {
      var newEvent := channel.value;
      channel := None;
      if interrupt {
        var event := new WatcherEvent(inflight.value);
        if pending.Some? {
          event.Merge(pending.value);
          pending := None;
        }
        event.Merge(newEvent);
        inflight := Some(event.Value());
      } else if pending.Some? {
        var event := new WatcherEvent(pending.value);
        event.Merge(newEvent);
        pending := Some(event.Value());
      } else {
        pending := Some(newEvent);
      }
    }

    /** The dispatch completes; what arrived meanwhile is retried if it says anything new. */
    method DispatchDone()
      requires Enabled(S(), Finish)
      modifies this, applied
      ensures S() == Next(old(S()), Finish)
    {
      var event := new WatcherEvent(inflight.value);
      event.MarkApplied(applied);
      inflight := None;
      if pending.Some? {
        var again := new WatcherEvent(pending.value);
        pending := None;
        var redundant := again.DiscardApplied(applied);
        if !redundant {
          inflight := Some(again.Value());
        }
      }
    }
  }

  // What every run keeps.

  function StatesOf(e: Option<Event>): States {
    if e.Some? then e.value.states else map[]
  }

  function SnapshotOf(e: Option<Event>, otherwise: Option<States>): Option<States> {
    if e.Some? then Some(e.value.snapshot) else otherwise
  }

  /** The manager's newest knowledge of every path: applied states, overridden by whatever is later. */
  function Overall(s: State): States {
    s.applied.states + StatesOf(s.inflight) + StatesOf(s.pending) + StatesOf(s.channel) + StatesOf(s.coalescer)
  }

  function OverallSnapshot(s: State): Option<States> {
    SnapshotOf(s.coalescer, SnapshotOf(s.channel, SnapshotOf(s.pending, SnapshotOf(s.inflight, s.applied.snapshot))))
  }

  /** The watcher's own account: every delivery overrides the ones before. */
  function Told(before: Applied, deliveries: seq<Event>): Applied {
    if deliveries == [] then before
    else Marked(deliveries[|deliveries| - 1], Told(before, deliveries[..|deliveries| - 1]))
  }

  ghost predicate Complete(e: Option<Event>) {
    e.Some? ==> IsDelivery(e.value)
  }

  /** Every state an event carries belongs to one of its hints, or is applied already. */
  ghost predicate Hinted(e: Event, applied: Applied) {
    forall p <- e.states :: p in Paths(e.events) || Get(applied.states, p) == Some(e.states[p])
  }

  ghost predicate Inv(s: State, told: Applied) {
    && Overall(s) == told.states
    && OverallSnapshot(s) == told.snapshot
    && Complete(s.coalescer) && Complete(s.channel) && Complete(s.pending)
    && (s.inflight.Some? ==> Hinted(s.inflight.value, s.applied))
    && (s.pending.Some? ==> s.inflight.Some?)
  }

  /** Taking an event up, or dropping it, does not change what is known overall. */
  lemma TakeUpKeeps(e: Event, applied: Applied)
    requires IsDelivery(e)
    ensures applied.states + StatesOf(TakeUp(e, applied)) == applied.states + e.states
    ensures SnapshotOf(TakeUp(e, applied), applied.snapshot) == Some(e.snapshot)
    ensures TakeUp(e, applied).Some? ==> Hinted(TakeUp(e, applied).value, applied)
  {
    forall p <- e.states
      ensures p in Paths(Filtered(e, applied).events) || Get(applied.states, p) == Some(e.states[p])
    {
      var f :| f in e.events && f.path == p;
      if Get(applied.states, p) != Some(e.states[p]) {
        assert f in Filtered(e, applied).events;
      }
    }
  }

  lemma HintedMerge(a: Event, b: Event, applied: Applied)
    requires Hinted(a, applied) && IsDelivery(b)
    ensures Hinted(Merged(a, b), applied)
  {
    PathsMerged(a.events, b.events);
  }

  lemma JoinKeeps(a: Option<Event>, b: Event)
    requires Complete(a) && IsDelivery(b)
    ensures IsDelivery(Join(a, b)) && Join(a, b).states == StatesOf(a) + b.states && Join(a, b).snapshot == b.snapshot
  {
    if a.Some? {
      MergeOfDeliveries(a.value, b);
    }
  }

  lemma OverrideAssoc(a: States, b: States, c: States)
    ensures a + b + c == a + (b + c)
    ensures a + map[] == a && map[] + a == a
  {
    MapAssoc(a, b, c);
  }

  /** No step but a delivery changes the overall knowledge. */
  lemma StepKeepsStates(s: State, step: Step)
    requires Enabled(s, step) && Complete(s.coalescer) && Complete(s.channel) && Complete(s.pending)
    requires s.pending.Some? ==> s.inflight.Some?
    requires step.Deliver? ==> IsDelivery(step.event)
    ensures Overall(Next(s, step)) == Overall(s) + if step.Deliver? then step.event.states else map[]
  {
    hide Merged;
    hide Redundant;
    hide IsDelivery;
    var a, i, p := s.applied.states, StatesOf(s.inflight), StatesOf(s.pending);
    var c, k := StatesOf(s.channel), StatesOf(s.coalescer);
    OverrideAssoc(Overall(s), map[], map[]);
    match step
    case Deliver(e) =>
      JoinKeeps(s.coalescer, e);
      OverrideAssoc(a + i + p + c, k, e.states);
    case Forward =>
      OverrideAssoc(a + i + p, c, k);
      OverrideAssoc(a + i + p, k, map[]);
    case Receive =>
      TakeUpKeeps(s.channel.value, s.applied);
      OverrideAssoc(a, i, p);
      OverrideAssoc(a, map[], c);
      OverrideAssoc(a + StatesOf(TakeUp(s.channel.value, s.applied)), map[], map[]);
    case Accumulate =>
      JoinKeeps(s.pending, s.channel.value);
      OverrideAssoc(a + i, p, c);
      OverrideAssoc(a + i + (p + c), map[], k);
    case Interrupt =>
      InterruptStates(s);
      OverrideAssoc(a, i, p);
      OverrideAssoc(a, i + p, c);
      OverrideAssoc(a + (i + p + c), map[], map[]);
    case Finish =>
      if s.pending.Some? {
        TakeUpKeeps(s.pending.value, Marked(s.inflight.value, s.applied));
      }
      OverrideAssoc(a + i, p, map[]);
      OverrideAssoc(a + i, map[], map[]);
  }

  lemma InterruptStates(s: State)
    requires Enabled(s, Interrupt)
    ensures StatesOf(Next(s, Interrupt).inflight) == StatesOf(s.inflight) + StatesOf(s.pending) + StatesOf(s.channel)
  {
    OverrideAssoc(StatesOf(s.inflight), map[], map[]);
  }

  lemma StepKeepsSnapshot(s: State, step: Step)
    requires Enabled(s, step) && Complete(s.channel) && Complete(s.pending)
    requires s.pending.Some? ==> s.inflight.Some?
    ensures OverallSnapshot(Next(s, step)) == if step.Deliver? then Some(step.event.snapshot) else OverallSnapshot(s)
  {
    match step
    case Receive => TakeUpKeeps(s.channel.value, s.applied);
    case Finish =>
      if s.pending.Some? {
        TakeUpKeeps(s.pending.value, Marked(s.inflight.value, s.applied));
      }
    case _ =>
  }

  lemma StepKeepsHints(s: State, step: Step)
    requires Enabled(s, step) && Complete(s.channel) && Complete(s.pending)
    requires s.inflight.Some? ==> Hinted(s.inflight.value, s.applied)
    ensures var t := Next(s, step); t.inflight.Some? ==> Hinted(t.inflight.value, t.applied)
  {
    match step
    case Receive => TakeUpKeeps(s.channel.value, s.applied);
    case Interrupt =>
      var newer := if s.pending.Some? then Merged(s.inflight.value, s.pending.value) else s.inflight.value;
      if s.pending.Some? {
        HintedMerge(s.inflight.value, s.pending.value, s.applied);
      }
      HintedMerge(newer, s.channel.value, s.applied);
    case Finish =>
      if s.pending.Some? {
        TakeUpKeeps(s.pending.value, Marked(s.inflight.value, s.applied));
      }
    case _ =>
  }

  /** Each step keeps the invariant; a delivery adds to what the watcher told. */
  lemma StepKeepsInv(s: State, step: Step, told: Applied)
    requires Inv(s, told) && Enabled(s, step)
    requires step.Deliver? ==> IsDelivery(step.event)
    ensures Inv(Next(s, step), if step.Deliver? then Marked(step.event, told) else told)
  {
    StepKeepsStates(s, step);
    StepKeepsSnapshot(s, step);
    StepKeepsHints(s, step);
    hide Overall;
    hide OverallSnapshot;
    hide Hinted;
    hide IsDelivery;
    OverrideAssoc(Overall(s), map[], map[]);
    if step.Deliver? {
      JoinKeeps(s.coalescer, step.event);
    } else if step.Accumulate? {
      JoinKeeps(s.pending, s.channel.value);
    }
  }

  // Whole runs.

  ghost predicate IsRun(run: seq<State>, steps: seq<Step>) {
    && |run| == |steps| + 1
    && forall i | 0 <= i < |steps| ::
        Enabled(run[i], steps[i]) && run[i + 1] == Next(run[i], steps[i])
        && (steps[i].Deliver? ==> IsDelivery(steps[i].event))
  }

  function Deliveries(steps: seq<Step>): seq<Event> {
    if steps == [] then []
    else
      var last := steps[|steps| - 1];
      Deliveries(steps[..|steps| - 1]) + if last.Deliver? then [last.event] else []
  }

  predicate Idle(s: State) {
    s.coalescer.None? && s.channel.None? && s.inflight.None?
  }

  lemma {:induction false} RunKeepsInv(run: seq<State>, steps: seq<Step>)
    requires IsRun(run, steps)
    requires run[0] == State(None, None, None, None, run[0].applied)
    ensures Inv(run[|steps|], Told(run[0].applied, Deliveries(steps)))
    decreases |steps|
  {
    if steps == [] {
      assert Overall(run[0]) == run[0].applied.states;
    } else {
      var n := |steps| - 1;
      RunKeepsInv(run[..n + 1], steps[..n]);
      StepKeepsInv(run[n], steps[n], Told(run[0].applied, Deliveries(steps[..n])));
      var before, now := Deliveries(steps[..n]), Deliveries(steps);
      if steps[n].Deliver? {
        assert now[..|now| - 1] == before;
      } else {
        assert now == before;
      }
    }
  }

  /** No watcher state is lost: when nothing is left to do, what has been applied is what all the
      deliveries, in order, said. */
  lemma NothingIsLost(run: seq<State>, steps: seq<Step>)
    requires IsRun(run, steps)
    requires run[0] == State(None, None, None, None, run[0].applied)
    requires Idle(run[|steps|])
    ensures run[|steps|].applied == Told(run[0].applied, Deliveries(steps))
  {
    RunKeepsInv(run, steps);
    var s := run[|steps|];
    assert Overall(s) == s.applied.states;
  }

  /** A path whose newest state is not applied is hinted at by an event still on its way. */
  lemma DirtyPathsAreHinted(run: seq<State>, steps: seq<Step>, p: Path)
    requires IsRun(run, steps)
    requires run[0] == State(None, None, None, None, run[0].applied)
    requires var s := run[|steps|]; Get(Told(run[0].applied, Deliveries(steps)).states, p) != Get(s.applied.states, p)
    ensures var s := run[|steps|];
      || (s.inflight.Some? && p in Paths(s.inflight.value.events))
      || (s.pending.Some? && p in Paths(s.pending.value.events))
      || (s.channel.Some? && p in Paths(s.channel.value.events))
      || (s.coalescer.Some? && p in Paths(s.coalescer.value.events))
  {
    RunKeepsInv(run, steps);
  }

  /** Only what was dispatched, with a hint for it, becomes applied. */
  lemma AppliedByDispatch(s: State, step: Step, told: Applied)
    requires Inv(s, told) && Enabled(s, step) && Next(s, step).applied != s.applied
    ensures step.Finish? && Next(s, step).applied.snapshot == Some(s.inflight.value.snapshot)
    ensures forall p | Get(Next(s, step).applied.states, p) != Get(s.applied.states, p) ::
      p in Paths(s.inflight.value.events) && Get(Next(s, step).applied.states, p) == Get(s.inflight.value.states, p)
  {
  }

  /** Over any run: a path whose applied state has changed was named, in that state, by an event whose
      dispatch completed. */
  lemma {:induction false} AppliedWasDispatched(run: seq<State>, steps: seq<Step>, p: Path) returns (i: nat)
    requires IsRun(run, steps)
    requires run[0] == State(None, None, None, None, run[0].applied)
    requires Get(run[|steps|].applied.states, p) != Get(run[0].applied.states, p)
    ensures i < |steps| && steps[i].Finish? && run[i].inflight.Some?
    ensures p in Paths(run[i].inflight.value.events)
    ensures Get(run[i].inflight.value.states, p) == Get(run[|steps|].applied.states, p)
    decreases |steps|
  {
    var n := |steps| - 1;
    if Get(run[n].applied.states, p) == Get(run[n + 1].applied.states, p) {
      i := AppliedWasDispatched(run[..n + 1], steps[..n], p);
    } else {
      RunKeepsInv(run[..n + 1], steps[..n]);
      AppliedByDispatch(run[n], steps[n], Told(run[0].applied, Deliveries(steps[..n])));
      i := n;
    }
  }

  /** How much there is to do. */
  function Work(s: State): nat {
    (if s.coalescer.Some? then 4 else 0) + (if s.channel.Some? then 3 else 0) + (if s.pending.Some? then 2 else 0)
    + if s.inflight.Some? then 1 else 0
  }

  /** The manager is never stuck: what is not idle can go on, and every step but a delivery leaves less to
      do. */
  lemma Settles(s: State, told: Applied)
    requires Inv(s, told)
    ensures !Idle(s) ==> Enabled(s, Forward) || Enabled(s, Receive) || Enabled(s, Finish)
    ensures forall step | Enabled(s, step) && !step.Deliver? :: Work(Next(s, step)) < Work(s)
    ensures Idle(s) <==> Work(s) == 0
  {
  }

  /** So after the last delivery it is idle within ten steps, and all deliveries are applied. */
  lemma {:induction false} QuietRunIsShort(run: seq<State>, steps: seq<Step>, n: nat)
    requires IsRun(run, steps) && n <= |steps|
    requires run[0] == State(None, None, None, None, run[0].applied)
    requires forall i | n <= i < |steps| :: !steps[i].Deliver?
    ensures |steps| - n <= Work(run[n]) - Work(run[|steps|]) <= 10
    decreases |steps| - n
  {
    if n < |steps| {
      QuietRunIsShort(run, steps, n + 1);
      assert IsRun(run[..n + 1], steps[..n]);
      RunKeepsInv(run[..n + 1], steps[..n]);
      Settles(run[n], Told(run[0].applied, Deliveries(steps[..n])));
    }
  }

  // A GHCi that exits during the dispatch.

  /** The crash branch when the first replacement keeps running: it takes up the dispatched event merged
      with what is received meanwhile. What was pending is then merged with what waits in the channel, and
      retried if it says anything new. */
  function Crash(s: State, received: seq<Event>): State
    requires s.inflight.Some?
  {
    var applied := Marked(Burst(s.inflight.value, received), s.applied);
    if s.pending.None? then s.(applied := applied, inflight := None)
    else
      var waiting := if s.channel.Some? then Merged(s.pending.value, s.channel.value) else s.pending.value;
      s.(applied := applied, pending := None, channel := None, inflight := TakeUp(waiting, applied))
  }

  function Burst(e: Event, more: seq<Event>): Event
    decreases |more|
  {
    if more == [] then e else Burst(Merged(e, more[0]), more[1..])
  }

  /** The order in which the events were delivered: pending before received. */
  function InOrder(s: State, received: seq<Event>): States
    requires s.inflight.Some?
  {
    s.applied.states + s.inflight.value.states + StatesOf(s.pending) + Received(received)
    + StatesOf(s.channel) + StatesOf(s.coalescer)
  }

  function InOrderSnapshot(s: State, received: seq<Event>): Option<States>
    requires s.inflight.Some?
  {
    var last := if received == [] then None else Some(received[|received| - 1]);
    var known := SnapshotOf(s.pending, SnapshotOf(s.inflight, None));
    SnapshotOf(s.coalescer, SnapshotOf(s.channel, SnapshotOf(last, known)))
  }

  function Received(events: seq<Event>): States {
    if events == [] then map[] else events[0].states + Received(events[1..])
  }

  lemma {:induction false} BurstStates(e: Event, more: seq<Event>)
    ensures Burst(e, more).states == e.states + Received(more)
    decreases |more|
  {
    if more != [] {
      BurstStates(Merged(e, more[0]), more[1..]);
      assert (e.states + more[0].states) + Received(more[1..]) == e.states + (more[0].states + Received(more[1..]));
    } else {
      assert e.states + map[] == e.states;
    }
  }

  lemma {:induction false} BurstSnapshot(e: Event, more: seq<Event>)
    ensures Burst(e, more).snapshot == if more == [] then e.snapshot else more[|more| - 1].snapshot
    decreases |more|
  {
    if more != [] {
      BurstSnapshot(Merged(e, more[0]), more[1..]);
    }
  }

  /** No path that was pending, was received again during the restart and has not been delivered since
      is in another state by then. */
  predicate StatesKeepOrder(s: State, received: seq<Event>) {
    forall p | p in StatesOf(s.pending) && p in Received(received)
               && p !in StatesOf(s.channel) && p !in StatesOf(s.coalescer) ::
      StatesOf(s.pending)[p] == Received(received)[p]
  }

  /** What was pending and what was received last show the same snapshot, or a later one has come. */
  predicate SnapshotKeepsOrder(s: State, received: seq<Event>) {
    || s.pending.None? || received == [] || s.channel.Some? || s.coalescer.Some?
    || s.pending.value.snapshot == received[|received| - 1].snapshot
  }

  lemma CrashStates(s: State, received: seq<Event>)
    requires s.inflight.Some? && Complete(s.pending) && Complete(s.channel)
    ensures Overall(Crash(s, received)) == InOrder(s, received) <==> StatesKeepOrder(s, received)
  {
    var waiting, newer, now := StatesOf(s.pending), Received(received), Crash(s, received);
    var a, i, c, k := s.applied.states, s.inflight.value.states, StatesOf(s.channel), StatesOf(s.coalescer);
    BurstStates(s.inflight.value, received);
    OverrideAssoc(a, i, newer);
    assert Overall(now) == a + i + newer + waiting + c + k by {
      OverrideAssoc(a + i + newer, waiting, c);
      OverrideAssoc(a + i + newer + (waiting + c), map[], map[]);
      OverrideAssoc(a + i + newer, map[], map[]);
      OverrideAssoc(waiting, map[], map[]);
      if s.pending.Some? {
        WaitingIsDelivery(s);
        TakeUpKeeps(if s.channel.Some? then Merged(s.pending.value, s.channel.value) else s.pending.value, now.applied);
        OverrideAssoc(now.applied.states + StatesOf(now.inflight), map[], map[]);
      }
    }
    OverrideOrder(a + i, waiting, newer, c, k);
  }

  lemma WaitingIsDelivery(s: State)
    requires s.pending.Some? && Complete(s.pending) && Complete(s.channel)
    ensures IsDelivery(if s.channel.Some? then Merged(s.pending.value, s.channel.value) else s.pending.value)
  {
    if s.channel.Some? {
      MergeOfDeliveries(s.pending.value, s.channel.value);
    }
  }

  lemma CrashSnapshot(s: State, received: seq<Event>)
    requires s.inflight.Some? && Complete(s.pending) && Complete(s.channel)
    ensures OverallSnapshot(Crash(s, received)) == InOrderSnapshot(s, received) <==> SnapshotKeepsOrder(s, received)
  {
    BurstSnapshot(s.inflight.value, received);
    if s.pending.Some? {
      WaitingIsDelivery(s);
      TakeUpKeeps(if s.channel.Some? then Merged(s.pending.value, s.channel.value) else s.pending.value,
                  Crash(s, received).applied);
    }
  }

  /** Across a crash the newest states and the newest snapshot survive exactly under these conditions. */
  lemma CrashKeepsOrderIff(s: State, received: seq<Event>)
    requires s.inflight.Some? && Complete(s.pending) && Complete(s.channel)
    ensures Overall(Crash(s, received)) == InOrder(s, received)
         && OverallSnapshot(Crash(s, received)) == InOrderSnapshot(s, received)
       <==> StatesKeepOrder(s, received) && SnapshotKeepsOrder(s, received)
  {
    CrashStates(s, received);
    CrashSnapshot(s, received);
  }

  /** A delivery that modifies one file and shows a snapshot. */
  function Delivery(path: Path, state: FileState, snapshot: States): Event {
    Event({Modify(path)}, map[path := state], snapshot.Keys, snapshot, false)
  }

  /** A manager that has `a` in flight, with `b` pending. */
  function CrashRun(applied: Applied, a: Event, b: Event): seq<State> {
    [State(None, None, None, None, applied), State(Some(a), None, None, None, applied),
     State(None, Some(a), None, None, applied), State(None, None, Some(a), None, applied),
     State(Some(b), None, Some(a), None, applied), State(None, Some(b), Some(a), None, applied),
     State(None, None, Some(a), Some(b), applied)]
  }

  function CrashSteps(a: Event, b: Event): seq<Step> {
    [Deliver(a), Forward, Receive, Deliver(b), Forward, Accumulate]
  }

  /** Three deliveries a, b and c, of which c is received while the crashed session is replaced. */
  lemma CrashReaches(a: Event, b: Event)
    requires IsDelivery(a) && IsDelivery(b) && a.events != {}
    ensures IsRun(CrashRun(Applied(map[], None), a, b), CrashSteps(a, b))
  {
    var run, steps := CrashRun(Applied(map[], None), a, b), CrashSteps(a, b);
    var e :| e in a.events;
    assert e.path in Paths(a.events) && Paths(a.events) == a.states.Keys;
    assert Filtered(a, Applied(map[], None)).events == a.events;
    assert Next(run[2], Receive).inflight == Some(a);
  }

  /** From there the older state of the same path wins, or with other paths the older snapshot. */
  lemma CrashRegresses(x: Path, y: Path, one: FileState, two: FileState)
    requires x != y && one != two
    ensures var a := Delivery(x, one, map[]);
      var b, c := Delivery(x, one, map[x := one]), Delivery(x, two, map[x := two]);
      var s := State(None, None, Some(a), Some(b), Applied(map[], None));
      && IsRun(CrashRun(Applied(map[], None), a, b), CrashSteps(a, b)) && CrashRun(Applied(map[], None), a, b)[6] == s
      && x in InOrder(s, [c]) && InOrder(s, [c])[x] == two
      && x in Overall(Crash(s, [c])) && Overall(Crash(s, [c]))[x] == one
    ensures var a := Delivery(x, one, map[]);
      var b, c := Delivery(x, one, map[x := one]), Delivery(y, two, map[x := one, y := two]);
      var s := State(None, None, Some(a), Some(b), Applied(map[], None));
      && StatesKeepOrder(s, [c]) && InOrderSnapshot(s, [c]) == Some(c.snapshot)
      && OverallSnapshot(Crash(s, [c])) == Some(b.snapshot) != Some(c.snapshot)
  {
    var a, b := Delivery(x, one, map[]), Delivery(x, one, map[x := one]);
    CrashReaches(a, b);
    var s := State(None, None, Some(a), Some(b), Applied(map[], None));
    var c, d := Delivery(x, two, map[x := two]), Delivery(y, two, map[x := one, y := two]);
    ReceivedOne(c);
    ReceivedOne(d);
    BurstOne(a, c);
    BurstOne(a, d);
    var crashed, other := Crash(s, [c]), Crash(s, [d]);
    assert crashed.applied == Marked(Merged(a, c), s.applied);
    assert y in d.snapshot && y !in b.snapshot;
    assert SnapshotOf(other.inflight, other.applied.snapshot) == Some(b.snapshot) by {
      TakeUpKeeps(b, other.applied);
    }
    assert crashed.applied.states + StatesOf(crashed.inflight) == crashed.applied.states + b.states by {
      TakeUpKeeps(b, crashed.applied);
    }
    OverrideAssoc(crashed.applied.states + StatesOf(crashed.inflight), map[], map[]);
    OverrideAssoc(a.states + b.states + c.states, map[], map[]);
  }

  lemma ReceivedOne(e: Event)
    ensures Received([e]) == e.states
  {
    assert [e][1..] == [];
    OverrideAssoc(e.states, map[], map[]);
  }

  lemma BurstOne(e: Event, f: Event)
    ensures Burst(e, [f]) == Merged(e, f)
  {
    assert [f][1..] == [];
  }

  lemma OverrideOrder(a: States, p: States, r: States, c: States, k: States)
    ensures a + r + p + c + k == a + p + r + c + k
       <==> forall q | q in p && q in r && q !in c && q !in k :: p[q] == r[q]
  {
    var x, y := a + r + p + c + k, a + p + r + c + k;
    if q :| q in p && q in r && q !in c && q !in k && p[q] != r[q] {
      assert x[q] == p[q] && y[q] == r[q];
    } else {
      assert x == y;
    }
  }
}
