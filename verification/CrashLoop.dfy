/** Restarting a GHCi that keeps crashing (src/ghci/manager.rs, `wait_and_restart`). What happens at
    each waiting point is taken from a list of inputs; an input that does not fit the point, or the end
    of the list, stands for a requested shutdown. */
module CrashLoop {
  import opened Basics
  import opened WatcherEvents

  datatype Outcome = Running | Crashed | Failed

  datatype Input =
    | Elapsed                      // the crash delay is over
    | Arrived(event: Event)        // a watcher event is in the queue
    | Replaced(outcome: Outcome)   // how a replacement session ended up

  datatype Action =
    | Delayed
    | Received(news: Event)
    | Started(tried: Option<Event>)

  datatype Result = Restarted(event: Option<Event>) | Shutdown | Error

  // Reading a trace.

  function Starts(trace: seq<Action>): nat {
    if trace == [] then 0
    else Starts(trace[..|trace| - 1]) + if trace[|trace| - 1].Started? then 1 else 0
  }

  function Receives(trace: seq<Action>): seq<Event> {
    if trace == [] then []
    else Receives(trace[..|trace| - 1]) + if trace[|trace| - 1].Received? then [trace[|trace| - 1].news] else []
  }

  /** What the replacements so far were started with. */
  function Attempted(trace: seq<Action>): Applied {
    if trace == [] then Applied(map[], None)
    else
      var before, last := Attempted(trace[..|trace| - 1]), trace[|trace| - 1];
      if last.Started? && last.tried.Some? then Marked(last.tried.value, before) else before
  }

  /** The delay has passed since the last start. */
  function Rested(trace: seq<Action>): bool {
    trace != [] && !trace[|trace| - 1].Started? && (trace[|trace| - 1].Delayed? || Rested(trace[..|trace| - 1]))
  }

  /** The newest snapshot the watcher has sent. */
  function Latest(initial: Option<Event>, trace: seq<Action>): Option<States> {
    if trace == [] then (if initial.Some? then Some(initial.value.snapshot) else None)
    else if trace[|trace| - 1].Received? then Some(trace[|trace| - 1].news.snapshot)
    else Latest(initial, trace[..|trace| - 1])
  }

  /** Every start follows a whole delay, and carries the newest snapshot if it carries one. */
  ghost predicate Orderly(initial: Option<Event>, trace: seq<Action>) {
    forall i | 0 <= i < |trace| && trace[i].Started? ::
      Rested(trace[..i])
      && (trace[i].tried.Some? ==> Some(trace[i].tried.value.snapshot) == Latest(initial, trace[..i]))
  }

  /** Every start but the first says something that no earlier attempt said last. */
  ghost predicate AlwaysNewer(trace: seq<Action>) {
    forall i | 0 <= i < |trace| && trace[i].Started? && Starts(trace[..i]) > 0 ::
      trace[i].tried.Some? && !Redundant(trace[i].tried.value, Attempted(trace[..i]))
  }

  predicate Fits(a: Action, input: Input) {
    match a
    case Delayed => input.Elapsed?
    case Received(e) => input == Arrived(e)
    case Started(_) => input.Replaced?
  }

  /** Each action answers one input, in order, and every replacement has crashed; `rest` is what is left. */
  ghost predicate Tracks(trace: seq<Action>, rest: seq<Input>, all: seq<Input>) {
    && |trace| <= |all| && rest == all[|trace|..]
    && forall i | 0 <= i < |trace| :: Fits(trace[i], all[i]) && (all[i].Replaced? ==> all[i].outcome == Crashed)
  }

  lemma SnocTracks(trace: seq<Action>, rest: seq<Input>, all: seq<Input>, a: Action)
    requires Tracks(trace, rest, all) && rest != [] && Fits(a, rest[0])
    requires rest[0].Replaced? ==> rest[0].outcome == Crashed
    ensures Tracks(trace + [a], rest[1..], all)
  {
  }

  /** Everything the watcher has said, merged. */
  function Gathered(initial: Option<Event>, trace: seq<Action>): Option<Event> {
    if trace == [] then initial
    else
      var before, last := Gathered(initial, trace[..|trace| - 1]), trace[|trace| - 1];
      if last.Received? then Some(Join(before, last.news)) else before
  }

  /** The first replacement is started with everything said until then. */
  ghost predicate FirstGetsAll(initial: Option<Event>, trace: seq<Action>) {
    forall i | 0 <= i < |trace| && trace[i].Started? && Starts(trace[..i]) == 0 ::
      trace[i].tried == Gathered(initial, trace[..i])
  }

  lemma SnocFirst(initial: Option<Event>, trace: seq<Action>, a: Action)
    requires FirstGetsAll(initial, trace)
    requires a.Started? && Starts(trace) == 0 ==> a.tried == Gathered(initial, trace)
    ensures FirstGetsAll(initial, trace + [a])
  {
    var more := trace + [a];
    forall i | 0 <= i < |more| && more[i].Started? && Starts(more[..i]) == 0
      ensures more[i].tried == Gathered(initial, more[..i])
    {
      assert more[..i] == trace[..i];
      if i == |trace| { assert trace[..i] == trace; }
    }
  }

  /** One more action. */
  lemma Snoc(initial: Option<Event>, trace: seq<Action>, a: Action)
    ensures var more := trace + [a];
      && Starts(more) == Starts(trace) + (if a.Started? then 1 else 0)
      && Receives(more) == Receives(trace) + (if a.Received? then [a.news] else [])
      && Attempted(more) ==
         (if a.Started? && a.tried.Some? then Marked(a.tried.value, Attempted(trace)) else Attempted(trace))
      && Rested(more) == (!a.Started? && (a.Delayed? || Rested(trace)))
      && Gathered(initial, more) ==
         (if a.Received? then Some(Join(Gathered(initial, trace), a.news)) else Gathered(initial, trace))
      && Latest(initial, more) == (if a.Received? then Some(a.news.snapshot) else Latest(initial, trace))
  {
    assert (trace + [a])[..|trace|] == trace;
  }

  lemma SnocOrderly(initial: Option<Event>, trace: seq<Action>, a: Action)
    requires Orderly(initial, trace)
    requires a.Started? ==> Rested(trace)
    requires a.Started? && a.tried.Some? ==> Some(a.tried.value.snapshot) == Latest(initial, trace)
    ensures Orderly(initial, trace + [a])
  {
    var more := trace + [a];
    forall i | 0 <= i < |more| && more[i].Started?
      ensures Rested(more[..i])
      ensures more[i].tried.Some? ==> Some(more[i].tried.value.snapshot) == Latest(initial, more[..i])
    {
      assert more[..i] == trace[..i];
      if i == |trace| { assert trace[..i] == trace; }
    }
  }

  lemma SnocNewer(trace: seq<Action>, a: Action)
    requires AlwaysNewer(trace)
    requires a.Started? && Starts(trace) > 0 ==> a.tried.Some? && !Redundant(a.tried.value, Attempted(trace))
    ensures AlwaysNewer(trace + [a])
  {
    var more := trace + [a];
    forall i | 0 <= i < |more| && more[i].Started? && Starts(more[..i]) > 0
      ensures more[i].tried.Some? && !Redundant(more[i].tried.value, Attempted(more[..i]))
    {
      assert more[..i] == trace[..i];
      if i == |trace| { assert trace[..i] == trace; }
    }
  }

  /** Everything the watcher has said since the last start, merged. */
  function SinceStart(trace: seq<Action>): Option<Event> {
    if trace == [] || trace[|trace| - 1].Started? then None
    else
      var before, last := SinceStart(trace[..|trace| - 1]), trace[|trace| - 1];
      if last.Received? then Some(Join(before, last.news)) else before
  }

  /** Something that was not attempted: taking it as attempted would change what is. */
  predicate IsNews(said: Option<Event>, attempted: Applied) {
    said.Some? && Marked(said.value, attempted) != attempted
  }

  ghost predicate AllDeliveries(trace: seq<Action>) {
    forall i | 0 <= i < |trace| && trace[i].Received? :: IsDelivery(trace[i].news)
  }

  /** Every path with a state that was not attempted is named by an event. */
  ghost predicate Hinted(e: Event, attempted: Applied) {
    && Paths(e.events) <= e.states.Keys
    && forall p | p in e.states && Get(attempted.states, p) != Some(e.states[p]) :: p in Paths(e.events)
  }

  /** An event carries what was said: all of it that was not attempted, the newest files, a hint for every
      path; there is none only if there is no news. */
  ghost predicate Carries(tried: Option<Event>, said: Option<Event>, attempted: Applied) {
    if tried.None? then !IsNews(said, attempted)
    else
      && said.Some? && Marked(tried.value, attempted) == Marked(said.value, attempted)
      && tried.value.haskellFiles == said.value.haskellFiles && Hinted(tried.value, attempted)
  }

  /** Every start but the first carries what was said since the one before. */
  ghost predicate CarriesAll(trace: seq<Action>) {
    forall i | 0 <= i < |trace| && trace[i].Started? && Starts(trace[..i]) > 0 ::
      Carries(trace[i].tried, SinceStart(trace[..i]), Attempted(trace[..i]))
  }

  lemma SnocCarries(trace: seq<Action>, a: Action)
    requires CarriesAll(trace)
    requires a.Started? && Starts(trace) > 0 ==> Carries(a.tried, SinceStart(trace), Attempted(trace))
    ensures CarriesAll(trace + [a])
  {
    hide Carries;
    var more := trace + [a];
    forall i | 0 <= i < |more| && more[i].Started? && Starts(more[..i]) > 0
      ensures Carries(more[i].tried, SinceStart(more[..i]), Attempted(more[..i]))
    {
      assert more[..i] == trace[..i];
      if i == |trace| { assert trace[..i] == trace; }
    }
  }

  lemma SnocSaid(trace: seq<Action>, a: Action)
    ensures SinceStart(trace + [a]) ==
      if a.Started? then None else if a.Received? then Some(Join(SinceStart(trace), a.news)) else SinceStart(trace)
    ensures AllDeliveries(trace + [a]) <==> AllDeliveries(trace) && (a.Received? ==> IsDelivery(a.news))
  {
    assert (trace + [a])[..|trace|] == trace;
    assert forall i | 0 <= i < |trace| :: (trace + [a])[i] == trace[i];
  }

  lemma MarkedMerge(a: Event, b: Event, attempted: Applied)
    ensures Marked(Merged(a, b), attempted) == Applied(Marked(a, attempted).states + b.states, Some(b.snapshot))
  {
    MapAssoc(attempted.states, a.states, b.states);
  }

  lemma MarkedJoin(kept: Option<Event>, said: Option<Event>, attempted: Applied, e: Event)
    requires Carries(kept, said, attempted)
    ensures Marked(Join(kept, e), attempted) == Marked(Join(said, e), attempted)
  {
    if said.Some? {
      MarkedMerge(said.value, e, attempted);
    }
    if kept.Some? {
      MarkedMerge(kept.value, e, attempted);
    }
  }

  lemma CarriesOneMore(kept: Option<Event>, said: Option<Event>, attempted: Applied, e: Event)
    requires Carries(kept, said, attempted) && IsDelivery(e)
    ensures Carries(Some(Join(kept, e)), Some(Join(said, e)), attempted)
  {
    MarkedJoin(kept, said, attempted, e);
    hide Marked;
    if kept.Some? {
      PathsMerged(kept.value.events, e.events);
    }
  }

  /** An event that carries what was said is redundant exactly when there is no news in it. */
  lemma RedundantIff(kept: Event, said: Option<Event>, attempted: Applied)
    requires Carries(Some(kept), said, attempted)
    ensures Redundant(kept, attempted) <==> !IsNews(said, attempted)
    ensures Carries(Some(Filtered(kept, attempted)), said, attempted)
  {
    if Redundant(kept, attempted) {
      forall p | p in kept.states ensures Get(attempted.states, p) == Some(kept.states[p]) {
        if p in Paths(kept.events) {
          var f :| f in kept.events && f.path == p;
          assert f !in Filtered(kept, attempted).events;
        }
      }
      assert attempted.states + kept.states == attempted.states;
    }
    if f :| f in Filtered(kept, attempted).events {
      assert f.path in Paths(kept.events);
      assert (attempted.states + kept.states)[f.path] == kept.states[f.path];
    }
    forall p | p in kept.states && Get(attempted.states, p) != Some(kept.states[p])
      ensures p in Paths(Filtered(kept, attempted).events)
    {
      var f :| f in kept.events && f.path == p;
      assert f in Filtered(kept, attempted).events;
    }
  }

  /** What holds between any two actions, given the event kept for the next start. */
  ghost predicate Inv(initial: Option<Event>, restartUnchanged: bool, pending: Option<Event>, trace: seq<Action>) {
    && Orderly(initial, trace) && FirstGetsAll(initial, trace)
    && (Starts(trace) == 0 ==> pending == Gathered(initial, trace))
    && (pending.Some? ==> Some(pending.value.snapshot) == Latest(initial, trace))
    && (AllDeliveries(trace) ==> CarriesAll(trace))
    && (AllDeliveries(trace) && Starts(trace) > 0 ==> Carries(pending, SinceStart(trace), Attempted(trace)))
    && (!restartUnchanged ==> AlwaysNewer(trace))
    && (!restartUnchanged && Starts(trace) > 0 ==>
          Starts(trace) <= 1 + |Receives(trace)| - if pending.Some? then 1 else 0)
  }

  lemma InvReceive(initial: Option<Event>, restartUnchanged: bool, pending: Option<Event>, trace: seq<Action>, e: Event)
    requires Inv(initial, restartUnchanged, pending, trace)
    ensures Inv(initial, restartUnchanged, Some(Join(pending, e)), trace + [Received(e)])
  {
    Snoc(initial, trace, Received(e));
    SnocSaid(trace, Received(e));
    hide Carries;
    hide AllDeliveries;
    if AllDeliveries(trace + [Received(e)]) {
      SnocCarries(trace, Received(e));
      if Starts(trace) > 0 { CarriesOneMore(pending, SinceStart(trace), Attempted(trace), e); }
    }
    SnocOrderly(initial, trace, Received(e));
    SnocFirst(initial, trace, Received(e));
    if !restartUnchanged { SnocNewer(trace, Received(e)); }
  }

  lemma InvDelay(initial: Option<Event>, restartUnchanged: bool, pending: Option<Event>, trace: seq<Action>)
    requires Inv(initial, restartUnchanged, pending, trace)
    ensures Inv(initial, restartUnchanged, pending, trace + [Delayed]) && Rested(trace + [Delayed])
  {
    Snoc(initial, trace, Delayed);
    SnocSaid(trace, Delayed);
    if AllDeliveries(trace) { SnocCarries(trace, Delayed); }
    SnocOrderly(initial, trace, Delayed);
    SnocFirst(initial, trace, Delayed);
    if !restartUnchanged { SnocNewer(trace, Delayed); }
  }

  lemma InvStart(initial: Option<Event>, restartUnchanged: bool, pending: Option<Event>, trace: seq<Action>)
    requires Inv(initial, restartUnchanged, pending, trace) && Rested(trace)
    requires !restartUnchanged && Starts(trace) > 0 ==> pending.Some? && !Redundant(pending.value, Attempted(trace))
    ensures Inv(initial, restartUnchanged, None, trace + [Started(pending)])
  {
    Snoc(initial, trace, Started(pending));
    SnocSaid(trace, Started(pending));
    if AllDeliveries(trace) { SnocCarries(trace, Started(pending)); }
    SnocOrderly(initial, trace, Started(pending));
    SnocFirst(initial, trace, Started(pending));
    if !restartUnchanged { SnocNewer(trace, Started(pending)); }
  }

  lemma TracksNothing(all: seq<Input>)
    ensures Tracks([], all, all)
  {
  }

  lemma TracksMeans(trace: seq<Action>, rest: seq<Input>, all: seq<Input>)
    requires Tracks(trace, rest, all)
    ensures |trace| <= |all|
    ensures forall i | 0 <= i < |trace| :: Fits(trace[i], all[i]) && (all[i].Replaced? ==> all[i].outcome == Crashed)
    ensures rest == all[|trace|..]
  {
  }

  lemma InvStarts(initial: Option<Event>, restartUnchanged: bool)
    ensures Inv(initial, restartUnchanged, initial, []) && Receives([]) == [] && Starts([]) == 0
    ensures Attempted([]) == Applied(map[], None) && !Rested([])
  {
  }

  /** An event that says nothing new may be dropped, others may lose some of their hints. */
  lemma InvDrops(initial: Option<Event>, restartUnchanged: bool, pending: Option<Event>, trace: seq<Action>,
                 attempted: Applied)
    requires Inv(initial, restartUnchanged, pending, trace)
    requires Starts(trace) > 0 && attempted == Attempted(trace)
    ensures pending.Some? && Redundant(pending.value, attempted) ==> Inv(initial, restartUnchanged, None, trace)
    ensures pending.Some? ==> Inv(initial, restartUnchanged, Some(Filtered(pending.value, attempted)), trace)
    ensures pending.Some? && AllDeliveries(trace) ==>
      (Redundant(pending.value, attempted) <==> !IsNews(SinceStart(trace), attempted))
    ensures pending.None? && AllDeliveries(trace) ==> !IsNews(SinceStart(trace), attempted)
  {
    if pending.Some? && AllDeliveries(trace) {
      RedundantIff(pending.value, SinceStart(trace), attempted);
    }
  }

  lemma InvMeans(initial: Option<Event>, restartUnchanged: bool, pending: Option<Event>, trace: seq<Action>)
    requires Inv(initial, restartUnchanged, pending, trace)
    ensures Orderly(initial, trace) && FirstGetsAll(initial, trace) && (AllDeliveries(trace) ==> CarriesAll(trace))
    ensures !restartUnchanged ==> AlwaysNewer(trace) && Starts(trace) <= 1 + |Receives(trace)|
  {
  }

  /** Delays, waits for news after a second crash, and starts replacements until one keeps running. */
  method WaitAndRestart(inputs: seq<Input>, initialEvent: Option<Event>, restartUnchanged: bool)
    returns (trace: seq<Action>, result: Result)
    // The actions answer the inputs one by one.
    ensures |trace| <= |inputs| && forall i | 0 <= i < |trace| :: Fits(trace[i], inputs[i])
    ensures Orderly(initialEvent, trace) && FirstGetsAll(initialEvent, trace)
    ensures !restartUnchanged ==> AlwaysNewer(trace)
    ensures !restartUnchanged ==> Starts(trace) <= 1 + |Receives(trace)|
    // It goes on as long as replacements crash, and ends with the first that does not.
    ensures forall i | 0 <= i < |trace| && inputs[i].Replaced? ::
      inputs[i].outcome == Crashed || (i == |trace| - 1 && !result.Shutdown?)
    ensures result.Restarted? ==> trace != [] && trace[|trace| - 1] == Started(result.event)
    ensures !result.Shutdown? ==>
      trace != [] && inputs[|trace| - 1] == Replaced(if result.Error? then Failed else Running)
    // Every start carries all the news there is.
    ensures AllDeliveries(trace) ==> CarriesAll(trace)
    // It gives up only where the inputs do: before the delay is over at a replacement, after it at anything
    // else. In a crash loop it waits for news, and never gives up at any.
    ensures result.Shutdown? && |trace| < |inputs| && !Rested(trace) ==> inputs[|trace|].Replaced?
    ensures result.Shutdown? && |trace| < |inputs| && Rested(trace) ==>
      if Starts(trace) == 0 || restartUnchanged then !inputs[|trace|].Replaced?
      else
        !inputs[|trace|].Arrived?
        && (AllDeliveries(trace) && IsNews(SinceStart(trace), Attempted(trace)) ==> inputs[|trace|].Elapsed?)
  {
    hide Inv;
    hide Orderly;
    hide AlwaysNewer;
    hide Receives;
    hide Attempted;
    hide Starts;
    hide Redundant;
    hide Marked;
    hide Filtered;
    hide Gathered;
    hide Latest;
    hide Tracks;
    hide FirstGetsAll;
    hide Rested;
    hide CarriesAll;
    hide AllDeliveries;
    hide SinceStart;
    hide IsNews;
    var rest := inputs;
    var pending, attempted, firstRetry := initialEvent, Applied(map[], None), true;
    trace := [];
    InvStarts(initialEvent, restartUnchanged);
    TracksNothing(inputs);
    while true
      invariant Tracks(trace, rest, inputs)
      invariant Inv(initialEvent, restartUnchanged, pending, trace)
      invariant attempted == Attempted(trace) && !Rested(trace) && (firstRetry <==> Starts(trace) == 0)
      decreases |rest|
    {
      var elapsed;
      rest, pending, trace, elapsed := Delay(rest, initialEvent, restartUnchanged, pending, trace, inputs);
      InvMeans(initialEvent, restartUnchanged, pending, trace);
      TracksMeans(trace, rest, inputs);
      if !elapsed {
        return trace, Shutdown;
      }
      if !firstRetry && !restartUnchanged {
        var newer;
        rest, pending, trace, newer := AwaitNews(rest, initialEvent, attempted, pending, trace, inputs);
        InvMeans(initialEvent, restartUnchanged, pending, trace);
        TracksMeans(trace, rest, inputs);
        if !newer {
          return trace, Shutdown;
        }
      }
      firstRetry := false;
      if rest == [] || !rest[0].Replaced? {
        return trace, Shutdown;
      }
      InvStart(initialEvent, restartUnchanged, pending, trace);
      Snoc(initialEvent, trace, Started(pending));
      if rest[0].outcome == Crashed {
        SnocTracks(trace, rest, inputs, Started(pending));
      }
      TracksMeans(trace, rest, inputs);
      trace := trace + [Started(pending)];
      InvMeans(initialEvent, restartUnchanged, None, trace);
      match rest[0].outcome {
        case Running => return trace, Restarted(pending);
        case Failed => return trace, Error;
        case Crashed =>
      }
      rest := rest[1..];
      if pending.Some? {
        attempted := Marked(pending.value, attempted);
        pending := None;
      }
      rest, pending, trace := TakeStock(rest, initialEvent, restartUnchanged, attempted, trace, inputs);
    }
  }

  /** After a crash: what arrived during the attempt, less what the attempts so far have covered. */
  method TakeStock(inputs: seq<Input>, initialEvent: Option<Event>, restartUnchanged: bool, attempted: Applied,
                   before: seq<Action>, ghost all: seq<Input>)
    returns (rest: seq<Input>, pending: Option<Event>, trace: seq<Action>)
    requires Tracks(before, inputs, all) && Starts(before) > 0 && attempted == Attempted(before)
    requires Inv(initialEvent, restartUnchanged, None, before)
    ensures Tracks(trace, rest, all) && |rest| <= |inputs|
    ensures Inv(initialEvent, restartUnchanged, pending, trace)
    ensures Starts(trace) == Starts(before) && Attempted(trace) == Attempted(before) && Rested(trace) == Rested(before)
    ensures var queued := Queued(None, inputs);
      pending ==
        if queued.Some? && !Redundant(queued.value, attempted) then Some(Filtered(queued.value, attempted)) else None
    ensures pending.Some? ==> !Redundant(pending.value, attempted)
  {
    hide Inv;
    hide Tracks;
    rest, pending, trace := Drain(inputs, initialEvent, restartUnchanged, None, before, all);
    InvDrops(initialEvent, restartUnchanged, pending, trace, attempted);
    if pending.Some? {
      FilteredIsNews(pending.value, attempted);
    }
    if pending.Some? && Redundant(pending.value, attempted) {
      pending := None;
    } else if pending.Some? {
      pending := Some(Filtered(pending.value, attempted));
    }
  }

  /** The quiet period after a crash; events keep accumulating. */
  method Delay(inputs: seq<Input>, initialEvent: Option<Event>, restartUnchanged: bool, kept: Option<Event>,
               before: seq<Action>, ghost all: seq<Input>)
    returns (rest: seq<Input>, pending: Option<Event>, trace: seq<Action>, elapsed: bool)
    requires Tracks(before, inputs, all)
    requires Inv(initialEvent, restartUnchanged, kept, before)
    ensures Tracks(trace, rest, all) && |rest| <= |inputs|
    ensures Inv(initialEvent, restartUnchanged, pending, trace)
    ensures Starts(trace) == Starts(before) && Attempted(trace) == Attempted(before)
    ensures elapsed ==> Rested(trace) && |rest| < |inputs|
    ensures !elapsed ==> (rest == [] || rest[0].Replaced?) && (Rested(trace) <==> Rested(before))
  {
    rest, pending, trace, elapsed := inputs, kept, before, false;
    while rest != [] && (rest[0].Elapsed? || rest[0].Arrived?)
      invariant Tracks(trace, rest, all) && |rest| <= |inputs|
      invariant Inv(initialEvent, restartUnchanged, pending, trace)
      invariant Starts(trace) == Starts(before) && Attempted(trace) == Attempted(before)
      invariant Rested(trace) == Rested(before)
    {
      if rest[0].Elapsed? {
        InvDelay(initialEvent, restartUnchanged, pending, trace);
        Snoc(initialEvent, trace, Delayed);
        SnocTracks(trace, rest, all, Delayed);
        trace, rest, elapsed := trace + [Delayed], rest[1..], true;
        return;
      }
      rest, pending, trace := Receive(rest, initialEvent, restartUnchanged, pending, trace, all);
    }
  }

  /** One event is received and merged. */
  method Receive(inputs: seq<Input>, initialEvent: Option<Event>, restartUnchanged: bool, kept: Option<Event>,
                 before: seq<Action>, ghost all: seq<Input>)
    returns (rest: seq<Input>, pending: Option<Event>, trace: seq<Action>)
    requires inputs != [] && inputs[0].Arrived? && Tracks(before, inputs, all)
    requires Inv(initialEvent, restartUnchanged, kept, before)
    ensures rest == inputs[1..] && Tracks(trace, rest, all)
    ensures pending == Some(Join(kept, inputs[0].event)) && Inv(initialEvent, restartUnchanged, pending, trace)
    ensures Starts(trace) == Starts(before) && Attempted(trace) == Attempted(before) && Rested(trace) == Rested(before)
  {
    var e := inputs[0].event;
    InvReceive(initialEvent, restartUnchanged, kept, before, e);
    Snoc(initialEvent, before, Received(e));
    SnocTracks(before, inputs, all, Received(e));
    rest, pending, trace := inputs[1..], Some(Join(kept, e)), before + [Received(e)];
  }

  /** What is in the queue, merged into what was kept. */
  function Queued(kept: Option<Event>, inputs: seq<Input>): Option<Event>
    decreases |inputs|
  {
    if inputs != [] && inputs[0].Arrived? then Queued(Some(Join(kept, inputs[0].event)), inputs[1..]) else kept
  }

  /** Dropping what was attempted does not change whether the rest is news. */
  lemma FilteredIsNews(e: Event, applied: Applied)
    ensures Filtered(Filtered(e, applied), applied) == Filtered(e, applied)
    ensures Redundant(Filtered(e, applied), applied) <==> Redundant(e, applied)
  {
  }

  /** Everything that is already in the queue is received. */
  method Drain(inputs: seq<Input>, initialEvent: Option<Event>, restartUnchanged: bool, kept: Option<Event>,
               before: seq<Action>, ghost all: seq<Input>)
    returns (rest: seq<Input>, pending: Option<Event>, trace: seq<Action>)
    requires Tracks(before, inputs, all)
    requires Inv(initialEvent, restartUnchanged, kept, before)
    ensures Tracks(trace, rest, all) && |rest| <= |inputs|
    ensures Inv(initialEvent, restartUnchanged, pending, trace) && (kept.Some? ==> pending.Some?)
    ensures pending == Queued(kept, inputs) && (rest == [] || !rest[0].Arrived?)
    ensures Starts(trace) == Starts(before) && Attempted(trace) == Attempted(before) && Rested(trace) == Rested(before)
  {
    rest, pending, trace := inputs, kept, before;
    while rest != [] && rest[0].Arrived?
      invariant Tracks(trace, rest, all) && |rest| <= |inputs|
      invariant Inv(initialEvent, restartUnchanged, pending, trace) && (kept.Some? ==> pending.Some?)
      invariant Queued(pending, rest) == Queued(kept, inputs)
      invariant Starts(trace) == Starts(before) && Attempted(trace) == Attempted(before)
      invariant Rested(trace) == Rested(before)
    {
      rest, pending, trace := Receive(rest, initialEvent, restartUnchanged, pending, trace, all);
    }
  }

  /** In a crash loop, waits until the watcher says something that was not attempted yet. */
  method AwaitNews(inputs: seq<Input>, initialEvent: Option<Event>, attempted: Applied, kept: Option<Event>,
                   before: seq<Action>, ghost all: seq<Input>)
    returns (rest: seq<Input>, pending: Option<Event>, trace: seq<Action>, newer: bool)
    requires Tracks(before, inputs, all)
    requires Inv(initialEvent, false, kept, before)
    requires Rested(before) && Starts(before) > 0 && attempted == Attempted(before)
    ensures Tracks(trace, rest, all) && |rest| <= |inputs|
    ensures Inv(initialEvent, false, pending, trace) && Rested(trace)
    ensures Starts(trace) == Starts(before) && Attempted(trace) == Attempted(before)
    ensures newer ==> pending.Some? && !Redundant(pending.value, attempted)
    // Everything that arrives is taken in, and it is told whether any of it is new.
    ensures rest == [] || !rest[0].Arrived?
    ensures newer <==> var queued := Queued(kept, inputs); queued.Some? && !Redundant(queued.value, attempted)
    ensures AllDeliveries(trace) ==> (newer <==> IsNews(SinceStart(trace), attempted))
  {
    hide Inv;
    hide Tracks;
    hide Filtered;
    hide Redundant;
    hide AllDeliveries;
    hide IsNews;
    hide SinceStart;
    hide Rested;
    hide Starts;
    hide Attempted;
    rest, pending, trace, newer := inputs, kept, before, false;
    while true
      invariant Tracks(trace, rest, all) && |rest| <= |inputs|
      invariant Inv(initialEvent, false, pending, trace) && Rested(trace)
      invariant Starts(trace) == Starts(before) && Attempted(trace) == Attempted(before)
      invariant Queued(pending, rest) == Queued(kept, inputs)
      decreases |rest|
    {
      InvDrops(initialEvent, false, pending, trace, attempted);
      if pending.Some? {
        rest, pending, trace := Drain(rest, initialEvent, false, pending, trace, all);
        InvDrops(initialEvent, false, pending, trace, attempted);
        FilteredIsNews(pending.value, attempted);
        if !Redundant(pending.value, attempted) {
          pending, newer := Some(Filtered(pending.value, attempted)), true;
          return;
        }
        pending := None;
      }
      if rest == [] || !rest[0].Arrived? {
        return;
      }
      rest, pending, trace := Receive(rest, initialEvent, false, None, trace, all);
    }
  }
}
