/**
 * All interleavings of an event loop's thread with the threads that use it.
 * One step is one critical section; what happens between them is other steps.
 */
module EventLoopRuns {
  import opened Options
  import opened EventLoop

  type Thread = nat

  /** Where the loop's thread is between critical sections. */
  datatype Place =
    | AtTop                          // about to look for work
    | Calling(handler: Handler)      // in a handler's callback, without the lock
    | Sleeping(until: Option<int>)   // waiting on the condition
    | Exited

  /**
   * The whole system. `waiting` are threads inside `remove_handler` that wait
   * for a callback to end; `removed` are the handlers for which `remove_handler`
   * has returned on a thread other than the loop's.
   */
  datatype System = System(loop: Loop, place: Place, waiting: set<(Thread, Handler)>, removed: set<Handler>)

  const Initial := System(NewLoop, AtTop, {}, {})

  datatype Action =
    | Sending(event: Event)
    | AddingTimer(handler: Handler, interval: nat, oneShot: bool, now: int)
    | StoppingTimer(id: TimerId)
    | Filtering(filter: Event -> Option<Event>)
    | Removing(thread: Thread, handler: Handler)
    | RemovingInLoop(handler: Handler)
    | Checking(thread: Thread, handler: Handler)
    | Turn(time: int)
    | Returning
    | Waking(clock: int, timedOut: bool)
    | Stopping
    | Joined

  /** A filter may drop events and hand them on, but no pending event to a handler that is being removed. */
  predicate Respects(l: Loop, filter: Event -> Option<Event>) {
    forall e | e in l.pending :: filter(e).Some? ==> filter(e).value.handler !in l.removing
  }

  /** Whether an action is one that filters should be. */
  predicate Respectful(s: System, a: Action) {
    a.Filtering? ==> Respects(s.loop, a.filter)
  }

  /** One turn of the loop in `entry`, up to the point where it gives up the lock. */
  function TakeTurn(s: System, now: int): System {
    if s.loop.quit then s.(place := Exited)
    else
      var (l1, fired) := FireTimer(s.loop, now);
      if fired.Some? then s.(loop := l1, place := Calling(fired.value.handler))
      else
        var (l2, event) := TakeEvent(l1);
        if event.Some? then s.(loop := l2, place := Calling(event.value.handler))
        else s.(loop := l2, place := Sleeping(l2.deadline))
  }

  /** The loop's thread leaves the condition: a signal is taken, unless the time was up. */
  function Wake(s: System, timedOut: bool): System {
    s.(place := AtTop, loop := s.loop.(signalled := s.loop.signalled && timedOut))
  }

  ghost predicate Step(s: System, a: Action, s': System) {
    match a
    case Sending(e) => s' == s.(loop := Send(s.loop, e))
    case AddingTimer(h, interval, oneShot, now) => s' == s.(loop := AddTimer(s.loop, h, interval, oneShot, now).0)
    case StoppingTimer(id) => s' == s.(loop := StopTimer(s.loop, id))
    case Filtering(filter) => s' == s.(loop := FilterEvents(s.loop, filter))
    case Removing(t, h) =>
      if s.loop.active == Some(h)
      then s' == s.(loop := Remove(s.loop, h), waiting := s.waiting + {(t, h)})
      else s' == s.(loop := Remove(s.loop, h), removed := s.removed + {h})
    case RemovingInLoop(h) => s.place.Calling? && s' == s.(loop := Remove(s.loop, h))
    case Checking(t, h) =>
      && (t, h) in s.waiting
      && if s.loop.active == Some(h) then s' == s
         else s' == s.(waiting := s.waiting - {(t, h)}, removed := s.removed + {h})
    case Turn(now) => s.place.AtTop? && s' == TakeTurn(s, now)
    case Returning => s.place.Calling? && s' == s.(place := AtTop, loop := s.loop.(active := None))
    case Waking(clock, timedOut) =>
      && s.place.Sleeping? && (timedOut ==> s.place.until.Some? && clock >= s.place.until.value)
      && s' == Wake(s, timedOut)
    case Stopping => s' == s.(loop := s.loop.(quit := true, signalled := true))
    case Joined => s.place.Exited? && s' == s.(loop := s.loop.(pending := [], timers := [], deadline := None))
  }

  // ----- The invariant

  /** No event and no timer of a handler being removed is left. */
  predicate NothingFor(l: Loop, gone: set<Handler>) {
    && (forall e | e in l.pending :: e.handler !in gone)
    && (forall t | t in l.timers :: t.handler !in gone)
  }

  /** While the loop sleeps unsignalled there is nothing to do, and it wakes before the earliest timer. */
  predicate SleepOk(s: System) {
    s.place.Sleeping? && !s.loop.signalled ==>
      && s.loop.pending == [] && !s.loop.quit
      && (s.loop.deadline.Some? ==> s.place.until == s.loop.deadline)
  }

  predicate Inv(s: System) {
    && TimersOk(s.loop) && IdsOk(s.loop)
    && NothingFor(s.loop, s.loop.removing)
    && (s.loop.active == if s.place.Calling? then Some(s.place.handler) else None)
    && s.removed <= s.loop.removing
    && (forall h | h in s.removed :: s.loop.active != Some(h))
    && (forall w | w in s.waiting :: w.1 in s.loop.removing)
    && SleepOk(s)
  }

  lemma InitialInv()
    ensures Inv(Initial)
  {
  }

  lemma RemoveClears(l: Loop, h: Handler)
    requires NothingFor(l, l.removing)
    ensures NothingFor(Remove(l, h), l.removing + {h})
  {
    hide EventsWithout, TimersWithout;
  }

  lemma RemoveStep(s: System, h: Handler)
    requires Inv(s)
    ensures Inv(s.(loop := Remove(s.loop, h)))
    ensures Remove(s.loop, h).active == s.loop.active && h in Remove(s.loop, h).removing
  {
    RemoveOk(s.loop, h);
    RemoveClears(s.loop, h);
    hide TimersOk, IdsOk, NothingFor, TimersWithout, EventsWithout;
    if s.loop.pending == [] { assert EventsWithout(s.loop.pending, h) == []; }
  }

  lemma TurnStep(s: System, now: int)
    requires Inv(s) && s.place.AtTop?
    ensures Inv(TakeTurn(s, now))
  {
    FireTimerOk(s.loop, now);
    FireClears(s.loop, now);
    TakeClears(FireTimer(s.loop, now).0);
    hide TimersOk, IdsOk, NothingFor, FireTimer, TakeEvent;
  }

  /** A handler that is called is not being removed, and nothing is left of those that are. */
  lemma FireClears(l: Loop, now: int)
    requires NothingFor(l, l.removing)
    ensures var (r, fired) := FireTimer(l, now);
            && NothingFor(r, r.removing) && r.removing == l.removing && r.signalled == l.signalled && r.quit == l.quit
            && r.pending == l.pending
            && (fired.Some? ==> r.active == Some(fired.value.handler) && fired.value.handler !in l.removing)
            && (fired.None? ==> r.active == l.active)
  {
    hide FirstExpired, MinDeadline;
  }

  lemma TakeClears(l: Loop)
    requires NothingFor(l, l.removing)
    ensures var (r, event) := TakeEvent(l);
            && NothingFor(r, r.removing) && r == l.(pending := r.pending, active := r.active)
            && (event.Some? ==> r.active == Some(event.value.handler) && event.value.handler !in l.removing)
            && (event.None? ==> r == l && l.pending == [])
            && (TimersOk(l) ==> TimersOk(r)) && (IdsOk(l) ==> IdsOk(r))
  {
  }

  lemma SendStep(s: System, e: Event)
    requires Inv(s)
    ensures Inv(s.(loop := Send(s.loop, e)))
  {
    LoopKept(s, s.(loop := Send(s.loop, e)));
    hide TimersOk, IdsOk;
  }

  lemma AddStep(s: System, h: Handler, interval: nat, oneShot: bool, now: int)
    requires Inv(s)
    ensures Inv(s.(loop := AddTimer(s.loop, h, interval, oneShot, now).0))
  {
    AddTimerOk(s.loop, h, interval, oneShot, now);
    hide IdsOk;
  }

  lemma {:induction false} FilteredHas(events: seq<Event>, filter: Event -> Option<Event>, e: Event)
    requires e in events && filter(e).Some?
    ensures filter(e).value in Filtered(events, filter)
  {
    var n := |events| - 1;
    if e != events[n] {
      assert e in events[..n];
      FilteredHas(events[..n], filter, e);
    }
  }

  /** A filter keeps the invariant exactly if it hands no pending event to a handler that is being removed. */
  lemma FilterStep(s: System, filter: Event -> Option<Event>)
    requires Inv(s)
    ensures Inv(s.(loop := FilterEvents(s.loop, filter))) <==> Respects(s.loop, filter)
  {
    LoopKept(s, s.(loop := FilterEvents(s.loop, filter)));
    forall e | e in s.loop.pending && filter(e).Some? ensures filter(e).value in Filtered(s.loop.pending, filter) {
      FilteredHas(s.loop.pending, filter, e);
    }
    hide TimersOk, IdsOk, Filtered;
  }

  lemma CheckStep(s: System, t: Thread, h: Handler)
    requires Inv(s) && (t, h) in s.waiting && s.loop.active != Some(h)
    ensures Inv(s.(waiting := s.waiting - {(t, h)}, removed := s.removed + {h}))
  {
    hide TimersOk, IdsOk, NothingFor;
  }

  /** The loop's thread returns from a callback, wakes up, or is told to stop. */
  lemma PlaceStep(s: System, s': System)
    requires Inv(s) && s' == s.(place := s'.place, loop := s.loop.(active := s'.loop.active, signalled := s'.loop.signalled, quit := s'.loop.quit))
    requires s'.loop.active == if s'.place.Calling? then Some(s'.place.handler) else None
    requires s'.loop.active.None? || s'.loop.active == s.loop.active
    requires s'.place.Sleeping? ==> s'.loop.signalled
    ensures Inv(s')
  {
    LoopKept(s, s');
    hide TimersOk, IdsOk, NothingFor;
  }

  /** A flag raised anywhere does no harm. */
  lemma StopLoopStep(s: System)
    requires Inv(s)
    ensures Inv(s.(loop := s.loop.(quit := true, signalled := true)))
  {
    PlaceStep(s, s.(loop := s.loop.(quit := true, signalled := true)));
  }

  lemma JoinStep(s: System)
    requires Inv(s) && s.place.Exited?
    ensures Inv(s.(loop := s.loop.(pending := [], timers := [], deadline := None)))
  {
  }

  /** Every step keeps the invariant, if filters do. */
  lemma StepInv(s: System, a: Action, s': System)
    requires Inv(s) && Step(s, a, s') && Respectful(s, a)
    ensures Inv(s')
  {
    match a
    case Sending(e) => SendStep(s, e);
    case AddingTimer(h, interval, oneShot, now) => AddStep(s, h, interval, oneShot, now);
    case StoppingTimer(id) => StopStep(s, id);
    case Filtering(filter) => FilterStep(s, filter);
    case Removing(t, h) =>
      RemoveStep(s, h);
      hide TimersOk, IdsOk, NothingFor, Remove;
    case RemovingInLoop(h) => RemoveStep(s, h);
    case Checking(t, h) => if s.loop.active != Some(h) { CheckStep(s, t, h); }
    case Turn(now) => TurnStep(s, now);
    case Returning => PlaceStep(s, s');
    case Waking(_, _) =>
      hide TimersOk, IdsOk, NothingFor;
      PlaceStep(s, s');
    case Stopping => StopLoopStep(s);
    case Joined => JoinStep(s);
  }

  lemma StepGrows(s: System, a: Action, s': System)
    requires Step(s, a, s')
    ensures s.removed <= s'.removed && s.loop.removing <= s'.loop.removing
  {
    if a.Turn? { TurnKeeps(s, a.time); }
    hide TakeTurn, Filtered, MinDeadline, IndexOf, EventsWithout, TimersWithout, Respects;
  }

  lemma TurnKeeps(s: System, now: int)
    ensures var s' := TakeTurn(s, now);
            s'.removed == s.removed && s'.loop.removing == s.loop.removing
  {
    hide FirstExpired, MinDeadline;
  }

  /** Steps that leave the timers alone keep what depends on them only. */
  lemma LoopKept(s: System, s': System)
    requires s'.loop.timers == s.loop.timers && s'.loop.deadline == s.loop.deadline && s'.loop.nextId == s.loop.nextId
    ensures TimersOk(s.loop) ==> TimersOk(s'.loop)
    ensures IdsOk(s.loop) ==> IdsOk(s'.loop)
    ensures s'.loop.pending == s.loop.pending ==>
              (NothingFor(s.loop, s.loop.removing) ==> NothingFor(s'.loop, s.loop.removing))
  {
  }

  lemma StopStep(s: System, id: TimerId)
    requires Inv(s)
    ensures Inv(s.(loop := StopTimer(s.loop, id)))
  {
    StopTimerOk(s.loop, id);
    hide IndexOf, IdsOk;
  }

  // ----- Runs

  /** An interleaving of the threads, with filters of any kind. */
  ghost predicate Interleaves(states: seq<System>, actions: seq<Action>) {
    && |states| == |actions| + 1
    && states[0] == Initial
    && forall k | 0 <= k < |actions| :: Step(states[k], actions[k], states[k + 1])
  }

  ghost predicate IsRun(states: seq<System>, actions: seq<Action>) {
    && Interleaves(states, actions)
    && forall k | 0 <= k < |actions| :: Respectful(states[k], actions[k])
  }

  lemma {:induction false} KeptUpTo(states: seq<System>, actions: seq<Action>, k: nat)
    requires Interleaves(states, actions) && k < |states|
    requires forall i | 0 <= i < k :: Respectful(states[i], actions[i])
    ensures Inv(states[k])
  {
    hide Inv, Step, Respectful;
    if k == 0 {
      InitialInv();
    } else {
      KeptUpTo(states, actions, k - 1);
      StepInv(states[k - 1], actions[k - 1], states[k]);
    }
  }

  lemma RunInv(states: seq<System>, actions: seq<Action>, k: nat)
    requires IsRun(states, actions) && k < |states|
    ensures Inv(states[k])
  {
    KeptUpTo(states, actions, k);
  }

  lemma {:induction false} RemovedStays(states: seq<System>, actions: seq<Action>, i: nat, j: nat)
    requires IsRun(states, actions) && i <= j < |states|
    ensures states[i].removed <= states[j].removed && states[i].loop.removing <= states[j].loop.removing
    decreases j - i
  {
    if i < j {
      hide Inv, Step;
      RemovedStays(states, actions, i, j - 1);
      StepGrows(states[j - 1], actions[j - 1], states[j]);
    }
  }

  /**
   * Once `remove_handler` has returned on another thread, in every later state
   * the handler is not active, has no event and no timer, and none can be added.
   */
  lemma RemovedForGood(states: seq<System>, actions: seq<Action>, i: nat, j: nat, h: Handler)
    requires IsRun(states, actions) && i <= j < |states| && h in states[i].removed
    ensures var s := states[j];
            && s.loop.active != Some(h) && s.place != Calling(h)
            && (forall e | e in s.loop.pending :: e.handler != h)
            && (forall t | t in s.loop.timers :: t.handler != h)
            && (forall payload :: Send(s.loop, Event(h, payload)) == s.loop)
            && (forall interval: nat, oneShot, now :: AddTimer(s.loop, h, interval, oneShot, now) == (s.loop, 0))
  {
    RunInv(states, actions, j);
    RemovedStays(states, actions, i, j);
    hide TimersOk, IdsOk, IsRun;
  }

  /**
   * In every reachable state there is a deadline exactly when there are timers,
   * it is no later than any of them, and a loop that sleeps unsignalled has no
   * event to deliver and wakes no later than the earliest timer.
   */
  lemma NeverSleepsPast(states: seq<System>, actions: seq<Action>, j: nat)
    requires IsRun(states, actions) && j < |states|
    ensures var s := states[j];
            && (s.loop.deadline.None? <==> s.loop.timers == [])
            && (forall t | t in s.loop.timers :: s.loop.deadline.value <= t.deadline)
            && (s.place.Sleeping? && !s.loop.signalled ==>
                  && s.loop.pending == []
                  && (forall t | t in s.loop.timers :: s.place.until.Some? && s.place.until.value <= t.deadline))
  {
    RunInv(states, actions, j);
    hide IsRun, IdsOk, NothingFor;
  }

  /** In every reachable state the loop calls a handler for a timer only once the timer is due. */
  lemma NeverFiresEarly(states: seq<System>, actions: seq<Action>, j: nat)
    requires IsRun(states, actions) && j < |actions| && actions[j].Turn?
    requires FireTimer(states[j].loop, actions[j].time).1.Some?
    ensures var t := FireTimer(states[j].loop, actions[j].time).1.value;
            t in states[j].loop.timers && t.deadline <= actions[j].time && t.handler !in states[j].loop.removing
  {
    RunInv(states, actions, j);
    FireTimerOk(states[j].loop, actions[j].time);
    FireClears(states[j].loop, actions[j].time);
    hide IsRun, FireTimer, TimersOk, IdsOk;
  }

  // ----- Filters

  /**
   * Why filters must respect removal: in any interleaving there is never an
   * event or a timer for a handler that is being removed, exactly if no filter,
   * when it is applied, hands a pending event to such a handler.
   */
  lemma FilterExactly(states: seq<System>, actions: seq<Action>)
    requires Interleaves(states, actions)
    ensures (forall k | 0 <= k < |states| :: NothingFor(states[k].loop, states[k].loop.removing)) <==>
            (forall k | 0 <= k < |actions| && actions[k].Filtering? :: Respects(states[k].loop, actions[k].filter))
  {
    if forall k | 0 <= k < |states| :: NothingFor(states[k].loop, states[k].loop.removing) {
      hide NothingFor, Respects, FilterEvents;
      forall k | 0 <= k < |actions| && actions[k].Filtering? ensures Respects(states[k].loop, actions[k].filter) {
        assert Step(states[k], actions[k], states[k + 1]);
        assert NothingFor(states[k + 1].loop, states[k + 1].loop.removing);
        FilterShows(states[k].loop, actions[k].filter);
      }
    }
    if forall k | 0 <= k < |actions| && actions[k].Filtering? :: Respects(states[k].loop, actions[k].filter) {
      forall k | 0 <= k < |states| ensures NothingFor(states[k].loop, states[k].loop.removing) {
        hide Step, NothingFor, Respects, TimersOk, IdsOk, SleepOk;
        KeptUpTo(states, actions, k);
      }
    }
  }

  lemma FilterShows(l: Loop, filter: Event -> Option<Event>)
    requires NothingFor(FilterEvents(l, filter), FilterEvents(l, filter).removing)
    ensures Respects(l, filter)
  {
    forall e | e in l.pending && filter(e).Some? ensures filter(e).value in Filtered(l.pending, filter) {
      FilteredHas(l.pending, filter, e);
    }
  }

  /**
   * An interleaving in which a filter hands an event to a handler that was
   * removed, and that handler becomes active again.
   */
  lemma RetargetBreaksRemoval(filter: Event -> Option<Event>) returns (states: seq<System>, actions: seq<Action>)
    requires filter(Event(0, 7)) == Some(Event(1, 7))
    ensures Interleaves(states, actions) && |actions| == 4 && actions[2] == Filtering(filter)
    ensures 1 in states[1].removed && states[4].place == Calling(1)
  {
    var s1 := Initial.(loop := NewLoop.(removing := {1}), removed := {1});
    var s2 := s1.(loop := s1.loop.(pending := [Event(0, 7)], signalled := true));
    var s3 := s2.(loop := s2.loop.(pending := [Event(1, 7)]));
    var s4 := s3.(loop := s3.loop.(pending := [], active := Some(1)), place := Calling(1));
    actions := [Removing(0, 1), Sending(Event(0, 7)), Filtering(filter), Turn(0)];
    states := [Initial, s1, s2, s3, s4];
    assert Step(Initial, actions[0], s1);
    assert Step(s1, actions[1], s2);
    RetargetOne(s2.loop.pending, filter);
    assert Step(s2, actions[2], s3);
    RetargetTurn(s3);
    hide Step;
  }

  lemma RetargetTurn(s: System)
    requires s.place == AtTop && !s.loop.quit && s.loop.timers == [] && s.loop.pending == [Event(1, 7)]
    requires s.loop.deadline.None?
    ensures Step(s, Turn(0), s.(loop := s.loop.(pending := [], active := Some(1)), place := Calling(1)))
  {
  }

  lemma RetargetOne(events: seq<Event>, filter: Event -> Option<Event>)
    requires events == [Event(0, 7)] && filter(Event(0, 7)) == Some(Event(1, 7))
    ensures Filtered(events, filter) == [Event(1, 7)]
  {
    assert events[..0] == [] && Filtered(events[..0], filter) == [];
  }
}
