/**
 * What the event loop delivers, over all interleavings: the events of a handler
 * each once and in the order they were sent, and timers that stay until they
 * are stopped, removed with their handler, or have fired for the only time.
 */
module EventLoopDelivery {
  import opened Options
  import opened EventLoop
  import opened EventLoopRuns

  // ----- Events

  /** The events for a handler, in order. */
  function For(events: seq<Event>, h: Handler): seq<Event> {
    if events == [] then [] else (if events[0].handler == h then [events[0]] else []) + For(events[1..], h)
  }

  lemma {:induction false} ForConcat(a: seq<Event>, b: seq<Event>, h: Handler)
    ensures For(a + b, h) == For(a, h) + For(b, h)
  {
    if a == [] {
      assert a + b == b;
    } else {
      assert (a + b)[1..] == a[1..] + b;
      ForConcat(a[1..], b, h);
      Regroup(if a[0].handler == h then [a[0]] else [], For(a[1..], h), For(b, h));
    }
  }

  lemma Regroup(a: seq<Event>, b: seq<Event>, c: seq<Event>)
    ensures a + (b + c) == (a + b) + c
  {
  }

  /** The event that a step of the loop's thread delivers: its handler is called, and no timer fired. */
  function Delivery(s: System, a: Action): seq<Event> {
    if a.Turn? && !s.loop.quit && FireTimer(s.loop, a.time).1.None? && TakeEvent(s.loop).1.Some?
    then [TakeEvent(s.loop).1.value] else []
  }

  function Deliveries(states: seq<System>, actions: seq<Action>): seq<Event>
    requires |states| == |actions| + 1
  {
    if actions == [] then []
    else
      var n := |actions| - 1;
      Deliveries(states[..n + 1], actions[..n]) + Delivery(states[n], actions[n])
  }

  function Sent(actions: seq<Action>): seq<Event> {
    if actions == [] then []
    else
      var n := |actions| - 1;
      Sent(actions[..n]) + if actions[n].Sending? then [actions[n].event] else []
  }

  /** What leaves the events of a handler to the loop: it is not removed, no filter touches them, and the loop is not shut down. */
  ghost predicate LeavesAlone(a: Action, h: Handler) {
    match a
    case Removing(_, handler) => handler != h
    case RemovingInLoop(handler) => handler != h
    case Filtering(filter) =>
      forall e: Event :: if e.handler == h then filter(e) == Some(e) else filter(e).Some? ==> filter(e).value.handler != h
    case Joined => false
    case _ => true
  }

  lemma {:induction false} ForOthers(events: seq<Event>, gone: Handler, h: Handler)
    requires h != gone
    ensures For(EventsWithout(events, gone), h) == For(events, h)
  {
    if events != [] {
      var n := |events| - 1;
      ForOthers(events[..n], gone, h);
      assert events == events[..n] + [events[n]];
      ForConcat(events[..n], [events[n]], h);
      ForConcat(EventsWithout(events[..n], gone), [events[n]], h);
    }
  }

  lemma {:induction false} ForFiltered(events: seq<Event>, filter: Event -> Option<Event>, h: Handler)
    requires LeavesAlone(Filtering(filter), h)
    ensures For(Filtered(events, filter), h) == For(events, h)
  {
    if events != [] {
      var n := |events| - 1;
      var e := events[n];
      ForFiltered(events[..n], filter, h);
      assert events == events[..n] + [e];
      ForConcat(events[..n], [e], h);
      if filter(e).Some? {
        ForConcat(Filtered(events[..n], filter), [filter(e).value], h);
      }
    }
  }

  /** Each step keeps what is delivered and pending in step with what is sent. */
  lemma StepDelivers(s: System, a: Action, s': System, h: Handler)
    requires Step(s, a, s') && LeavesAlone(a, h) && h !in s.loop.removing
    ensures h !in s'.loop.removing
    ensures For(Delivery(s, a), h) + For(s'.loop.pending, h)
         == For(s.loop.pending, h) + For(if a.Sending? then [a.event] else [], h)
  {
    hide For, EventsWithout, TimersWithout, Filtered, FireTimer, MinDeadline, IndexOf;
    ForNothing(h);
    match a
    case Sending(e) => SendFor(s.loop, e, h);
    case Filtering(filter) => ForFiltered(s.loop.pending, filter, h);
    case Removing(_, handler) => ForOthers(s.loop.pending, handler, h);
    case RemovingInLoop(handler) => ForOthers(s.loop.pending, handler, h);
    case Turn(now) => TurnFor(s, now, h);
    case _ =>
  }

  lemma ForNothing(h: Handler)
    ensures For([], h) == []
  {
  }

  lemma SendFor(l: Loop, e: Event, h: Handler)
    requires h !in l.removing
    ensures For(Send(l, e).pending, h) == For(l.pending, h) + For([e], h)
  {
    ForConcat(l.pending, [e], h);
  }

  lemma TurnFor(s: System, now: int, h: Handler)
    ensures TakeTurn(s, now).loop.removing == s.loop.removing
    ensures For(Delivery(s, Turn(now)), h) + For(TakeTurn(s, now).loop.pending, h) == For(s.loop.pending, h)
  {
    TurnKeeps(s, now);
    assert FireTimer(s.loop, now).0.pending == s.loop.pending;
    hide FireTimer;
    var d := Delivery(s, Turn(now));
    if d != [] {
      assert s.loop.pending == d + s.loop.pending[1..];
      ForConcat(d, s.loop.pending[1..], h);
    }
  }

  /**
   * Exactly-once delivery in order: in every interleaving, as long as a handler
   * is not removed, no filter touches its events and the loop is not shut down,
   * the events for it that were delivered, and then those pending, are the
   * events sent to it.
   */
  lemma {:induction false} DeliveredInOrder(states: seq<System>, actions: seq<Action>, h: Handler)
    requires Interleaves(states, actions) && forall k | 0 <= k < |actions| :: LeavesAlone(actions[k], h)
    ensures h !in states[|actions|].loop.removing
    ensures For(Deliveries(states, actions), h) + For(states[|actions|].loop.pending, h) == For(Sent(actions), h)
    decreases |actions|
  {
    if actions != [] {
      hide Step, For, Delivery, LeavesAlone;
      var n := |actions| - 1;
      var front, now := Deliveries(states[..n + 1], actions[..n]), Delivery(states[n], actions[n]);
      var sent, more := Sent(actions[..n]), if actions[n].Sending? then [actions[n].event] else [];
      assert Deliveries(states, actions) == front + now && Sent(actions) == sent + more;
      DeliveredInOrder(states[..n + 1], actions[..n], h);
      StepDelivers(states[n], actions[n], states[n + 1], h);
      ForConcat(front, now, h);
      ForConcat(sent, more, h);
      hide Deliveries, Sent;
      InStep(For(front, h), For(now, h), For(states[n].loop.pending, h), For(states[n + 1].loop.pending, h), For(more, h));
    } else {
      ForNothing(h);
    }
  }

  lemma InStep(a: seq<Event>, d: seq<Event>, p: seq<Event>, p': seq<Event>, q: seq<Event>)
    requires d + p' == p + q
    ensures (a + d) + p' == (a + p) + q
  {
    Regroup(a, d, p');
    Regroup(a, p, q);
  }

  // ----- Timers

  /** What leaves a timer to the loop. */
  predicate Spares(a: Action, t: Timer) {
    match a
    case StoppingTimer(id) => id != t.id
    case Removing(_, handler) => handler != t.handler
    case RemovingInLoop(handler) => handler != t.handler
    case Joined => false
    case _ => true
  }

  /** The timer fires in a step. */
  predicate Fires(s: System, a: Action, t: Timer) {
    a.Turn? && !s.loop.quit && FireTimer(s.loop, a.time).1 == Some(t)
  }

  lemma {:induction false} TimersOthers(timers: seq<Timer>, gone: Handler, t: Timer)
    requires t in timers && t.handler != gone
    ensures t in TimersWithout(timers, gone)
  {
    var n := |timers| - 1;
    if timers[n] != t {
      assert t in timers[..n];
      TimersOthers(timers[..n], gone, t);
    }
  }

  /** A step that spares a timer leaves it as it is, or it fires, and then it is due again if it repeats. */
  lemma StepTimer(s: System, a: Action, s': System, t: Timer)
    requires TimersOk(s.loop) && IdsOk(s.loop) && Step(s, a, s') && Spares(a, t) && t in s.loop.timers
    ensures Fires(s, a, t) ==>
              && t.deadline <= a.time && s'.place == Calling(t.handler)
              && (t.interval > 0 ==> t.(deadline := a.time + t.interval) in s'.loop.timers)
    ensures !Fires(s, a, t) ==> t in s'.loop.timers
  {
    hide TimersWithout, EventsWithout, Filtered, FireTimer, TimersOk, IdsOk, IndexOf;
    match a
    case StoppingTimer(id) => StopTimerOk(s.loop, id);
    case Removing(_, handler) => TimersOthers(s.loop.timers, handler, t);
    case RemovingInLoop(handler) => TimersOthers(s.loop.timers, handler, t);
    case Turn(now) =>
      FiredTimers(s.loop, now);
      FireTimerOk(s.loop, now);
      var fired := FireTimer(s.loop, now).1;
      if fired.Some? && fired.value.id == t.id {
        SameId(s.loop, fired.value, t);
      }
    case _ =>
  }

  lemma SameId(l: Loop, a: Timer, b: Timer)
    requires IdsOk(l) && a in l.timers && b in l.timers && a.id == b.id
    ensures a == b
  {
  }

  /** The same timer, but for when it is due. */
  predicate Same(a: Timer, b: Timer) {
    a == b.(deadline := a.deadline)
  }

  /** Between two states of an interleaving nothing but firing happens to a timer. */
  ghost predicate Spared(actions: seq<Action>, i: nat, j: nat, t: Timer) {
    j <= |actions| && forall k | i <= k < j :: Spares(actions[k], t)
  }

  /**
   * A timer that repeats stays until it is stopped, its handler removed or the
   * loop shut down; and it is never due earlier than before, nor later than an
   * interval after it last fired.
   */
  lemma {:induction false} RepeatsForever(states: seq<System>, actions: seq<Action>, i: nat, j: nat, t: Timer) returns (t': Timer)
    requires IsRun(states, actions) && i <= j < |states| && t in states[i].loop.timers && t.interval > 0 && Spared(actions, i, j, t)
    ensures t' in states[j].loop.timers && Same(t', t) && t'.deadline >= t.deadline
    ensures t' == t || exists k | i <= k < j :: actions[k].Turn? && t'.deadline == actions[k].time + t.interval
    decreases j - i
  {
    if i == j {
      t' := t;
    } else {
      hide Step, IsRun, Fires, Spared, TimersOk, IdsOk;
      SparedStep(states, actions, i, j, t);
      var before := RepeatsForever(states, actions, i, j - 1, t);
      StepTimer(states[j - 1], actions[j - 1], states[j], before);
      if Fires(states[j - 1], actions[j - 1], before) {
        FiresInTurn(states[j - 1], actions[j - 1], before);
        t' := before.(deadline := actions[j - 1].time + t.interval);
      } else {
        t' := before;
      }
    }
  }

  lemma FiresInTurn(s: System, a: Action, t: Timer)
    requires Fires(s, a, t)
    ensures a.Turn?
  {
  }

  /** A timer that fires once stays as it is until it fires, is stopped, its handler removed or the loop shut down. */
  lemma {:induction false} FiresOnce(states: seq<System>, actions: seq<Action>, i: nat, j: nat, t: Timer)
    requires IsRun(states, actions) && i <= j < |states| && t in states[i].loop.timers && t.interval == 0 && Spared(actions, i, j, t)
    ensures t in states[j].loop.timers || exists k | i <= k < j :: Fires(states[k], actions[k], t)
    decreases j - i
  {
    hide *;
    if i < j {
      SparedStep(states, actions, i, j, t);
      FiresOnce(states, actions, i, j - 1, t);
      if t in states[j - 1].loop.timers {
        StepTimer(states[j - 1], actions[j - 1], states[j], t);
      }
    }
  }

  lemma SparedStep(states: seq<System>, actions: seq<Action>, i: nat, j: nat, t: Timer)
    requires IsRun(states, actions) && i < j < |states| && Spared(actions, i, j, t)
    ensures |states| == |actions| + 1 && TimersOk(states[j - 1].loop) && IdsOk(states[j - 1].loop)
    ensures Step(states[j - 1], actions[j - 1], states[j]) && Spares(actions[j - 1], t) && Spared(actions, i, j - 1, t)
  {
    RunInv(states, actions, j - 1);
    hide Step, TimersOk, IdsOk;
  }
}
