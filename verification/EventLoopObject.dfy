/** The event loop as an object: every method is one critical section, with the scanning loops of the original. */
module EventLoopObject {
  import opened Options
  import opened EventLoop

  class Object {
    var pending: seq<Event>
    var timers: seq<Timer>
    var deadline: Option<int>
    var active: Option<Handler>
    var removing: set<Handler>
    var nextId: TimerId
    var signalled: bool
    var quit: bool

    function State(): Loop
      reads this
    {
      Loop(pending, timers, deadline, active, removing, nextId, signalled, quit)
    }

    ghost predicate Valid()
      reads this
    {
      TimersOk(State()) && IdsOk(State())
    }

    constructor ()
      ensures Valid() && State() == NewLoop
    {
      pending, timers, deadline, active := [], [], None, None;
      removing, nextId, signalled, quit := {}, 0, false, false;
    }

    /** `send_event`. */
    method SendEvent(e: Event)
      requires Valid()
      modifies this
      ensures Valid() && State() == Send(old(State()), e)
    {
      if e.handler !in removing {
        if pending == [] {
          signalled := true;
        }
        pending := pending + [e];
      }
    }

    /** `remove_handler` up to the wait for a running callback. */
    method RemoveHandler(h: Handler) returns (mustWait: bool)
      requires Valid()
      modifies this
      ensures Valid() && State() == Remove(old(State()), h)
      ensures mustWait <==> active == Some(h)
    {
      RemoveOk(State(), h);
      hide TimersOk, IdsOk;
      removing := removing + {h};
      pending := DropEvents(pending, h);
      timers := DropTimers(timers, h);
      if timers == [] {
        deadline := None;
      }
      mustWait := active == Some(h);
    }

    /** `add_timer`. */
    method AddTimerFor(h: Handler, interval: nat, oneShot: bool, now: int) returns (id: TimerId)
      requires Valid()
      modifies this
      ensures Valid() && (State(), id) == AddTimer(old(State()), h, interval, oneShot, now)
    {
      AddTimerOk(State(), h, interval, oneShot, now);
      hide TimersOk, IdsOk;
      id := 0;
      var due := now + interval;
      if h !in removing {
        nextId := nextId + 1;
        id := nextId;
        timers := timers + [Timer(h, id, due, if oneShot then 0 else interval)];
        if deadline.None? || due < deadline.value {
          deadline := Some(due);
          signalled := true;
        }
      }
    }

    /** `stop_timer`. */
    method StopTimerWith(id: TimerId)
      requires Valid()
      modifies this
      ensures Valid() && State() == StopTimer(old(State()), id)
    {
      hide TimersOk, IdsOk, IndexOf;
      if id != 0 {
        var k := FindTimer(timers, id);
        if k < |timers| {
          timers := timers[..k] + timers[k + 1..];
          if timers == [] {
            deadline := None;
          }
        }
      }
      assert State() == StopTimer(old(State()), id);
      StopTimerOk(old(State()), id);
    }

    /**
     * `process_timers` up to the callback: one scan stops at the first expired
     * timer, a second one completes the new deadline.
     */
    method ProcessTimers(now: int) returns (fired: Option<Timer>)
      requires Valid()
      modifies this
      ensures Valid() && (State(), fired) == FireTimer(old(State()), now)
      ensures fired.Some? ==> fired.value.deadline <= now
    {
      hide TimersOk, IdsOk, MinDeadline, FirstExpired, AfterFiring;
      fired := None;
      if deadline.Some? && now >= deadline.value {
        var it, earliest := ScanToExpired(timers, now);
        deadline := earliest;
        if it < |timers| {
          fired := Some(timers[it]);
          active := Some(timers[it].handler);
          timers, deadline := Reschedule(timers, it, deadline, now);
        }
      }
      assert (State(), fired) == FireTimer(old(State()), now);
      FireTimerOk(old(State()), now);
    }

    /** `process_event` up to the callback. */
    method ProcessEvent() returns (event: Option<Event>)
      requires Valid()
      modifies this
      ensures Valid() && (State(), event) == TakeEvent(old(State()))
    {
      if pending == [] {
        return None;
      }
      event := Some(pending[0]);
      pending := pending[1..];
      active := Some(event.value.handler);
    }
  }

  method FindTimer(timers: seq<Timer>, id: TimerId) returns (k: nat)
    ensures k == IndexOf(timers, id)
  {
    k := 0;
    while k < |timers| && timers[k].id != id
      invariant k <= |timers| && forall i | 0 <= i < k :: timers[i].id != id
    {
      k := k + 1;
    }
    FirstIndex(timers, id, k);
  }

  method DropEvents(events: seq<Event>, h: Handler) returns (left: seq<Event>)
    ensures left == EventsWithout(events, h)
  {
    left := [];
    for i := 0 to |events|
      invariant left == EventsWithout(events[..i], h)
    {
      assert events[..i + 1][..i] == events[..i];
      if events[i].handler != h {
        left := left + [events[i]];
      }
    }
    assert events[..|events|] == events;
  }

  method DropTimers(timers: seq<Timer>, h: Handler) returns (left: seq<Timer>)
    ensures left == TimersWithout(timers, h)
  {
    left := [];
    for i := 0 to |timers|
      invariant left == TimersWithout(timers[..i], h)
    {
      assert timers[..i + 1][..i] == timers[..i];
      if timers[i].handler != h {
        left := left + [timers[i]];
      }
    }
    assert timers[..|timers|] == timers;
  }

  /** The first scan of `process_timers`: the first expired timer, and the earliest deadline before it. */
  method ScanToExpired(timers: seq<Timer>, now: int) returns (it: nat, deadline: Option<int>)
    ensures it == FirstExpired(timers, now) && deadline == MinDeadline(timers[..it])
    ensures it == |timers| ==> deadline == MinDeadline(timers)
  {
    it, deadline := 0, None;
    while it < |timers|
      invariant it <= |timers| && deadline == MinDeadline(timers[..it])
      invariant deadline.Some? ==> deadline.value > now
      invariant forall i | 0 <= i < it :: timers[i].deadline > now
    {
      if deadline.None? || timers[it].deadline < deadline.value {
        if timers[it].deadline <= now {
          break;
        }
        deadline := Some(timers[it].deadline);
      }
      assert timers[..it + 1][..it] == timers[..it];
      it := it + 1;
    }
    FirstDue(timers, now, it);
    if it == |timers| { assert timers[..it] == timers; }
  }

  /** The second scan of `process_timers`: the earliest deadline of all timers but the expired one. */
  method ScanOthers(timers: seq<Timer>, it: nat, before: Option<int>) returns (deadline: Option<int>)
    requires it < |timers| && before == MinDeadline(timers[..it])
    ensures deadline == MinDeadline(timers[..it] + timers[it + 1..])
  {
    hide MinDeadline;
    deadline := before;
    var next := it + 1;
    assert timers[..it] + timers[it + 1..next] == timers[..it];
    while next < |timers|
      invariant it < next <= |timers|
      invariant deadline == MinDeadline(timers[..it] + timers[it + 1..next])
    {
      AppendDeadline(timers[..it] + timers[it + 1..next], timers[next]);
      assert timers[..it] + timers[it + 1..next + 1] == timers[..it] + timers[it + 1..next] + [timers[next]];
      if deadline.None? || timers[next].deadline < deadline.value {
        deadline := Some(timers[next].deadline);
      }
      next := next + 1;
    }
    assert timers[it + 1..next] == timers[it + 1..];
  }

  /** The rest of `process_timers` before the callback: complete the deadline and update the expired timer. */
  method Reschedule(timers: seq<Timer>, it: nat, before: Option<int>, now: int)
    returns (timers': seq<Timer>, deadline: Option<int>)
    requires it < |timers| && before == MinDeadline(timers[..it])
    ensures timers' == AfterFiring(timers, it, now) && deadline == MinDeadline(timers')
  {
    hide MinDeadline;
    deadline := ScanOthers(timers, it, before);
    if timers[it].interval == 0 {
      timers' := timers[..it] + timers[it + 1..];
    } else {
      var next := timers[it].(deadline := now + timers[it].interval);
      MovedDeadline(timers, it, next);
      timers' := timers[it := next];
      if deadline.None? || next.deadline < deadline.value {
        deadline := Some(next.deadline);
      }
    }
  }

  lemma {:induction false} FirstIndex(timers: seq<Timer>, id: TimerId, k: nat)
    requires k <= |timers| && (forall i | 0 <= i < k :: timers[i].id != id)
    requires k < |timers| ==> timers[k].id == id
    ensures IndexOf(timers, id) == k
  {
  }

  lemma {:induction false} FirstDue(timers: seq<Timer>, now: int, k: nat)
    requires k <= |timers| && (forall i | 0 <= i < k :: timers[i].deadline > now)
    requires k < |timers| ==> timers[k].deadline <= now
    ensures FirstExpired(timers, now) == k
  {
  }

  lemma AppendDeadline(timers: seq<Timer>, t: Timer)
    ensures MinDeadline(timers + [t]) == Earlier(MinDeadline(timers), t.deadline)
  {
    assert (timers + [t])[..|timers|] == timers;
  }

  lemma {:induction false} JoinDeadlines(a: seq<Timer>, b: seq<Timer>)
    ensures MinDeadline(a + b) == if MinDeadline(b).Some? then Earlier(MinDeadline(a), MinDeadline(b).value) else MinDeadline(a)
    decreases b
  {
    if b == [] {
      assert a + b == a;
    } else {
      var front, last := b[..|b| - 1], b[|b| - 1];
      assert a + b == (a + front) + [last];
      AppendDeadline(a + front, last);
      JoinDeadlines(a, front);
    }
  }

  /** The earliest deadline with one timer moved, from that of the others. */
  lemma MovedDeadline(timers: seq<Timer>, k: nat, t: Timer)
    requires k < |timers|
    ensures MinDeadline(timers[k := t]) == Earlier(MinDeadline(timers[..k] + timers[k + 1..]), t.deadline)
  {
    var a, b := timers[..k], timers[k + 1..];
    assert timers[k := t] == (a + [t]) + b;
    JoinDeadlines(a + [t], b);
    JoinDeadlines(a, b);
    AppendDeadline(a, t);
  }
}
