/**
 * The event loop's shared state. Each function is what one critical section
 * of `event_loop` does to it.
 */
module EventLoop {
  import opened Options

  type Handler = nat
  type TimerId = nat

  datatype Event = Event(handler: Handler, payload: int)

  /** A timer; one that fires once has no interval. */
  datatype Timer = Timer(handler: Handler, id: TimerId, deadline: int, interval: nat)

  datatype Loop = Loop(
    pending: seq<Event>, timers: seq<Timer>, deadline: Option<int>, active: Option<Handler>,
    removing: set<Handler>, nextId: TimerId, signalled: bool, quit: bool)

  const NewLoop := Loop([], [], None, None, {}, 0, false, false)

  // ----- Events and handlers

  /** `send_event`. */
  function Send(l: Loop, e: Event): Loop {
    if e.handler in l.removing then l
    else l.(pending := l.pending + [e], signalled := l.signalled || l.pending == [])
  }

  function EventsWithout(events: seq<Event>, h: Handler): (r: seq<Event>)
    ensures forall e | e in r :: e in events && e.handler != h
    ensures events == [] ==> r == []
  {
    if events == [] then []
    else
      var rest := EventsWithout(events[..|events| - 1], h);
      var e := events[|events| - 1];
      if e.handler == h then rest else rest + [e]
  }

  function TimersWithout(timers: seq<Timer>, h: Handler): (r: seq<Timer>)
    ensures forall t | t in r :: t in timers && t.handler != h
  {
    if timers == [] then []
    else
      var rest := TimersWithout(timers[..|timers| - 1], h);
      var t := timers[|timers| - 1];
      if t.handler == h then rest else rest + [t]
  }

  /** The first critical section of `remove_handler`. */
  function Remove(l: Loop, h: Handler): Loop {
    var timers := TimersWithout(l.timers, h);
    l.(removing := l.removing + {h}, pending := EventsWithout(l.pending, h), timers := timers,
       deadline := if timers == [] then None else l.deadline)
  }

  /** What a filter makes of the pending events: dropped, kept, or handed to another handler. */
  function Filtered(events: seq<Event>, filter: Event -> Option<Event>): (r: seq<Event>)
    ensures forall e | e in r :: exists e0 | e0 in events :: filter(e0) == Some(e)
    ensures events == [] ==> r == []
  {
    if events == [] then []
    else
      var rest := Filtered(events[..|events| - 1], filter);
      match filter(events[|events| - 1])
      case None => rest
      case Some(e) =>
        assert events[|events| - 1] in events;
        rest + [e]
  }

  /** `filter_events`. */
  function FilterEvents(l: Loop, filter: Event -> Option<Event>): Loop {
    l.(pending := Filtered(l.pending, filter))
  }

  /** The first critical section of `process_event`: the next event, its handler now active. */
  function TakeEvent(l: Loop): (Loop, Option<Event>) {
    if l.pending == [] then (l, None)
    else (l.(pending := l.pending[1..], active := Some(l.pending[0].handler)), Some(l.pending[0]))
  }

  // ----- Timers

  /** The earlier of a deadline, if there is one, and another time. */
  function Earlier(deadline: Option<int>, time: int): Option<int> {
    if deadline.None? || time < deadline.value then Some(time) else deadline
  }

  /** The earliest deadline. */
  function MinDeadline(timers: seq<Timer>): Option<int> {
    if timers == [] then None else Earlier(MinDeadline(timers[..|timers| - 1]), timers[|timers| - 1].deadline)
  }

  /** `add_timer`; the id is 0 if the handler is being removed. */
  function AddTimer(l: Loop, h: Handler, interval: nat, oneShot: bool, now: int): (Loop, TimerId) {
    if h in l.removing then (l, 0)
    else
      var t := Timer(h, l.nextId + 1, now + interval, if oneShot then 0 else interval);
      var first := l.deadline.None? || t.deadline < l.deadline.value;
      (l.(nextId := t.id, timers := l.timers + [t], deadline := Earlier(l.deadline, t.deadline),
          signalled := l.signalled || first), t.id)
  }

  /** The index of the first timer with an id, or the number of timers. */
  function IndexOf(timers: seq<Timer>, id: TimerId): (k: nat)
    ensures k <= |timers|
    ensures k < |timers| ==> timers[k].id == id
    ensures forall i | 0 <= i < k :: timers[i].id != id
  {
    if timers == [] then 0
    else if timers[0].id == id then 0
    else 1 + IndexOf(timers[1..], id)
  }

  /** `stop_timer`. */
  function StopTimer(l: Loop, id: TimerId): Loop {
    var k := IndexOf(l.timers, id);
    if id == 0 || k == |l.timers| then l
    else
      var timers := l.timers[..k] + l.timers[k + 1..];
      l.(timers := timers, deadline := if timers == [] then None else l.deadline)
  }

  /** The first timer that has expired, or the number of timers. */
  function FirstExpired(timers: seq<Timer>, now: int): (k: nat)
    ensures k <= |timers|
    ensures k < |timers| ==> timers[k].deadline <= now
    ensures forall i | 0 <= i < k :: timers[i].deadline > now
  {
    if timers == [] then 0
    else if timers[0].deadline <= now then 0
    else 1 + FirstExpired(timers[1..], now)
  }

  /** The timers after one of them fired. */
  function AfterFiring(timers: seq<Timer>, k: nat, now: int): seq<Timer>
    requires k < |timers|
  {
    if timers[k].interval == 0 then timers[..k] + timers[k + 1..]
    else timers[k := timers[k].(deadline := now + timers[k].interval)]
  }

  /** The first critical section of `process_timers`: the timer that fires, its handler now active. */
  function FireTimer(l: Loop, now: int): (Loop, Option<Timer>) {
    if l.deadline.None? || now < l.deadline.value then (l, None)
    else
      var k := FirstExpired(l.timers, now);
      if k == |l.timers| then (l.(deadline := MinDeadline(l.timers)), None)
      else
        var timers := AfterFiring(l.timers, k, now);
        (l.(timers := timers, deadline := MinDeadline(timers), active := Some(l.timers[k].handler)), Some(l.timers[k]))
  }

  // ----- The timers' invariant

  /** There is a deadline exactly when there is a timer, and none is due before it. */
  predicate TimersOk(l: Loop) {
    && (l.deadline.None? <==> l.timers == [])
    && (forall t | t in l.timers :: l.deadline.Some? && l.deadline.value <= t.deadline)
  }

  /** Timer ids are handed out in increasing order and never shared. */
  predicate IdsOk(l: Loop) {
    && (forall i | 0 <= i < |l.timers| :: 0 < l.timers[i].id <= l.nextId)
    && (forall i, j | 0 <= i < j < |l.timers| :: l.timers[i].id != l.timers[j].id)
  }

  lemma {:induction false} MinDeadlineIsMin(timers: seq<Timer>)
    ensures MinDeadline(timers).None? <==> timers == []
    ensures forall t | t in timers :: MinDeadline(timers).Some? && MinDeadline(timers).value <= t.deadline
    ensures MinDeadline(timers).Some? ==> exists t | t in timers :: t.deadline == MinDeadline(timers).value
  {
    if timers != [] {
      var front, last := timers[..|timers| - 1], timers[|timers| - 1];
      MinDeadlineIsMin(front);
      assert timers == front + [last];
      if MinDeadline(front).None? || last.deadline < MinDeadline(front).value {
        assert last in timers;
      } else {
        var t :| t in front && t.deadline == MinDeadline(front).value;
        assert t in timers;
      }
    }
  }

  lemma AddTimerOk(l: Loop, h: Handler, interval: nat, oneShot: bool, now: int)
    requires TimersOk(l) && IdsOk(l)
    ensures var r := AddTimer(l, h, interval, oneShot, now).0;
            TimersOk(r) && IdsOk(r)
  {
  }

  /**
   * Unless its handler is being removed, a timer is added under a new id, due
   * after the interval, and again after each interval if it is to repeat. All
   * other timers stay.
   */
  lemma AddedTimer(l: Loop, h: Handler, interval: nat, oneShot: bool, now: int)
    requires IdsOk(l)
    ensures var (r, id) := AddTimer(l, h, interval, oneShot, now);
            && (id == 0 <==> h in l.removing) && (id == 0 ==> r == l)
            && (id != 0 ==>
                  && |r.timers| == |l.timers| + 1 && r.timers[..|l.timers|] == l.timers && forall t | t in l.timers :: t.id != id)
            && (id != 0 ==>
                  var t := r.timers[|l.timers|];
                  t.id == id && t.handler == h && t.deadline == now + interval && t.interval == if oneShot then 0 else interval)
  {
    forall t | t in l.timers ensures t.id <= l.nextId {
      var i :| 0 <= i < |l.timers| && l.timers[i] == t;
    }
  }

  lemma StopTimerOk(l: Loop, id: TimerId)
    requires TimersOk(l) && IdsOk(l)
    ensures TimersOk(StopTimer(l, id)) && IdsOk(StopTimer(l, id))
    ensures id != 0 ==> forall t | t in StopTimer(l, id).timers :: t.id != id
    ensures forall t | t in l.timers && t.id != id :: t in StopTimer(l, id).timers
  {
    hide IndexOf;
    var k := IndexOf(l.timers, id);
    if k < |l.timers| {
      assert l.timers == l.timers[..k] + [l.timers[k]] + l.timers[k + 1..];
    }
  }

  /**
   * A timer fires only once it is due, before any other timer is looked at
   * again, and the new deadline is exactly the earliest of the timers left.
   */
  lemma FireTimerOk(l: Loop, now: int)
    requires TimersOk(l) && IdsOk(l)
    ensures var (r, fired) := FireTimer(l, now);
            && TimersOk(r) && IdsOk(r)
            && (fired.Some? ==> fired.value in l.timers && fired.value.deadline <= now)
            && (fired.None? ==> forall t | t in l.timers :: t.deadline > now)
            && (l.deadline.Some? && now >= l.deadline.value ==> r.deadline == MinDeadline(r.timers))
  {
    var (r, _) := FireTimer(l, now);
    MinDeadlineIsMin(r.timers);
    MinDeadlineIsMin(l.timers);
    hide MinDeadline, FirstExpired;
  }

  /**
   * What firing does to the timers: one that repeats is due again after its
   * interval, one that does not is gone, and all others are as they were. The
   * handler that is called is the timer's.
   */
  lemma FiredTimers(l: Loop, now: int)
    requires IdsOk(l)
    ensures var (r, fired) := FireTimer(l, now);
            && (fired.None? ==> r.timers == l.timers && r.active == l.active)
            && (fired.Some? ==>
                  && r.active == Some(fired.value.handler)
                  && (forall t | t in l.timers && t.id != fired.value.id :: t in r.timers)
                  && (forall t | t in r.timers && t.id != fired.value.id :: t in l.timers)
                  && (forall t | t in r.timers && t.id == fired.value.id ::
                        fired.value.interval > 0 && t == fired.value.(deadline := now + fired.value.interval))
                  && (fired.value.interval > 0 ==> fired.value.(deadline := now + fired.value.interval) in r.timers))
  {
    hide MinDeadline;
    var (r, fired) := FireTimer(l, now);
    if fired.Some? {
      var k := FirstExpired(l.timers, now);
      var next := l.timers[k].(deadline := now + l.timers[k].interval);
      assert l.timers == l.timers[..k] + [l.timers[k]] + l.timers[k + 1..];
      if l.timers[k].interval > 0 {
        assert r.timers == l.timers[..k] + [next] + l.timers[k + 1..];
      } else {
        assert r.timers == l.timers[..k] + l.timers[k + 1..];
      }
      OthersDiffer(l, k);
    }
  }

  lemma OthersDiffer(l: Loop, k: nat)
    requires IdsOk(l) && k < |l.timers|
    ensures forall t | t in l.timers[..k] || t in l.timers[k + 1..] :: t.id != l.timers[k].id
  {
    forall t | t in l.timers[..k] || t in l.timers[k + 1..] ensures t.id != l.timers[k].id {
      if t in l.timers[..k] {
        var i :| 0 <= i < k && l.timers[..k][i] == t;
        assert l.timers[i].id != l.timers[k].id;
      } else {
        var i :| 0 <= i < |l.timers[k + 1..]| && l.timers[k + 1..][i] == t;
        assert l.timers[k + 1 + i] == t && l.timers[k].id != l.timers[k + 1 + i].id;
      }
    }
  }

  lemma {:induction false} TimersWithoutOk(l: Loop, h: Handler)
    requires IdsOk(l)
    ensures IdsOk(l.(timers := TimersWithout(l.timers, h)))
    decreases l.timers
  {
    if l.timers != [] {
      hide IdsOk;
      var n := |l.timers| - 1;
      FrontIds(l, n);
      TimersWithoutOk(l.(timers := l.timers[..n]), h);
      AppendId(l.(timers := TimersWithout(l.timers[..n], h)), l.timers[n]);
    }
  }

  lemma FrontIds(l: Loop, n: nat)
    requires IdsOk(l) && n == |l.timers| - 1
    ensures IdsOk(l.(timers := l.timers[..n])) && 0 < l.timers[n].id <= l.nextId && forall x | x in l.timers[..n] :: x.id != l.timers[n].id
  {
    forall x | x in l.timers[..n] ensures x.id != l.timers[n].id {
      var i :| 0 <= i < n && l.timers[..n][i] == x;
      assert l.timers[i].id != l.timers[n].id;
    }
  }

  lemma AppendId(l: Loop, t: Timer)
    requires IdsOk(l) && 0 < t.id <= l.nextId && forall x | x in l.timers :: x.id != t.id
    ensures IdsOk(l.(timers := l.timers + [t]))
  {
  }

  /** Those that pass a test, in order. */
  function Kept<T>(s: seq<T>, test: T -> bool): seq<T> {
    if s == [] then [] else (if test(s[0]) then [s[0]] else []) + Kept(s[1..], test)
  }

  lemma {:induction false} KeptLast<T>(s: seq<T>, x: T, test: T -> bool)
    ensures Kept(s + [x], test) == Kept(s, test) + if test(x) then [x] else []
  {
    if s == [] {
      assert (s + [x])[1..] == [];
    } else {
      assert (s + [x])[1..] == s[1..] + [x];
      KeptLast(s[1..], x, test);
    }
  }

  lemma {:induction false} EventsKept(events: seq<Event>, h: Handler)
    ensures EventsWithout(events, h) == Kept(events, (e: Event) => e.handler != h)
  {
    if events != [] {
      var n := |events| - 1;
      EventsKept(events[..n], h);
      assert events == events[..n] + [events[n]];
      KeptLast(events[..n], events[n], (e: Event) => e.handler != h);
    }
  }

  lemma {:induction false} TimersKept(timers: seq<Timer>, h: Handler)
    ensures TimersWithout(timers, h) == Kept(timers, (t: Timer) => t.handler != h)
  {
    if timers != [] {
      var n := |timers| - 1;
      TimersKept(timers[..n], h);
      assert timers == timers[..n] + [timers[n]];
      KeptLast(timers[..n], timers[n], (t: Timer) => t.handler != h);
    }
  }

  lemma RemoveOk(l: Loop, h: Handler)
    requires TimersOk(l) && IdsOk(l)
    ensures TimersOk(Remove(l, h)) && IdsOk(Remove(l, h))
  {
    TimersWithoutOk(l, h);
    hide EventsWithout;
  }

  /** Removing a handler takes away its events and timers and leaves those of all others, in order. */
  lemma OthersStay(l: Loop, h: Handler)
    ensures Remove(l, h).removing == l.removing + {h}
    ensures Remove(l, h).pending == Kept(l.pending, (e: Event) => e.handler != h)
    ensures Remove(l, h).timers == Kept(l.timers, (t: Timer) => t.handler != h)
  {
    EventsKept(l.pending, h);
    TimersKept(l.timers, h);
    hide EventsWithout, TimersWithout, Kept;
  }
}
