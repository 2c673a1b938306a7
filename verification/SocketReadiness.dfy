/**
 * The readiness protocol of a connected socket. The right to read is a token,
 * and so is the right to write: each is with the socket thread, in a queued
 * event, or with the consumer.
 */
module SocketReadiness {
  import opened Options

  type Handler = nat
  type Source = nat

  datatype Flag = Connection | Write | Read

  /** An event in the queue of the event loop, with its handler. */
  datatype Event = Event(handler: Handler, content: Content)

  datatype Content = SocketEvent(source: Source, flag: Flag) | AddressEvent(source: Source) | OtherEvent(payload: int)

  /** An event that a source sent. */
  predicate From(e: Event, source: Source) {
    !e.content.OtherEvent? && e.content.source == source
  }

  /**
   * A socket that is connected, or shut down for writing, and the queue.
   * `reading` says that the consumer is to read until the socket has no more,
   * and `writing` that it may write until the socket has no room.
   */
  datatype State = State(
    queue: seq<Event>, source: Source, handler: Option<Handler>, waiting: set<Flag>, triggered: set<Flag>,
    shutDown: bool, reading: bool, writing: bool)

  /** What a token is for. */
  datatype Side = Reader | Writer {

    /** The flag that the socket thread waits for. */
    function Awaited(): Flag {
      if Reader? then Read else Write
    }

    /** The flags of the events that hand over the token. */
    function Flags(): set<Flag> {
      if Reader? then {Read} else {Connection, Write}
    }
  }

  predicate Holds(s: State, side: Side) {
    if side.Reader? then s.reading else s.writing
  }

  /** The socket is open in that direction. */
  predicate Open(s: State, side: Side) {
    side.Reader? || !s.shutDown
  }

  /** A socket event of a source with one of some flags. */
  predicate Tells(e: Event, source: Source, flags: set<Flag>) {
    e.content.SocketEvent? && e.content.source == source && e.content.flag in flags
  }

  /** The number of such events. */
  function Count(queue: seq<Event>, source: Source, flags: set<Flag>): nat {
    if queue == [] then 0
    else Count(queue[..|queue| - 1], source, flags) + if Tells(queue[|queue| - 1], source, flags) then 1 else 0
  }

  // ----- Changing the handler of queued events

  /** An event of a source that is on its way to a handler. */
  predicate Addressed(e: Event, h: Handler, source: Source) {
    e.handler == h && From(e, source)
  }

  /** `remove_socket_events` with a handler. */
  function Stripped(queue: seq<Event>, h: Handler, source: Source): seq<Event> {
    if queue == [] then []
    else
      var rest, e := Stripped(queue[..|queue| - 1], h, source), queue[|queue| - 1];
      if Addressed(e, h, source) then rest else rest + [e]
  }

  /** What `change_socket_event_handler` does to a queue if there is an old and a new handler. */
  function Retargeted(queue: seq<Event>, h: Handler, h': Handler, source: Source, remove: set<Flag>): seq<Event> {
    if queue == [] then []
    else
      var rest, e := Retargeted(queue[..|queue| - 1], h, h', source, remove), queue[|queue| - 1];
      if !Addressed(e, h, source) then rest + [e]
      else if e.content.SocketEvent? && e.content.flag in remove then rest
      else rest + [e.(handler := h')]
  }

  /** The flags of the events that got the new handler. */
  function Pending(queue: seq<Event>, h: Handler, source: Source, remove: set<Flag>): set<Flag> {
    if queue == [] then {}
    else
      var rest, e := Pending(queue[..|queue| - 1], h, source, remove), queue[|queue| - 1];
      if e.content.SocketEvent? && Addressed(e, h, source) && e.content.flag !in remove then rest + {e.content.flag} else rest
  }

  function ChangedQueue(queue: seq<Event>, from: Option<Handler>, dest: Option<Handler>, source: Source, remove: set<Flag>): seq<Event> {
    if from.None? then queue
    else if dest.None? then Stripped(queue, from.value, source)
    else Retargeted(queue, from.value, dest.value, source, remove)
  }

  function ChangedPending(queue: seq<Event>, from: Option<Handler>, dest: Option<Handler>, source: Source, remove: set<Flag>): set<Flag> {
    if from.None? || dest.None? then {} else Pending(queue, from.value, source, remove)
  }

  // ----- Steps

  /** The event for the socket's handler, if it is to be sent. */
  function Sent(s: State, flag: Flag, send: bool): seq<Event>
    requires s.handler.Some?
  {
    if send then [Event(s.handler.value, SocketEvent(s.source, flag))] else []
  }

  /** `send_events`. */
  function SendEvents(s: State): State {
    if s.handler.None? then s
    else s.(queue := s.queue + Sent(s, Read, Read in s.triggered) + Sent(s, Write, Write in s.triggered),
            triggered := s.triggered - {Read, Write})
  }

  /** One round of the socket thread in `do_wait`, and the events it sends after it. */
  function Poll(s: State, ready: set<Flag>): State {
    var hit := s.waiting * ready * {Read, Write};
    var s' := s.(triggered := s.triggered + hit, waiting := s.waiting - hit);
    if s'.triggered != {} || s'.waiting == {} then SendEvents(s') else s'
  }

  /** The event loop takes the next event; its handler now holds the token, if it is for one. */
  function Dispatch(s: State): State {
    if s.queue == [] then s
    else s.(queue := s.queue[1..], reading := s.reading || Tells(s.queue[0], s.source, Reader.Flags()),
            writing := s.writing || Tells(s.queue[0], s.source, Writer.Flags()))
  }

  /** `read`; without data to read, the socket thread is to wait for it. */
  function AfterRead(s: State, again: bool): State {
    if again then s.(waiting := s.waiting + {Read}, reading := false) else s
  }

  /** `write`; without room to write, the socket thread is to wait for it. */
  function AfterWrite(s: State, again: bool): State {
    if again then s.(waiting := s.waiting + {Write}, writing := false) else s
  }

  /** `set_event_handler`. Without a handler the consumer holds nothing. */
  function SetHandler(s: State, h: Option<Handler>, block: set<Flag>): State {
    var pending := ChangedPending(s.queue, s.handler, h, s.source, block);
    var s' := s.(queue := ChangedQueue(s.queue, s.handler, h, s.source, block), handler := h);
    if h.None? then s'.(reading := false, writing := false)
    else Retrigger(s', pending, block)
  }

  /** Whether `set_event_handler` sends an event: nobody waits for it, none is pending, and it is not blocked. */
  predicate Resends(s: State, side: Side, pending: set<Flag>, block: set<Flag>) {
    Open(s, side) && side.Awaited() !in s.waiting && pending !! side.Flags() && side.Awaited() !in block
  }

  /** A token that would pass to the new handler, but for the event being blocked: then the consumer goes on. */
  predicate GoesOn(s: State, side: Side, pending: set<Flag>, block: set<Flag>) {
    side.Awaited() in block && side.Awaited() !in s.waiting && pending !! side.Flags()
  }

  /** The events that `set_event_handler` sends to the new handler. */
  function Retrigger(s: State, pending: set<Flag>, block: set<Flag>): State
    requires s.handler.Some?
  {
    var write, read := Resends(s, Writer, pending, block), Resends(s, Reader, pending, block);
    s.(queue := s.queue + Sent(s, Write, write) + Sent(s, Read, read),
       triggered := s.triggered - (if write then {Write} else {}) - (if read then {Read} else {}),
       reading := GoesOn(s, Reader, pending, block), writing := GoesOn(s, Writer, pending, block))
  }

  /** The end of `shutdown`. */
  function ShutDown(s: State): State {
    s.(shutDown := true, waiting := s.waiting - {Write}, triggered := s.triggered - {Write}, writing := false)
  }

  // ----- The tokens

  /** In how many places a token is. */
  function Tokens(s: State, side: Side): nat {
    (if side.Awaited() in s.waiting then 1 else 0) + (if side.Awaited() in s.triggered then 1 else 0)
    + Count(s.queue, s.source, side.Flags()) + (if Holds(s, side) then 1 else 0)
  }

  /** Queued events of the source are on their way to the socket's handler. */
  ghost predicate OnTheWay(s: State) {
    forall e | e in s.queue && From(e, s.source) :: s.handler == Some(e.handler)
  }

  /** A token is in exactly one place or, without a handler, may be parked. */
  ghost predicate InOnePlace(s: State, side: Side) {
    Open(s, side) ==>
      && (s.handler.Some? ==> Tokens(s, side) == 1 && side.Awaited() !in s.triggered)
      && (s.handler.None? ==> Tokens(s, side) <= 1 && !Holds(s, side))
  }

  ghost predicate OneToken(s: State) {
    OnTheWay(s) && InOnePlace(s, Reader) && InOnePlace(s, Writer)
  }

  // ----- Queues

  lemma {:induction false} CountConcat(a: seq<Event>, b: seq<Event>, source: Source, flags: set<Flag>)
    ensures Count(a + b, source, flags) == Count(a, source, flags) + Count(b, source, flags)
  {
    if b == [] {
      assert a + b == a;
    } else {
      assert (a + b)[..|a + b| - 1] == a + b[..|b| - 1];
      CountConcat(a, b[..|b| - 1], source, flags);
    }
  }

  lemma CountOne(e: Event, source: Source, flags: set<Flag>)
    ensures Count([e], source, flags) == if Tells(e, source, flags) then 1 else 0
  {
    assert Count([e][..0], source, flags) == 0;
  }

  lemma {:induction false} CountNone(queue: seq<Event>, source: Source, flags: set<Flag>)
    requires forall e | e in queue :: !Tells(e, source, flags)
    ensures Count(queue, source, flags) == 0
  {
    if queue != [] {
      assert queue[|queue| - 1] in queue;
      CountNone(queue[..|queue| - 1], source, flags);
    }
  }

  lemma {:induction false} CountFewer(queue: seq<Event>, source: Source, fewer: set<Flag>, flags: set<Flag>)
    requires fewer <= flags
    ensures Count(queue, source, fewer) <= Count(queue, source, flags)
  {
    if queue != [] {
      CountFewer(queue[..|queue| - 1], source, fewer, flags);
    }
  }

  lemma {:induction false} StrippedElements(queue: seq<Event>, h: Handler, source: Source)
    ensures forall e :: e in Stripped(queue, h, source) <==> e in queue && !Addressed(e, h, source)
  {
    if queue != [] {
      StrippedElements(queue[..|queue| - 1], h, source);
      assert queue == queue[..|queue| - 1] + [queue[|queue| - 1]];
    }
  }

  /** Only events of the source for the old handler change, and they keep their order. */
  lemma {:induction false} RetargetedElements(queue: seq<Event>, h: Handler, h': Handler, source: Source, remove: set<Flag>)
    ensures forall e | e in Retargeted(queue, h, h', source, remove) ::
              (e in queue && !Addressed(e, h, source)) || (Addressed(e, h', source) && e.(handler := h) in queue)
  {
    if queue != [] {
      RetargetedElements(queue[..|queue| - 1], h, h', source, remove);
      assert queue == queue[..|queue| - 1] + [queue[|queue| - 1]];
      var e := queue[|queue| - 1];
      assert e.handler == h ==> e.(handler := h').(handler := h) == e;
    }
  }

  /** What becomes of one event. */
  function Redirected(e: Event, h: Handler, h': Handler, source: Source, remove: set<Flag>): seq<Event> {
    if e.handler != h || e.content.OtherEvent? || e.content.source != source then [e]
    else if e.content.SocketEvent? && e.content.flag in remove then []
    else [Event(h', e.content)]
  }

  function RedirectedAll(queue: seq<Event>, h: Handler, h': Handler, source: Source, remove: set<Flag>): seq<Event> {
    if queue == [] then [] else Redirected(queue[0], h, h', source, remove) + RedirectedAll(queue[1..], h, h', source, remove)
  }

  lemma {:induction false} RedirectedLast(queue: seq<Event>, e: Event, h: Handler, h': Handler, source: Source, remove: set<Flag>)
    ensures RedirectedAll(queue + [e], h, h', source, remove)
         == RedirectedAll(queue, h, h', source, remove) + Redirected(e, h, h', source, remove)
  {
    hide Redirected;
    if queue == [] {
      assert (queue + [e])[1..] == [];
    } else {
      assert (queue + [e])[1..] == queue[1..] + [e];
      RedirectedLast(queue[1..], e, h, h', source, remove);
    }
  }

  /** No event is lost and none overtakes another: each is kept, handed on or removed in its place. */
  lemma {:induction false} RetargetedInPlace(queue: seq<Event>, h: Handler, h': Handler, source: Source, remove: set<Flag>)
    ensures Retargeted(queue, h, h', source, remove) == RedirectedAll(queue, h, h', source, remove)
  {
    if queue != [] {
      var n := |queue| - 1;
      RetargetedInPlace(queue[..n], h, h', source, remove);
      assert queue == queue[..n] + [queue[n]];
      RedirectedLast(queue[..n], queue[n], h, h', source, remove);
    }
  }

  function StrippedAll(queue: seq<Event>, h: Handler, source: Source): seq<Event> {
    if queue == [] then [] else Left(queue[0], h, source) + StrippedAll(queue[1..], h, source)
  }

  function Left(e: Event, h: Handler, source: Source): seq<Event> {
    if e.handler == h && !e.content.OtherEvent? && e.content.source == source then [] else [e]
  }

  lemma {:induction false} StrippedLast(queue: seq<Event>, e: Event, h: Handler, source: Source)
    ensures StrippedAll(queue + [e], h, source) == StrippedAll(queue, h, source) + Left(e, h, source)
  {
    hide Left;
    if queue == [] {
      assert (queue + [e])[1..] == [];
    } else {
      assert (queue + [e])[1..] == queue[1..] + [e];
      StrippedLast(queue[1..], e, h, source);
    }
  }

  /** Without a new handler the events of the source are removed, and all others stay in their order. */
  lemma {:induction false} StrippedInPlace(queue: seq<Event>, h: Handler, source: Source)
    ensures Stripped(queue, h, source) == StrippedAll(queue, h, source)
  {
    if queue != [] {
      var n := |queue| - 1;
      StrippedInPlace(queue[..n], h, source);
      assert queue == queue[..n] + [queue[n]];
      StrippedLast(queue[..n], queue[n], h, source);
    }
  }

  /** Events that are not removed are retargeted, and reported as pending. */
  lemma {:induction false} RetargetedCount(queue: seq<Event>, h: Handler, h': Handler, source: Source, remove: set<Flag>, flags: set<Flag>)
    requires forall e | e in queue && From(e, source) :: e.handler == h
    ensures Count(Retargeted(queue, h, h', source, remove), source, flags) == Count(queue, source, flags - remove)
    ensures Pending(queue, h, source, remove) !! flags <==> Count(queue, source, flags - remove) == 0
  {
    if queue != [] {
      var e, rest := queue[|queue| - 1], queue[..|queue| - 1];
      assert e in queue;
      RetargetedCount(rest, h, h', source, remove, flags);
      var r := Retargeted(rest, h, h', source, remove);
      assert (r + [e])[..|r + [e]| - 1] == r;
      assert (r + [e.(handler := h')])[..|r + [e.(handler := h')]| - 1] == r;
    }
  }

  // ----- Every step keeps the tokens

  /** What appending an event of the source does to a token. */
  lemma Appended(s: State, flag: Flag, send: bool, side: Side)
    requires OnTheWay(s) && s.handler.Some?
    ensures OnTheWay(s.(queue := s.queue + Sent(s, flag, send)))
    ensures Count(s.queue + Sent(s, flag, send), s.source, side.Flags())
         == Count(s.queue, s.source, side.Flags()) + if send && flag in side.Flags() then 1 else 0
  {
    if send {
      var e := Event(s.handler.value, SocketEvent(s.source, flag));
      CountConcat(s.queue, [e], s.source, side.Flags());
      CountOne(e, s.source, side.Flags());
    } else {
      assert s.queue + Sent(s, flag, send) == s.queue;
    }
  }

  /** A token that is counted once before what is triggered is sent. */
  predicate Counted(s: State, side: Side) {
    Open(s, side) ==> Tokens(s, side) <= 1 && if s.handler.Some? then Tokens(s, side) == 1 else !Holds(s, side)
  }

  lemma SendKeeps(s: State, side: Side)
    requires OnTheWay(s) && Counted(s, side)
    ensures OnTheWay(SendEvents(s)) && InOnePlace(SendEvents(s), side)
  {
    hide Count;
    if s.handler.Some? {
      var s' := s.(queue := s.queue + Sent(s, Read, Read in s.triggered));
      Appended(s, Read, Read in s.triggered, side);
      Appended(s', Write, Write in s.triggered, side);
    }
  }

  lemma PollKeeps(s: State, ready: set<Flag>)
    requires OneToken(s)
    ensures OneToken(Poll(s, ready))
  {
    PollSide(s, ready, Reader);
    PollSide(s, ready, Writer);
    hide Poll, InOnePlace;
  }

  lemma PollSide(s: State, ready: set<Flag>, side: Side)
    requires OnTheWay(s) && InOnePlace(s, side)
    ensures OnTheWay(Poll(s, ready)) && InOnePlace(Poll(s, ready), side)
  {
    hide Count;
    var hit := s.waiting * ready * {Read, Write};
    var s' := s.(triggered := s.triggered + hit, waiting := s.waiting - hit);
    var flag := side.Awaited();
    assert (flag in s'.waiting <==> flag in s.waiting && flag !in hit) && (flag in s'.triggered <==> flag in s.triggered || flag in hit);
    assert flag in hit ==> flag in s.waiting;
    assert OnTheWay(s') && (Open(s, side) ==> Tokens(s', side) == Tokens(s, side));
    SendKeeps(s', side);
    hide Tokens;
    if s'.triggered == {} {
      assert flag !in s'.triggered;
    }
  }

  /** What is waited for and ready is told to the handler, if there is one, and no longer waited for. */
  lemma PollWakes(s: State, ready: set<Flag>, side: Side)
    requires OneToken(s) && side.Awaited() in s.waiting && side.Awaited() in ready
    ensures var s' := Poll(s, ready);
            && side.Awaited() !in s'.waiting
            && (s.handler.None? ==> side.Awaited() in s'.triggered)
            && (s.handler.Some? && Open(s, side) ==> Count(s'.queue, s.source, side.Flags()) == Count(s.queue, s.source, side.Flags()) + 1)
  {
    PollSide(s, ready, side);
    hide Count;
    var hit := s.waiting * ready * {Read, Write};
    assert side.Awaited() in hit;
  }

  lemma DispatchKeeps(s: State)
    requires OneToken(s)
    ensures OneToken(Dispatch(s))
  {
    if s.queue != [] {
      assert s.queue == [s.queue[0]] + s.queue[1..];
      assert s.queue[0] in s.queue;
      DispatchSide(s, Reader);
      DispatchSide(s, Writer);
    }
  }

  lemma DispatchSide(s: State, side: Side)
    requires OnTheWay(s) && InOnePlace(s, side) && s.queue != []
    ensures InOnePlace(Dispatch(s), side)
  {
    assert s.queue == [s.queue[0]] + s.queue[1..];
    CountConcat([s.queue[0]], s.queue[1..], s.source, side.Flags());
    CountOne(s.queue[0], s.source, side.Flags());
    assert s.queue[0] in s.queue;
    hide Count;
  }

  lemma ChangeKeepsQueue(s: State, h: Handler, block: set<Flag>, flags: set<Flag>)
    requires OnTheWay(s) && s.handler.Some?
    ensures OnTheWay(s.(queue := Retargeted(s.queue, s.handler.value, h, s.source, block), handler := Some(h)))
    ensures Count(Retargeted(s.queue, s.handler.value, h, s.source, block), s.source, flags) == Count(s.queue, s.source, flags - block)
    ensures Count(s.queue, s.source, flags - block) <= Count(s.queue, s.source, flags)
    ensures Pending(s.queue, s.handler.value, s.source, block) !! flags <==> Count(s.queue, s.source, flags - block) == 0
  {
    RetargetedElements(s.queue, s.handler.value, h, s.source, block);
    RetargetedCount(s.queue, s.handler.value, h, s.source, block, flags);
    CountFewer(s.queue, s.source, flags - block, flags);
  }

  lemma RetriggerTokens(s: State, pending: set<Flag>, block: set<Flag>, side: Side)
    requires s.handler.Some? && OnTheWay(s)
    ensures OnTheWay(Retrigger(s, pending, block))
    ensures Count(Retrigger(s, pending, block).queue, s.source, side.Flags())
         == Count(s.queue, s.source, side.Flags()) + if Resends(s, side, pending, block) then 1 else 0
  {
    hide Count, Resends, OnTheWay;
    var write, read := Resends(s, Writer, pending, block), Resends(s, Reader, pending, block);
    var s' := s.(queue := s.queue + Sent(s, Write, write));
    Appended(s, Write, write, side);
    Appended(s', Read, read, side);
    var r := Retrigger(s, pending, block);
    assert r.queue == s'.queue + Sent(s', Read, read);
    SameWay(s'.(queue := r.queue), r);
  }

  lemma SameWay(s: State, s': State)
    requires OnTheWay(s) && s'.queue == s.queue && s'.source == s.source && s'.handler == s.handler
    ensures OnTheWay(s')
  {
  }

  /** A change that blocks an event that is due. */
  predicate BlocksDue(s: State, side: Side, h: Option<Handler>, block: set<Flag>) {
    Open(s, side) && h.Some? && side.Awaited() in block && side.Awaited() in s.triggered
  }

  /** A change of handler keeps a token in one place exactly if it does not block an event that is due for it. */
  lemma ChangeSide(s: State, h: Option<Handler>, block: set<Flag>, side: Side)
    requires OnTheWay(s) && InOnePlace(s, side)
    ensures OnTheWay(SetHandler(s, h, block))
    ensures InOnePlace(SetHandler(s, h, block), side) <==> !BlocksDue(s, side, h, block)
  {
    if h.None? {
      if s.handler.Some? {
        StrippedElements(s.queue, s.handler.value, s.source);
        CountNone(Stripped(s.queue, s.handler.value, s.source), s.source, side.Flags());
      }
    } else {
      var pending := ChangedPending(s.queue, s.handler, h, s.source, block);
      var s' := s.(queue := ChangedQueue(s.queue, s.handler, h, s.source, block), handler := h);
      if s.handler.Some? {
        ChangeKeepsQueue(s, h.value, block, side.Flags());
      } else {
        CountNone(s.queue, s.source, side.Flags());
      }
      hide Count, Retargeted, Pending, OnTheWay;
      RetriggerTokens(s', pending, block, side);
      hide ChangedQueue, ChangedPending, Retrigger;
      TokenPasses(s, s', Retrigger(s', pending, block), pending, block, side);
    }
  }

  /** Where the token is after the events were sent to a new handler. */
  lemma TokenPasses(s: State, s': State, r: State, pending: set<Flag>, block: set<Flag>, side: Side)
    requires InOnePlace(s, side) && s'.handler.Some? && s' == s.(queue := s'.queue, handler := s'.handler)
    requires Count(s'.queue, s.source, side.Flags()) <= Count(s.queue, s.source, side.Flags())
    requires pending !! side.Flags() <==> Count(s'.queue, s.source, side.Flags()) == 0
    requires r == Retrigger(s', pending, block)
    requires Count(r.queue, s.source, side.Flags())
          == Count(s'.queue, s.source, side.Flags()) + if Resends(s', side, pending, block) then 1 else 0
    ensures InOnePlace(r, side) <==> !(Open(s, side) && side.Awaited() in block && side.Awaited() in s.triggered)
  {
    hide Count;
    var flag := side.Awaited();
    assert flag in r.triggered <==> flag in s.triggered && !Resends(s', side, pending, block);
    assert Holds(r, side) <==> GoesOn(s', side, pending, block);
    hide Retrigger;
  }

  lemma ChangeExactly(s: State, h: Option<Handler>, block: set<Flag>)
    requires OneToken(s)
    ensures OneToken(SetHandler(s, h, block)) <==> !BlocksDue(s, Reader, h, block) && !BlocksDue(s, Writer, h, block)
  {
    hide SetHandler, InOnePlace, BlocksDue;
    ChangeSide(s, h, block, Reader);
    ChangeSide(s, h, block, Writer);
  }

  lemma BlockedFrom(s: State, h: Handler)
    requires s.queue == [] && s.handler == None && s.waiting == {Write} && s.triggered == {Read} && !s.reading && !s.writing
    ensures OneToken(s)
    ensures Count(Poll(AfterRead(Poll(SetHandler(s, Some(h), {Read}), {Write}), true), {Read}).queue, s.source, {Read}) == 2
  {
    assert OneToken(s);
    hide Count, SetHandler, Poll, AfterRead;
    BlockedSet(s, h);
    BlockedPoll(SetHandler(s, Some(h), {Read}), h);
    BlockedAgain(Poll(SetHandler(s, Some(h), {Read}), {Write}), h);
  }

  lemma BlockedPoll(s: State, h: Handler)
    requires s.queue == [] && s.handler == Some(h) && s.waiting == {Write} && s.triggered == {Read}
    ensures var s' := Poll(s, {Write});
            && s'.queue == [Event(h, SocketEvent(s.source, Read)), Event(h, SocketEvent(s.source, Write))]
            && s'.triggered == {} && s'.waiting == {} && s'.handler == Some(h) && s'.source == s.source
  {
    PollAll(s, {Write});
    hide Poll;
  }

  lemma BlockedAgain(s: State, h: Handler)
    requires s.queue == [Event(h, SocketEvent(s.source, Read)), Event(h, SocketEvent(s.source, Write))]
    requires s.triggered == {} && s.waiting == {} && s.handler == Some(h)
    ensures Count(Poll(AfterRead(s, true), {Read}).queue, s.source, {Read}) == 2
  {
    hide Count, Poll;
    var e, e' := s.queue[0], s.queue[1];
    PollAll(AfterRead(s, true), {Read});
    assert Poll(AfterRead(s, true), {Read}).queue == s.queue + [e];
    CountConcat(s.queue, [e], s.source, {Read});
    assert s.queue == [e] + [e'];
    CountConcat([e], [e'], s.source, {Read});
    CountOne(e, s.source, {Read});
    CountOne(e', s.source, {Read});
  }

  lemma BlockedSet(s: State, h: Handler)
    requires s.queue == [] && s.handler == None && s.waiting == {Write} && s.triggered == {Read} && !s.reading && !s.writing
    ensures var s1 := SetHandler(s, Some(h), {Read});
            s1.queue == [] && s1.handler == Some(h) && s1.waiting == {Write} && s1.triggered == {Read} && s1.source == s.source
  {
  }

  /** A round in which all that is waited for is ready. */
  lemma PollAll(s: State, ready: set<Flag>)
    requires s.waiting == ready && ready <= {Read, Write} && ready != {} && s.handler.Some?
    ensures Poll(s, ready).queue == s.queue + Sent(s, Read, Read in s.triggered + ready) + Sent(s, Write, Write in s.triggered + ready)
    ensures Poll(s, ready).triggered == s.triggered + ready - {Read, Write} && Poll(s, ready).waiting == {}
    ensures Poll(s, ready).handler == s.handler && Poll(s, ready).source == s.source
  {
    assert s.waiting * ready * {Read, Write} == ready;
    assert s.waiting - ready == {};
  }

  // ----- Runs

  datatype Step =
    | Polling(ready: set<Flag>)
    | Dispatching
    | Reading(again: bool)
    | Writing(again: bool)
    | Changing(handler: Option<Handler>, block: set<Flag>)
    | ShuttingDown
    | Queueing(event: Event)

  /** The consumer reads and writes only while it holds the token, and does not block an event that is due; other events come from elsewhere. */
  predicate Enabled(s: State, step: Step) {
    match step
    case Reading(_) => s.reading
    case Writing(_) => s.writing
    case Changing(h, block) => !BlocksDue(s, Reader, h, block) && !BlocksDue(s, Writer, h, block)
    case Queueing(e) => !From(e, s.source)
    case _ => true
  }

  function After(s: State, step: Step): State {
    match step
    case Polling(ready) => Poll(s, ready)
    case Dispatching => Dispatch(s)
    case Reading(again) => AfterRead(s, again)
    case Writing(again) => AfterWrite(s, again)
    case Changing(h, block) => SetHandler(s, h, block)
    case ShuttingDown => ShutDown(s)
    case Queueing(e) => s.(queue := s.queue + [e])
  }

  lemma StepKeeps(s: State, step: Step)
    requires OneToken(s) && Enabled(s, step)
    ensures OneToken(After(s, step))
  {
    hide Count;
    match step
    case Polling(ready) => PollKeeps(s, ready);
    case Dispatching => DispatchKeeps(s);
    case Reading(again) =>
    case Writing(again) =>
    case Changing(h, block) => ChangeExactly(s, h, block);
    case ShuttingDown =>
    case Queueing(e) =>
      CountConcat(s.queue, [e], s.source, Reader.Flags());
      CountConcat(s.queue, [e], s.source, Writer.Flags());
      CountOne(e, s.source, Reader.Flags());
      CountOne(e, s.source, Writer.Flags());
  }

  /** A run: each step is one the protocol allows. */
  ghost predicate IsRun(states: seq<State>, steps: seq<Step>) {
    && |states| == |steps| + 1
    && forall i | 0 <= i < |steps| :: Enabled(states[i], steps[i]) && states[i + 1] == After(states[i], steps[i])
  }

  /** A socket that has just been connected: its handler is told, or was. */
  ghost predicate JustConnected(s: State) {
    && s.waiting == {Read} && s.triggered == {} && !s.shutDown && !s.reading && OnTheWay(s)
    && Count(s.queue, s.source, {Read}) == 0
    && Count(s.queue, s.source, {Connection, Write}) + (if s.writing then 1 else 0) == if s.handler.Some? then 1 else 0
  }

  lemma {:induction false} RunKeeps(states: seq<State>, steps: seq<Step>, n: nat)
    requires IsRun(states, steps) && JustConnected(states[0]) && n <= |steps|
    ensures OneToken(states[n])
  {
    hide Count, Enabled, After;
    if n > 0 {
      hide OneToken;
      RunKeeps(states, steps, n - 1);
      StepKeeps(states[n - 1], steps[n - 1]);
    }
  }

  /**
   * In every run, at every point: no two read events are queued; a consumer
   * that may read has none queued and nobody waits for data; and with a handler
   * set, if the consumer has nothing to read and nothing queued, the socket
   * thread waits for data.
   */
  lemma ReadToken(states: seq<State>, steps: seq<Step>, n: nat)
    requires IsRun(states, steps) && JustConnected(states[0]) && n <= |steps|
    ensures Count(states[n].queue, states[n].source, {Read}) <= 1
    ensures states[n].reading ==> Read !in states[n].waiting && Count(states[n].queue, states[n].source, {Read}) == 0
    ensures states[n].handler.Some? && !states[n].reading && Count(states[n].queue, states[n].source, {Read}) == 0 ==> Read in states[n].waiting
  {
    hide Count, Enabled, After;
    RunKeeps(states, steps, n);
    assert InOnePlace(states[n], Reader);
  }

  /** The same for writing, until the socket is shut down; the event of the connection counts as one of room to write. */
  lemma WriteToken(states: seq<State>, steps: seq<Step>, n: nat)
    requires IsRun(states, steps) && JustConnected(states[0]) && n <= |steps| && !states[n].shutDown
    ensures Count(states[n].queue, states[n].source, {Connection, Write}) <= 1
    ensures states[n].writing ==> Write !in states[n].waiting && Count(states[n].queue, states[n].source, {Connection, Write}) == 0
    ensures states[n].handler.Some? && !states[n].writing && Count(states[n].queue, states[n].source, {Connection, Write}) == 0 ==>
              Write in states[n].waiting
  {
    hide Count, Enabled, After;
    RunKeeps(states, steps, n);
    assert InOnePlace(states[n], Writer);
  }

  /** Nothing more will be sent about room to write, if the system does not say that there is none. */
  predicate Silenced(s: State) {
    s.shutDown && Write !in s.waiting && Write !in s.triggered
  }

  lemma ChangedSilent(s: State, h: Option<Handler>, block: set<Flag>)
    requires Silenced(s) && OnTheWay(s)
    ensures Silenced(SetHandler(s, h, block)) && SetHandler(s, h, block).source == s.source
    ensures Count(SetHandler(s, h, block).queue, s.source, {Write}) <= Count(s.queue, s.source, {Write})
  {
    var queue := ChangedQueue(s.queue, s.handler, h, s.source, block);
    if s.handler.Some? {
      if h.None? {
        StrippedElements(s.queue, s.handler.value, s.source);
        CountNone(queue, s.source, {Write});
      } else {
        RetargetedCount(s.queue, s.handler.value, h.value, s.source, block, {Write});
        CountFewer(s.queue, s.source, {Write} - block, {Write});
      }
    }
    hide Count, Stripped, Retargeted, Pending;
    if h.Some? {
      var s' := s.(queue := queue, handler := h);
      var read := Sent(s', Read, Resends(s', Reader, ChangedPending(s.queue, s.handler, h, s.source, block), block));
      assert SetHandler(s, h, block).queue == queue + [] + read;
      assert queue + [] == queue;
      CountConcat(queue, read, s.source, {Write});
      CountOther(read, s.source);
    }
  }

  lemma CountOther(queue: seq<Event>, source: Source)
    requires forall e | e in queue :: e.content.SocketEvent? && e.content.flag == Read
    ensures Count(queue, source, {Write}) == 0
  {
    CountNone(queue, source, {Write});
  }

  lemma StepSilent(s: State, step: Step)
    requires OneToken(s) && Silenced(s) && Enabled(s, step) && step != Writing(true)
    ensures Silenced(After(s, step)) && After(s, step).source == s.source
    ensures Count(After(s, step).queue, s.source, {Write}) <= Count(s.queue, s.source, {Write})
  {
    hide Count, SetHandler;
    match step
    case Polling(ready) =>
      var read := Poll(s, ready).queue[|s.queue|..];
      assert Poll(s, ready).queue == s.queue + read;
      CountConcat(s.queue, read, s.source, {Write});
      CountOther(read, s.source);
    case Dispatching =>
      if s.queue != [] {
        assert s.queue == [s.queue[0]] + s.queue[1..];
        CountConcat([s.queue[0]], s.queue[1..], s.source, {Write});
      }
    case Changing(h, block) => ChangedSilent(s, h, block);
    case Queueing(e) =>
      CountConcat(s.queue, [e], s.source, {Write});
      CountOne(e, s.source, {Write});
    case _ =>
  }

  /**
   * Once the socket is shut down nobody waits for room to write, and no more
   * write events are sent, as long as the system does not say that there is no room.
   */
  lemma {:induction false} SilentAfterShutdown(states: seq<State>, steps: seq<Step>, i: nat, n: nat)
    requires IsRun(states, steps) && JustConnected(states[0]) && i < n <= |steps| && steps[i].ShuttingDown?
    requires forall k | i < k < n :: steps[k] != Writing(true)
    ensures Silenced(states[n]) && states[n].source == states[i].source
    ensures Count(states[n].queue, states[i].source, {Write}) <= Count(states[i].queue, states[i].source, {Write})
  {
    hide Count, Enabled, OneToken, JustConnected;
    assert Enabled(states[n - 1], steps[n - 1]) && states[n] == After(states[n - 1], steps[n - 1]);
    if n > i + 1 {
      hide After, Silenced;
      SilentAfterShutdown(states, steps, i, n - 1);
      RunKeeps(states, steps, n - 1);
      StepSilent(states[n - 1], steps[n - 1]);
    }
  }

  /**
   * Blocking a read event that is due can lead to two of them in the queue. The
   * consumer waits to write and gives up its handler, data arrives, and a new
   * handler is set with read events blocked: then one is sent once there is
   * room to write, and another once there is data after a read without any.
   */
  lemma BlockedReadDoubles(s: State, h: Handler) returns (states: seq<State>)
    requires JustConnected(s) && s.queue == [] && s.handler == Some(h)
    ensures IsRun(states, [Writing(true), Changing(None, {}), Polling({Read})]) && states[0] == s
    ensures Read in states[3].triggered && states[3].handler == None
    ensures Count(Poll(AfterRead(Poll(SetHandler(states[3], Some(h), {Read}), {Write}), true), {Read}).queue, s.source, {Read}) == 2
  {
    var s1 := AfterWrite(s, true);
    var s2 := SetHandler(s1, None, {});
    assert s2.queue == [] && s2.handler == None && s2.waiting == {Read, Write} && s2.triggered == {} && !s2.reading && !s2.writing;
    var s3 := Poll(s2, {Read});
    assert s2.waiting * {Read} * {Read, Write} == {Read} && s2.waiting - {Read} == {Write};
    assert s3.queue == [] && s3.handler == None && s3.waiting == {Write} && s3.triggered == {Read} && !s3.reading && !s3.writing;
    states := [s, s1, s2, s3];
    hide Poll, SetHandler;
    BlockedFrom(s3, h);
  }
}
