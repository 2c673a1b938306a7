/** The socket as an object: the flags of its thread, its handler and the queue it sends to. */
module SocketObject {
  import opened Options
  import opened SocketReadiness

  /** `remove_socket_events` with a handler. */
  method RemoveSocketEvents(queue: seq<Event>, h: Handler, source: Source) returns (r: seq<Event>)
    ensures r == Stripped(queue, h, source)
  {
    r := [];
    assert queue[..0] == [];
    for i := 0 to |queue|
      invariant r == Stripped(queue[..i], h, source)
    {
      assert queue[..i + 1][..i] == queue[..i];
      if !Addressed(queue[i], h, source) {
        r := r + [queue[i]];
      }
    }
    assert queue[..|queue|] == queue;
  }

  /** `change_socket_event_handler`. */
  method ChangeSocketEventHandler(queue: seq<Event>, from: Option<Handler>, dest: Option<Handler>, source: Source, remove: set<Flag>)
    returns (r: seq<Event>, pending: set<Flag>)
    ensures r == ChangedQueue(queue, from, dest, source, remove)
    ensures pending == ChangedPending(queue, from, dest, source, remove)
  {
    pending := {};
    if from.None? {
      return queue, pending;
    }
    if dest.None? {
      r := RemoveSocketEvents(queue, from.value, source);
      return;
    }
    r := [];
    assert queue[..0] == [];
    for i := 0 to |queue|
      invariant r == Retargeted(queue[..i], from.value, dest.value, source, remove)
      invariant pending == Pending(queue[..i], from.value, source, remove)
    {
      assert queue[..i + 1][..i] == queue[..i];
      var e := queue[i];
      if e.handler == from.value && From(e, source) {
        if e.content.SocketEvent? {
          if e.content.flag in remove {
            continue;
          }
          pending := pending + {e.content.flag};
        }
        e := e.(handler := dest.value);
      }
      r := r + [e];
    }
    assert queue[..|queue|] == queue;
  }

  class Socket {
    const source: Source
    var queue: seq<Event>
    var handler: Option<Handler>
    var waiting: set<Flag>
    var triggered: set<Flag>
    var shutDown: bool

    // Whether the consumer is to read, and may write.
    ghost var reading: bool
    ghost var writing: bool

    ghost function View(): State
      reads this
    {
      State(queue, source, handler, waiting, triggered, shutDown, reading, writing)
    }

    constructor (source: Source, handler: Option<Handler>, queue: seq<Event>)
      requires forall e | e in queue :: !From(e, source)
      ensures JustConnected(View()) && this.source == source && this.handler == handler && queue <= this.queue
    {
      this.source, this.handler, this.shutDown, this.reading, this.writing := source, handler, false, false, false;
      this.queue := queue + if handler.Some? then [Event(handler.value, SocketEvent(source, Connection))] else [];
      waiting, triggered := {Read}, {};
      new;
      ConnectedQueue(queue, View());
    }

    method SendEvent(h: Handler, flag: Flag)
      modifies this`queue
      ensures queue == old(queue) + [Event(h, SocketEvent(source, flag))]
    {
      queue := queue + [Event(h, SocketEvent(source, flag))];
    }

    /** `send_events`. */
    method SendTriggered()
      modifies this`queue, this`triggered
      ensures View() == SendEvents(old(View()))
    {
      if handler.None? {
        return;
      }
      if Read in triggered {
        SendEvent(handler.value, Read);
        triggered := triggered - {Read};
      }
      if Write in triggered {
        SendEvent(handler.value, Write);
        triggered := triggered - {Write};
      }
    }

    /** One round of the socket thread. */
    method Wait(ready: set<Flag>)
      requires OneToken(View())
      modifies this`queue, this`triggered, this`waiting
      ensures View() == Poll(old(View()), ready) && OneToken(View())
    {
      PollKeeps(View(), ready);
      if Read in waiting && Read in ready {
        triggered, waiting := triggered + {Read}, waiting - {Read};
      }
      if Write in waiting && Write in ready {
        triggered, waiting := triggered + {Write}, waiting - {Write};
      }
      ghost var hit := old(waiting) * ready * {Read, Write};
      assert triggered == old(triggered) + hit && waiting == old(waiting) - hit;
      if triggered != {} || waiting == {} {
        SendTriggered();
      }
    }

    /** The event loop takes the next event. */
    method TakeEvent() returns (e: Option<Event>)
      requires OneToken(View())
      modifies this`queue, this`reading, this`writing
      ensures View() == Dispatch(old(View())) && OneToken(View())
      ensures e == if old(queue) == [] then None else Some(old(queue)[0])
    {
      DispatchKeeps(View());
      if queue == [] {
        return None;
      }
      e := Some(queue[0]);
      reading := reading || Tells(queue[0], source, Reader.Flags());
      writing := writing || Tells(queue[0], source, Writer.Flags());
      queue := queue[1..];
    }

    /** `read`, where the system says if there is nothing to read. */
    method ReadSome(again: bool)
      requires OneToken(View()) && reading
      modifies this`waiting, this`reading
      ensures View() == AfterRead(old(View()), again) && OneToken(View())
    {
      StepKeeps(View(), Reading(again));
      if again {
        if Read !in waiting {
          waiting := waiting + {Read};
        }
        reading := false;
      }
    }

    /** `write`, where the system says if there is no room. */
    method WriteSome(again: bool)
      requires OneToken(View()) && writing
      modifies this`waiting, this`writing
      ensures View() == AfterWrite(old(View()), again) && OneToken(View())
    {
      StepKeeps(View(), Writing(again));
      if again {
        if Write !in waiting {
          waiting := waiting + {Write};
        }
        writing := false;
      }
    }

    /** The events that `set_event_handler` sends to the new handler. */
    method SendRetriggered(pending: set<Flag>, block: set<Flag>)
      requires handler.Some?
      modifies this`queue, this`triggered, this`reading, this`writing
      ensures View() == Retrigger(old(View()), pending, block)
    {
      if !shutDown && Write !in waiting && pending !! {Connection, Write} && Write !in block {
        triggered := triggered - {Write};
        SendEvent(handler.value, Write);
      }
      if Read !in waiting && Read !in pending && Read !in block {
        triggered := triggered - {Read};
        SendEvent(handler.value, Read);
      }
      reading := Read in block && Read !in waiting && Read !in pending;
      writing := Write in block && Write !in waiting && pending !! {Connection, Write};
    }

    /** `set_event_handler`. */
    method SetEventHandler(h: Option<Handler>, block: set<Flag>)
      requires OneToken(View())
      modifies this`queue, this`handler, this`triggered, this`reading, this`writing
      ensures View() == SetHandler(old(View()), h, block)
      ensures OneToken(View()) <==> !(h.Some? && Read in block && Read in old(triggered))
                                    && !(h.Some? && !shutDown && Write in block && Write in old(triggered))
    {
      ChangeExactly(View(), h, block);
      hide OneToken, ChangedQueue, ChangedPending, Retrigger;
      var changed, pending := ChangeSocketEventHandler(queue, handler, h, source, block);
      queue, handler := changed, h;
      if h.Some? {
        SendRetriggered(pending, block);
      } else {
        reading, writing := false, false;
      }
    }
  }

  lemma ConnectedQueue(queue: seq<Event>, s: State)
    requires forall e | e in queue :: !From(e, s.source)
    requires s.queue == queue + if s.handler.Some? then [Event(s.handler.value, SocketEvent(s.source, Connection))] else []
    requires s.waiting == {Read} && s.triggered == {} && !s.shutDown && !s.reading && !s.writing
    ensures JustConnected(s)
  {
    CountNone(queue, s.source, {Read});
    CountNone(queue, s.source, {Connection, Write});
    if s.handler.Some? {
      var e := Event(s.handler.value, SocketEvent(s.source, Connection));
      CountConcat(queue, [e], s.source, {Read});
      CountConcat(queue, [e], s.source, {Connection, Write});
      CountOne(e, s.source, {Read});
      CountOne(e, s.source, {Connection, Write});
    } else {
      assert s.queue == queue;
    }
  }
}
