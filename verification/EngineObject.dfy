/** The engine and its control socket as objects, each method proved against the step it takes. */
module EngineObject {
  import opened Options
  import opened EngineReplies
  import opened EngineSteps
  import opened EngineRuns

  class ControlSocket {
    const engine: Engine
    var operations: seq<Operation>

    constructor (engine: Engine, operations: seq<Operation>)
      ensures this.engine == engine && this.operations == operations
    {
      this.engine, this.operations := engine, operations;
    }

    /** The operations left, the answers left, and that the engine was told the outcome and no more. */
    twostate predicate Leads(o: Outcome)
      reads this, engine
    {
      && operations == o.stack && engine.script == o.script
      && engine.Progress() == if o.report.Some? then Report(old(engine.Progress()), o.report.value, engine.reconnectCount)
                              else old(engine.Progress())
    }

    /** `ResetOperation` of the control socket. */
    method ResetOperation(reply: Reply)
      modifies this`operations, engine`current, engine`retryTimer, engine`retryCount, engine`notifications, engine`script
      ensures Leads(Resetting(old(operations), old(engine.script), reply))
      decreases |engine.script|, |operations|, 0
    {
      hide Report;
      var code := reply;
      var topLevel := false;
      if operations != [] {
        topLevel := operations[|operations| - 1].topLevel;
        operations := operations[..|operations| - 1];
        code := engine.ResultOfReset(code);
      }
      if operations != [] {
        if Mild(code) {
          if !topLevel {
            ParseSubcommandResult();
            return;
          }
        } else {
          ResetOperation(code);
          return;
        }
      }
      if operations == [] {
        engine.ResetOperation(code);
      } else {
        SendNextCommand();
      }
    }

    /** `SendNextCommand`. */
    method SendNextCommand()
      modifies this`operations, engine`current, engine`retryTimer, engine`retryCount, engine`notifications, engine`script
      ensures Leads(Sending(old(operations), old(engine.script)))
      decreases |engine.script|, |operations|, 1
    {
      hide Report, Resetting;
      if operations == [] {
        ResetOperation(ERROR);
        return;
      }
      while operations != []
        invariant operations != [] && engine.Progress() == old(engine.Progress()) && |engine.script| <= old(|engine.script|)
        invariant Sending(operations, engine.script) == Sending(old(operations), old(engine.script))
        decreases |engine.script|
      {
        if operations[|operations| - 1].waiting || engine.script == [] {
          return;
        }
        var answer := engine.script[0];
        engine.script := engine.script[1..];
        operations := operations + answer.pushed;
        if answer.reply == CONTINUE {
          continue;
        }
        if answer.reply == OK {
          ResetOperation(OK);
        } else if Disconnected in answer.reply {
          DoClose(answer.reply);
        } else if Error in answer.reply {
          ResetOperation(answer.reply);
        } else if answer.reply != WOULDBLOCK {
          ResetOperation(INTERNALERROR);
        }
        return;
      }
    }

    /** `ParseSubcommandResult`. */
    method ParseSubcommandResult()
      modifies this`operations, engine`current, engine`retryTimer, engine`retryCount, engine`notifications, engine`script
      ensures Leads(Parsing(old(operations), old(engine.script)))
      decreases |engine.script|, |operations|, 1
    {
      hide Report, Resetting, Sending;
      if operations == [] {
        ResetOperation(ERROR);
        return;
      }
      if engine.script == [] {
        return;
      }
      var answer := engine.script[0];
      engine.script := engine.script[1..];
      operations := operations + answer.pushed;
      if answer.reply == WOULDBLOCK {
        return;
      }
      if answer.reply == CONTINUE {
        SendNextCommand();
      } else {
        ResetOperation(answer.reply);
      }
    }

    /** `DoClose`. */
    method DoClose(reply: Reply)
      modifies this`operations, engine`current, engine`retryTimer, engine`retryCount, engine`notifications, engine`script
      ensures Leads(Resetting(old(operations), old(engine.script), CLOSED + reply))
      decreases |engine.script|, |operations|, 1
    {
      ResetOperation(ERROR + DISCONNECTED + reply);
    }
  }

  class Engine {
    const reconnectCount: int
    var current: Option<Command>
    var retryTimer: bool
    var retryCount: nat
    var controlSocket: ControlSocket?
    var notifications: seq<Notification>

    // The engine's own events that are not handled yet, and the answers that operations will give.
    var queue: seq<Item>
    var script: seq<Answer>

    // The commands accepted so far and, of the last one, the attempts to connect and how often it was started.
    ghost var accepted: seq<Command>
    ghost var attempts: nat
    ghost var begun: nat

    ghost function Progress(): Core
      reads this`current, this`retryTimer, this`retryCount, this`notifications
    {
      Core(current, retryTimer, retryCount, notifications)
    }

    ghost function View(): State
      reads this, controlSocket
    {
      State(Progress(), if controlSocket == null then None else Some(controlSocket.operations), queue, script, accepted, attempts, begun)
    }

    ghost predicate Valid()
      reads this`controlSocket
    {
      controlSocket != null ==> controlSocket.engine == this
    }

    constructor (reconnectCount: int, script: seq<Answer>)
      ensures Valid() && controlSocket == null && Idle(View())
      ensures this.reconnectCount == reconnectCount && this.script == script
    {
      this.reconnectCount, this.script := reconnectCount, script;
      current, retryTimer, retryCount, controlSocket, notifications, queue := None, false, 0, null, [], [];
      accepted, attempts, begun := [], 0, 0;
    }

    /** What an operation makes of the reply it is reset with. */
    method ResultOfReset(reply: Reply) returns (r: Reply)
      modifies this`script
      ensures r == if old(script) == [] then reply else old(script)[0].reply
      ensures script == if old(script) == [] then [] else old(script)[1..]
    {
      if script == [] {
        return reply;
      }
      r := script[0].reply;
      script := script[1..];
    }

    /** `ResetOperation` of the engine. */
    method ResetOperation(reply: Reply)
      modifies this`current, this`retryTimer, this`retryCount, this`notifications
      ensures Progress() == Report(old(Progress()), reply, reconnectCount)
    {
      if current.Some? {
        if current.value.Connect? {
          if retryTimer {
            return;
          }
          if Retryable(reply) {
            retryCount := retryCount + 1;
            if retryCount < reconnectCount && current.value.retry {
              retryTimer := true;
              return;
            }
          }
        }
        notifications := notifications + [Notification(reply, current.value)];
        current := None;
      }
    }

    /** Destroying the control socket: it closes twice, and reports to an engine that no longer has it. */
    method DropSocket()
      requires Valid()
      modifies this, controlSocket
      ensures controlSocket == null && View() == Dropped(old(View()), reconnectCount)
    {
      hide Report, Resetting;
      var socket := controlSocket;
      controlSocket := null;
      if socket != null {
        assert CLOSED + CLOSED == CLOSED;
        socket.DoClose(ERROR + DISCONNECTED);
        socket.DoClose(ERROR + DISCONNECTED);
      }
    }

    // ----- What callers and the event loop ask for

    /** `CheckCommandPreconditions`. */
    function CheckCommandPreconditions(command: Command, checkBusy: bool): (r: Reply)
      reads this, controlSocket
      ensures r == Preconditions(View(), command, checkBusy)
    {
      if checkBusy && current.Some? then BUSY
      else if command.Other? && controlSocket == null then NOTCONNECTED
      else if command.Connect? && controlSocket != null then ALREADYCONNECTED
      else OK
    }

    /** `Execute`. */
    method Execute(command: Command, valid: bool) returns (r: Reply)
      modifies this
      ensures View() == Executed(old(View()), command, valid) && r == ReplyTo(old(View()), command, valid)
      ensures controlSocket == old(controlSocket)
    {
      if !valid {
        return SYNTAXERROR;
      }
      r := CheckCommandPreconditions(command, true);
      if r != OK {
        return;
      }
      current := Some(command);
      queue := queue + [Start];
      accepted := accepted + [command];
      attempts, begun := 0, 0;
      return WOULDBLOCK;
    }

    /** `Cancel`. */
    method AskToCancel() returns (r: Reply)
      modifies this`queue
      ensures View() == After(old(View()), AskCancel, reconnectCount) && r == ReplyOf(old(View()), AskCancel)
    {
      if current.None? {
        return OK;
      }
      queue := queue + [Cancel];
      return WOULDBLOCK;
    }

    /** `ContinueConnect`; the caller says if there is to be a delay first. */
    method ContinueConnect(delayed: bool) returns (r: Reply)
      requires Valid()
      modifies this
      ensures Valid() && (View(), r) == Continued(old(View()), delayed, reconnectCount)
      ensures controlSocket == old(controlSocket) || fresh(controlSocket)
    {
      if current.None? || !current.value.Connect? {
        ResetOperation(INTERNALERROR);
        return INTERNALERROR;
      }
      if delayed {
        retryTimer := true;
        return WOULDBLOCK;
      }
      if !current.value.supported {
        return SYNTAXERROR + DISCONNECTED;
      }
      controlSocket := new ControlSocket(this, [Operation(ForConnecting, false, false)]);
      attempts := attempts + 1;
      return CONTINUE;
    }

    /** `Disconnect`. */
    method Disconnect() returns (r: Reply)
      requires Valid()
      modifies this, controlSocket
      ensures controlSocket == null && View() == Disconnecting(old(View()), reconnectCount) && r == OK
    {
      hide Report, Resetting, Dropped;
      r := OK;
      if controlSocket != null {
        assert CLOSED + CLOSED == CLOSED;
        controlSocket.DoClose(ERROR + DISCONNECTED);
        assert View() == Ended(old(View()), Resetting(old(controlSocket.operations), old(script), CLOSED), reconnectCount);
        DropSocket();
      }
    }

    /** The end of `OnCommandEvent` and of `OnTimer`: operations go on, or the command ends, or it waits. */
    method Proceed(reply: Reply)
      requires Valid()
      modifies this`current, this`retryTimer, this`retryCount, this`notifications, this`script, controlSocket
      ensures View() == Proceeding(old(View()), reply, reconnectCount)
    {
      hide Report, Sending;
      if reply == CONTINUE {
        if controlSocket != null {
          controlSocket.SendNextCommand();
        } else {
          ResetOperation(INTERNALERROR);
        }
      } else if reply != WOULDBLOCK {
        ResetOperation(reply);
      }
    }

    /** The start of a command in `OnCommandEvent`. */
    method Begin(delayed: bool, beginning: Beginning) returns (r: Reply)
      requires Valid() && current.Some?
      modifies this, controlSocket
      ensures Valid() && (View(), r) == Begun(old(View()), delayed, beginning, reconnectCount)
      ensures controlSocket == old(controlSocket) || controlSocket == null || fresh(controlSocket)
    {
      hide Continued, Disconnecting;
      var command := current.value;
      r := CheckCommandPreconditions(command, false);
      if r != OK {
        return;
      }
      match command
      case Connect(_, _) =>
        retryCount := 0;
        r := ContinueConnect(delayed);
      case Disconnect =>
        r := this.Disconnect();
      case Other(_) =>
        match beginning
        case Refused(reply) =>
          r := reply;
        case Pushed(operation) =>
          controlSocket.operations := controlSocket.operations + [operation];
          r := CONTINUE;
    }

    /** `OnCommandEvent`. */
    method OnCommandEvent(delayed: bool, beginning: Beginning)
      requires Valid()
      modifies this, controlSocket
      ensures Valid() && View() == Commanded(old(View()), delayed, beginning, reconnectCount)
      ensures controlSocket == old(controlSocket) || controlSocket == null || fresh(controlSocket)
    {
      hide Begun, Proceeding;
      if current.None? {
        return;
      }
      var command := current.value;
      begun := begun + 1;
      var r := Begin(delayed, beginning);
      if command.Disconnect? && Disconnected in r {
        r := OK;
      }
      Proceed(r);
    }

    /** `OnTimer`. */
    method OnTimer(delayed: bool)
      requires Valid()
      modifies this, controlSocket
      ensures Valid() && View() == Retried(old(View()), delayed, reconnectCount)
      ensures controlSocket == old(controlSocket) || controlSocket == null || fresh(controlSocket)
    {
      hide Dropped, Continued, Proceeding;
      if !retryTimer {
        return;
      }
      if current.None? || !current.value.Connect? {
        retryTimer := false;
        return;
      }
      DropSocket();
      retryTimer := false;
      var r := ContinueConnect(delayed);
      Proceed(r);
    }

    /** `DoCancel`. */
    method DoCancel()
      requires Valid()
      modifies this, controlSocket
      ensures Valid() && View() == Cancelled(old(View()), reconnectCount)
      ensures controlSocket == old(controlSocket) || controlSocket == null
    {
      hide Dropped, Report, Resetting;
      if current.None? {
        return;
      }
      if retryTimer {
        var command := current.value;
        DropSocket();
        notifications := notifications + [Notification(DISCONNECTED + CANCELED, command)];
        current := None;
        retryTimer := false;
      } else if controlSocket != null {
        if controlSocket.operations != [] {
          var purpose := controlSocket.operations[|controlSocket.operations| - 1].purpose;
          if purpose == ForConnecting {
            controlSocket.DoClose(CANCELED);
          } else if purpose != ForNone {
            controlSocket.ResetOperation(CANCELED);
          }
        }
      } else {
        ResetOperation(CANCELED);
      }
    }

    /** An event of the control socket ends an operation, closes the connection, or lets operations go on. */
    method OnSocket(event: SocketEvent)
      requires Valid()
      modifies this, controlSocket
      ensures Valid() && View() == Signalled(old(View()), event, reconnectCount)
      ensures controlSocket == old(controlSocket)
    {
      hide Report, Resetting, Sending;
      if controlSocket == null {
        return;
      }
      match event
      case Reset(reply) =>
        controlSocket.ResetOperation(reply);
      case Close(reply) =>
        controlSocket.DoClose(reply);
      case SendNext(pushed) =>
        controlSocket.operations := controlSocket.operations + pushed;
        controlSocket.SendNextCommand();
    }

    /** The next event of the engine's own is handled. */
    method HandleNext(delayed: bool, beginning: Beginning)
      requires Valid()
      modifies this, controlSocket
      ensures Valid() && View() == Handled(old(View()), delayed, beginning, reconnectCount)
      ensures controlSocket == old(controlSocket) || controlSocket == null || fresh(controlSocket)
    {
      hide Commanded, Cancelled;
      if queue == [] {
        return;
      }
      var item := queue[0];
      queue := queue[1..];
      if item == Start {
        OnCommandEvent(delayed, beginning);
      } else {
        DoCancel();
      }
    }

    /** One happening. */
    method Take(h: Happening) returns (r: Reply)
      requires Valid()
      modifies this, controlSocket
      ensures Valid() && View() == After(old(View()), h, reconnectCount) && r == ReplyOf(old(View()), h)
      ensures controlSocket == old(controlSocket) || controlSocket == null || fresh(controlSocket)
    {
      hide Executed, Handled, Retried, Signalled;
      r := OK;
      match h
      case Submit(command, valid) => r := Execute(command, valid);
      case AskCancel => r := AskToCancel();
      case Next(delayed, beginning) => HandleNext(delayed, beginning);
      case TimerEvent(delayed) => OnTimer(delayed);
      case FromSocket(event) => OnSocket(event);
    }
  }

  /**
   * An engine through whatever happens: what it answers and notifies is a run,
   * so each command it accepted has one notification, in order, but for the one
   * that is running.
   */
  method Run(count: int, script: seq<Answer>, happenings: seq<Happening>)
    returns (replies: seq<Reply>, notified: seq<Notification>, running: Option<Command>, ghost states: seq<State>)
    requires forall h | h in happenings :: Sensible(h)
    ensures IsRun(states, happenings, replies, count) && states[0].script == script
    ensures notified == states[|happenings|].core.notifications && running == states[|happenings|].core.current
    ensures Commands(notified) + (if running.Some? then [running.value] else []) == Accepted(happenings, replies)
  {
    hide After, ReplyOf, Idle, Sensible;
    var engine := new Engine(count, script);
    replies, states := [], [engine.View()];
    for i := 0 to |happenings|
      invariant engine.Valid() && engine.reconnectCount == count && fresh(engine)
      invariant engine.controlSocket != null ==> fresh(engine.controlSocket)
      invariant |states| == i + 1 && IsRun(states, happenings[..i], replies, count)
      invariant states[0].script == script && states[i] == engine.View()
    {
      assert happenings[i] in happenings;
      var r := engine.Take(happenings[i]);
      Extended(states, happenings[..i], replies, count, happenings[i]);
      assert happenings[..i] + [happenings[i]] == happenings[..i + 1];
      replies, states := replies + [r], states + [engine.View()];
    }
    assert happenings[..|happenings|] == happenings && replies[..|happenings|] == replies;
    ExactlyOnce(states, happenings, replies, count, |happenings|);
    notified, running := engine.notifications, engine.current;
  }
}
