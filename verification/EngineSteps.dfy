/**
 * The engine and its control socket: commands are accepted one at a time, run
 * as a stack of operations, and end with a notification. Tearing down a control
 * socket reports to the engine in the middle of what the engine is doing.
 */
module EngineSteps {
  import opened Options
  import opened EngineReplies

  /** What an operation is for, as far as cancelling asks. */
  datatype Purpose = ForConnecting | ForCommand | ForNone

  /** An operation; the end of a top-level one is of no interest to those below it. */
  datatype Operation = Operation(purpose: Purpose, topLevel: bool, waiting: bool)

  /** What a call into an operation does: it may push operations, and has a result. */
  datatype Answer = Answer(pushed: seq<Operation>, reply: Reply)

  /** What a command does when it starts, other than connecting and disconnecting. */
  datatype Beginning = Refused(reply: Reply) | Pushed(operation: Operation)

  /** What an event of the control socket leads to. */
  datatype SocketEvent = Reset(reply: Reply) | Close(reply: Reply) | SendNext(pushed: seq<Operation>)

  /** Events the engine sends to itself, which are handled in order. */
  datatype Item = Start | Cancel

  /**
   * The engine, with the answers that operations will give, the commands it has
   * accepted so far and, of the last one, the attempts to connect and how often
   * it was started.
   */
  datatype State = State(
    core: Core, stack: Option<seq<Operation>>, queue: seq<Item>, script: seq<Answer>,
    accepted: seq<Command>, attempts: nat, begun: nat)

  const CLOSED: Reply := ERROR + DISCONNECTED

  // ----- The control socket's operations

  /** The operations left, the answers left, and what the engine is told, if anything. */
  datatype Outcome = Outcome(stack: seq<Operation>, script: seq<Answer>, report: Option<Reply>)

  /** Errors that the operation below gets to see. */
  predicate Mild(reply: Reply) {
    reply == OK || reply == ERROR || reply == CRITICALERROR || reply == ERROR_NOTFOUND
  }

  /** `CControlSocket::ResetOperation`. The operation that is reset may change the reply. */
  function Resetting(stack: seq<Operation>, script: seq<Answer>, reply: Reply): (o: Outcome)
    ensures (o.report.Some? <==> o.stack == []) && |o.script| <= |script|
    decreases |script|, |stack|, 0
  {
    if stack == [] then Outcome([], script, Some(reply))
    else
      var n := |stack| - 1;
      var code := if script == [] then reply else script[0].reply;
      var script' := if script == [] then [] else script[1..];
      if n == 0 then Outcome([], script', Some(code))
      else if !Mild(code) then Resetting(stack[..n], script', code)
      else if stack[n].topLevel then Sending(stack[..n], script')
      else Parsing(stack[..n], script')
  }

  /** `SendNextCommand`: the loop over what the top operation answers. */
  function Sending(stack: seq<Operation>, script: seq<Answer>): (o: Outcome)
    ensures (o.report.Some? <==> o.stack == []) && |o.script| <= |script|
    ensures stack != [] && script == [] ==> o == Outcome(stack, [], None)
    decreases |script|, |stack|, 1
  {
    if stack == [] then Resetting(stack, script, ERROR)
    else if stack[|stack| - 1].waiting || script == [] then Outcome(stack, script, None)
    else
      var stack', script', reply := stack + script[0].pushed, script[1..], script[0].reply;
      if reply == CONTINUE then Sending(stack', script')
      else if reply == OK then Resetting(stack', script', OK)
      else if Disconnected in reply then Resetting(stack', script', CLOSED + reply)
      else if Error in reply then Resetting(stack', script', reply)
      else if reply == WOULDBLOCK then Outcome(stack', script', None)
      else Resetting(stack', script', INTERNALERROR)
  }

  /** `ParseSubcommandResult`. */
  function Parsing(stack: seq<Operation>, script: seq<Answer>): (o: Outcome)
    ensures (o.report.Some? <==> o.stack == []) && |o.script| <= |script|
    decreases |script|, |stack|, 1
  {
    if stack == [] then Resetting(stack, script, ERROR)
    else if script == [] then Outcome(stack, script, None)
    else
      var stack', script', reply := stack + script[0].pushed, script[1..], script[0].reply;
      if reply == WOULDBLOCK then Outcome(stack', script', None)
      else if reply == CONTINUE then Sending(stack', script')
      else Resetting(stack', script', reply)
  }

  // ----- The engine

  /** The engine is told the outcome. */
  function Told(s: State, o: Outcome, count: int): State {
    s.(script := o.script, core := if o.report.Some? then Report(s.core, o.report.value, count) else s.core)
  }

  function Ended(s: State, o: Outcome, count: int): State {
    Told(s, o, count).(stack := Some(o.stack))
  }

  function Reported(s: State, reply: Reply, count: int): State {
    s.(core := Report(s.core, reply, count))
  }

  /** Destroying the control socket: it closes twice, and reports to an engine that no longer has it. */
  function Dropped(s: State, count: int): State {
    if s.stack.None? then s
    else
      var o := Resetting(s.stack.value, s.script, CLOSED);
      var o' := Resetting(o.stack, o.script, CLOSED);
      Told(Told(s, o, count), o', count).(stack := None)
  }

  /** `Disconnect`. */
  function Disconnecting(s: State, count: int): State {
    if s.stack.None? then s else Dropped(Ended(s, Resetting(s.stack.value, s.script, CLOSED), count), count)
  }

  /** `CheckCommandPreconditions`; being connected is having a control socket. */
  function Preconditions(s: State, command: Command, checkBusy: bool): Reply {
    if checkBusy && s.core.current.Some? then BUSY
    else if command.Other? && s.stack.None? then NOTCONNECTED
    else if command.Connect? && s.stack.Some? then ALREADYCONNECTED
    else OK
  }

  /** The answer of `Execute`. */
  function ReplyTo(s: State, command: Command, valid: bool): Reply {
    if !valid then SYNTAXERROR
    else if Preconditions(s, command, true) != OK then Preconditions(s, command, true)
    else WOULDBLOCK
  }

  /** `Execute`. */
  function Executed(s: State, command: Command, valid: bool): State {
    if ReplyTo(s, command, valid) != WOULDBLOCK then s
    else s.(core := s.core.(current := Some(command)), queue := s.queue + [Start],
            accepted := s.accepted + [command], attempts := 0, begun := 0)
  }

  predicate Connecting(s: State) {
    s.core.current.Some? && s.core.current.value.Connect?
  }

  /** `ContinueConnect`, if a delay is due or not. */
  function Continued(s: State, delayed: bool, count: int): (State, Reply) {
    if !Connecting(s) then (Reported(s, INTERNALERROR, count), INTERNALERROR)
    else if delayed then (s.(core := s.core.(retryTimer := true)), WOULDBLOCK)
    else if !s.core.current.value.supported then (s, SYNTAXERROR + DISCONNECTED)
    else (s.(stack := Some([Operation(ForConnecting, false, false)]), attempts := s.attempts + 1), CONTINUE)
  }

  /** What a command does first. */
  function Begun(s: State, delayed: bool, beginning: Beginning, count: int): (State, Reply)
    requires s.core.current.Some?
  {
    var command := s.core.current.value;
    var reply := Preconditions(s, command, false);
    if reply != OK then (s, reply)
    else
      match command
      case Connect(_, _) => Continued(s.(core := s.core.(retryCount := 0)), delayed, count)
      case Disconnect => (Disconnecting(s, count), OK)
      case Other(_) =>
        match beginning
        case Refused(r) => (s, r)
        case Pushed(operation) => (s.(stack := Some(s.stack.value + [operation])), CONTINUE)
  }

  /** The end of `OnCommandEvent` and of `OnTimer`: operations go on, or the command ends, or it waits. */
  function Proceeding(s: State, reply: Reply, count: int): State {
    if reply == CONTINUE then
      if s.stack.Some? then Ended(s, Sending(s.stack.value, s.script), count) else Reported(s, INTERNALERROR, count)
    else if reply != WOULDBLOCK then Reported(s, reply, count)
    else s
  }

  /** `OnCommandEvent`. */
  function Commanded(s: State, delayed: bool, beginning: Beginning, count: int): State {
    if s.core.current.None? then s
    else
      var (s', reply) := Begun(s.(begun := s.begun + 1), delayed, beginning, count);
      Proceeding(s', if s.core.current.value.Disconnect? && Disconnected in reply then OK else reply, count)
  }

  /** `OnTimer`. */
  function Retried(s: State, delayed: bool, count: int): State {
    if !s.core.retryTimer then s
    else if !Connecting(s) then s.(core := s.core.(retryTimer := false))
    else
      var dropped := Dropped(s, count);
      var (s', reply) := Continued(dropped.(core := dropped.core.(retryTimer := false)), delayed, count);
      Proceeding(s', reply, count)
  }

  /** `CControlSocket::Cancel`; it does nothing if the operation on top is for no command. */
  function SocketCancelled(s: State, count: int): State
    requires s.stack.Some?
  {
    var stack := s.stack.value;
    if stack == [] || stack[|stack| - 1].purpose == ForNone then s
    else if stack[|stack| - 1].purpose == ForConnecting then Ended(s, Resetting(stack, s.script, CLOSED + CANCELED), count)
    else Ended(s, Resetting(stack, s.script, CANCELED), count)
  }

  /** `DoCancel`. */
  function Cancelled(s: State, count: int): State {
    if s.core.current.None? then s
    else if s.core.retryTimer then
      var s' := Dropped(s, count);
      s'.(core := s'.core.(current := None, retryTimer := false,
                           notifications := s'.core.notifications + [Notification(DISCONNECTED + CANCELED, s.core.current.value)]))
    else if s.stack.Some? then SocketCancelled(s, count)
    else Reported(s, CANCELED, count)
  }

  /** An event of the control socket ends an operation, closes the connection, or lets operations go on. */
  function Signalled(s: State, event: SocketEvent, count: int): State {
    if s.stack.None? then s
    else
      match event
      case Reset(reply) => Ended(s, Resetting(s.stack.value, s.script, reply), count)
      case Close(reply) => Ended(s, Resetting(s.stack.value, s.script, CLOSED + reply), count)
      case SendNext(pushed) => Ended(s, Sending(s.stack.value + pushed, s.script), count)
  }

  // ----- What happens

  datatype Happening =
    | Submit(command: Command, valid: bool)
    | AskCancel
    | Next(delayed: bool, beginning: Beginning)
    | TimerEvent(delayed: bool)
    | FromSocket(event: SocketEvent)

  /** A command that starts without an operation does not go on to wait for one. */
  predicate Sensible(h: Happening) {
    h.Next? && h.beginning.Refused? ==> h.beginning.reply != WOULDBLOCK
  }

  /** The next event of the engine's own is handled. */
  function Handled(s: State, delayed: bool, beginning: Beginning, count: int): State {
    if s.queue == [] then s
    else
      var s' := s.(queue := s.queue[1..]);
      if s.queue[0] == Start then Commanded(s', delayed, beginning, count) else Cancelled(s', count)
  }

  function After(s: State, h: Happening, count: int): State {
    match h
    case Submit(command, valid) => Executed(s, command, valid)
    case AskCancel => if s.core.current.Some? then s.(queue := s.queue + [Cancel]) else s
    case Next(delayed, beginning) => Handled(s, delayed, beginning, count)
    case TimerEvent(delayed) => Retried(s, delayed, count)
    case FromSocket(event) => Signalled(s, event, count)
  }

  /** What a happening is answered; only commands and cancelling are. */
  function ReplyOf(s: State, h: Happening): Reply {
    match h
    case Submit(command, valid) => ReplyTo(s, command, valid)
    case AskCancel => if s.core.current.Some? then WOULDBLOCK else OK
    case _ => OK
  }
}
