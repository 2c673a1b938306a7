/** Replies of the engine, and what the end of an operation does to the command that is running. */
module EngineReplies {
  import opened Options

  /** The bits of a reply. */
  datatype Bit =
    | WouldBlock | Error | Critical | Canceled | Syntax | NotConnected | Disconnected | Internal | Busy
    | AlreadyConnected | PasswordFailed | Timeout | NotSupported | WriteFailed | LinkNotDir | Continue | NotFound

  type Reply = set<Bit>

  const OK: Reply := {}
  const WOULDBLOCK: Reply := {WouldBlock}
  const ERROR: Reply := {Error}
  const CRITICALERROR: Reply := {Critical, Error}
  const CANCELED: Reply := {Canceled, Error}
  const SYNTAXERROR: Reply := {Syntax, Error}
  const NOTCONNECTED: Reply := {NotConnected, Error}
  const DISCONNECTED: Reply := {Disconnected}
  const INTERNALERROR: Reply := {Internal, Error}
  const BUSY: Reply := {Busy, Error}
  const ALREADYCONNECTED: Reply := {AlreadyConnected, Error}
  const CONTINUE: Reply := {Continue}
  const ERROR_NOTFOUND: Reply := {NotFound, Error}

  /** A command; a connection attempt may be retried, and needs a protocol that is supported. */
  datatype Command = Connect(retry: bool, supported: bool) | Disconnect | Other(id: nat)

  datatype Notification = Notification(reply: Reply, command: Command)

  /** What of the engine depends on the end of operations. */
  datatype Core = Core(current: Option<Command>, retryTimer: bool, retryCount: nat, notifications: seq<Notification>)

  /** A failure after which connecting may be tried again. */
  predicate Retryable(reply: Reply) {
    && reply <= {Error, Disconnected, Timeout, Critical, PasswordFailed}
    && (Error in reply || Disconnected in reply)
    && !(CRITICALERROR <= reply)
  }

  /** A failure to connect that counts: it is retryable, and no retry is due yet. */
  predicate Fails(core: Core, reply: Reply) {
    core.current.Some? && core.current.value.Connect? && !core.retryTimer && Retryable(reply)
  }

  /** `ResetOperation` of the engine, with the number of times it is to try to connect. */
  function Report(core: Core, reply: Reply, reconnectCount: int): Core {
    if core.current.None? || (core.current.value.Connect? && core.retryTimer) then core
    else
      var failures := core.retryCount + if Fails(core, reply) then 1 else 0;
      if Fails(core, reply) && failures < reconnectCount && core.current.value.retry
      then core.(retryCount := failures, retryTimer := true)
      else core.(retryCount := failures, current := None,
                 notifications := core.notifications + [Notification(reply, core.current.value)])
  }

  /** To be told again changes nothing. */
  lemma ReportTwice(core: Core, reply: Reply, again: Reply, count: int)
    ensures Report(Report(core, reply, count), again, count) == Report(core, reply, count)
  {
  }

  // ----- The books

  /** The commands that notifications are about. */
  function Commands(notifications: seq<Notification>): seq<Command> {
    seq(|notifications|, i requires 0 <= i < |notifications| => notifications[i].command)
  }

  function Running(core: Core): seq<Command> {
    if core.current.Some? then [core.current.value] else []
  }

  /** Every accepted command has had its one notification, in order, but for the one that is running; only connecting waits for a timer. */
  ghost predicate Booked(core: Core, accepted: seq<Command>) {
    && Commands(core.notifications) + Running(core) == accepted
    && (core.retryTimer ==> core.current.Some? && core.current.value.Connect?)
  }

  lemma ReportBooked(core: Core, reply: Reply, reconnectCount: int, accepted: seq<Command>)
    requires Booked(core, accepted)
    ensures Booked(Report(core, reply, reconnectCount), accepted)
    ensures Report(core, reply, reconnectCount).current.Some? ==> Report(core, reply, reconnectCount).retryTimer
  {
    var core' := Report(core, reply, reconnectCount);
    if core'.current.None? && core.current.Some? {
      assert Commands(core'.notifications) == Commands(core.notifications) + [core.current.value];
    }
  }

  /** The connection attempts so far are covered by failures, and those by what is allowed. */
  ghost predicate WithinTries(core: Core, attempts: nat, reconnectCount: int) {
    && core.current.Some? && core.current.value.Connect?
    && attempts <= core.retryCount + (if core.retryTimer then 0 else 1)
    && (core.retryCount == 0 || (core.current.value.retry && core.retryCount < reconnectCount))
  }

  /** The attempts to connect that a command is allowed. */
  function Tries(command: Command, reconnectCount: int): nat {
    if !command.Connect? then 0
    else if command.retry && reconnectCount > 1 then reconnectCount
    else 1
  }

  lemma ReportTries(core: Core, reply: Reply, attempts: nat, reconnectCount: int)
    requires WithinTries(core, attempts, reconnectCount)
    ensures attempts <= Tries(core.current.value, reconnectCount)
    ensures var core' := Report(core, reply, reconnectCount);
            core'.current.Some? ==> WithinTries(core', attempts, reconnectCount)
  {
  }
}
