/** Whole runs of the engine, with whatever its operations, its control socket and its user do. */
module EngineRuns {
  import opened Options
  import opened EngineReplies
  import opened EngineSteps

  /** A run: the states of an engine, what happens, and what is answered. */
  ghost predicate IsRun(states: seq<State>, happenings: seq<Happening>, replies: seq<Reply>, count: int) {
    && |states| == |happenings| + 1 && |replies| == |happenings| && Idle(states[0])
    && forall i | 0 <= i < |happenings| ::
         && Sensible(happenings[i]) && replies[i] == ReplyOf(states[i], happenings[i])
         && states[i + 1] == After(states[i], happenings[i], count)
  }

  /** An engine that has done nothing yet, whatever its operations will answer. */
  predicate Idle(s: State) {
    s == State(Core(None, false, 0, []), None, [], s.script, [], 0, 0)
  }

  /** The commands that were accepted: those answered that there will be a notification. */
  function Accepted(happenings: seq<Happening>, replies: seq<Reply>): seq<Command>
    requires |happenings| == |replies|
  {
    if happenings == [] then []
    else
      var n := |happenings| - 1;
      Accepted(happenings[..n], replies[..n]) +
      (if happenings[n].Submit? && replies[n] == WOULDBLOCK then [happenings[n].command] else [])
  }

  // ----- The invariant

  /** A command that is running waits for its start, for the timer, or for an operation. */
  predicate Waits(s: State) {
    s.core.current.Some? ==> Start in s.queue || s.core.retryTimer || (s.stack.Some? && s.stack.value != [])
  }

  /** A command that was not started has an event that will start it, and nothing was done for it yet. */
  predicate Fresh(s: State) {
    s.core.current.Some? && s.begun == 0 ==>
      && Start in s.queue && s.attempts == 0 && !s.core.retryTimer
      && (Connecting(s) ==> s.stack.None?)
  }

  /** Connecting that has begun has a control socket, or waits for the timer to make one. */
  predicate Tended(s: State) {
    Connecting(s) && s.begun > 0 ==> s.stack.Some? || s.core.retryTimer
  }

  ghost predicate Inv(s: State) {
    Booked(s.core, s.accepted) && Waits(s) && Fresh(s) && Tended(s)
  }

  /** What ends of operations keep, for a command that was started or is none. */
  lemma EndedInv(s: State, o: Outcome, count: int)
    requires Booked(s.core, s.accepted) && (o.report.Some? <==> o.stack == [])
    requires Fresh(s) && s.stack.Some? && (o.report.None? ==> s.core.current.None? || Waits(Ended(s, o, count)))
    ensures Inv(Ended(s, o, count))
  {
    if o.report.Some? {
      ReportBooked(s.core, o.report.value, count, s.accepted);
    }
    hide Report, Booked;
  }

  lemma ReportedInv(s: State, reply: Reply, count: int)
    requires Booked(s.core, s.accepted) && Fresh(s)
    requires s.core.current.None? || s.begun > 0 || !Retryable(reply)
    ensures Inv(Reported(s, reply, count))
  {
    ReportBooked(s.core, reply, count, s.accepted);
  }

  /** While a retry is due, ends of operations do not count. */
  lemma DroppedKeeps(s: State, count: int)
    requires Booked(s.core, s.accepted)
    ensures var s' := Dropped(s, count);
            && s' == s.(core := s'.core, script := s'.script, stack := None) && Booked(s'.core, s.accepted)
            && (s.core.retryTimer ==> s'.core == s.core)
            && (s'.core == s.core || s'.core.current.None? || s'.core.retryTimer)
  {
    hide Booked, Resetting;
    if s.stack.Some? {
      var o := Resetting(s.stack.value, s.script, CLOSED);
      var o' := Resetting(o.stack, o.script, CLOSED);
      TimerGuards(s.core, s.accepted, count);
      if o.report.Some? {
        ReportBooked(s.core, o.report.value, count, s.accepted);
      }
      var s1 := Told(s, o, count);
      TimerGuards(s1.core, s.accepted, count);
      if o'.report.Some? {
        ReportBooked(s1.core, o'.report.value, count, s.accepted);
        if o.report.Some? {
          ReportTwice(s.core, o.report.value, o'.report.value, count);
        }
      }
      hide Report;
    }
  }

  lemma TimerGuards(core: Core, accepted: seq<Command>, count: int)
    requires Booked(core, accepted)
    ensures core.retryTimer ==> forall reply :: Report(core, reply, count) == core
  {
  }

  // ----- Every happening keeps it

  /** Going on with a reply, once a command was started. */
  lemma ProceedingInv(s: State, reply: Reply, count: int)
    requires Booked(s.core, s.accepted) && (s.core.current.Some? ==> s.begun > 0)
    requires reply == WOULDBLOCK ==> s.core.current.None? || s.core.retryTimer
    ensures Inv(Proceeding(s, reply, count))
  {
    hide Booked, Report, Retryable;
    if reply == CONTINUE && s.stack.Some? {
      var o := Sending(s.stack.value, s.script);
      hide Sending;
      EndedInv(s, o, count);
    } else if reply == CONTINUE {
      ReportedInv(s, INTERNALERROR, count);
    } else if reply != WOULDBLOCK {
      ReportedInv(s, reply, count);
    }
  }

  lemma ContinuedBooked(s: State, delayed: bool, count: int)
    requires Booked(s.core, s.accepted) && Connecting(s)
    ensures var (s', reply) := Continued(s, delayed, count);
            && Booked(s'.core, s'.accepted) && s'.begun == s.begun && s'.core.current == s.core.current
            && (reply == WOULDBLOCK ==> s'.core.retryTimer)
  {
  }

  lemma BegunBooked(s: State, delayed: bool, beginning: Beginning, count: int)
    requires Booked(s.core, s.accepted) && s.core.current.Some? && s.begun > 0
    requires beginning.Refused? ==> beginning.reply != WOULDBLOCK
    ensures var (s', reply) := Begun(s, delayed, beginning, count);
            && Booked(s'.core, s'.accepted) && s'.begun == s.begun
            && (reply == WOULDBLOCK ==> s'.core.retryTimer)
  {
    match s.core.current.value
    case Connect(_, _) =>
      ContinuedBooked(s.(core := s.core.(retryCount := 0)), delayed, count);
    case Disconnect =>
      hide Resetting;
      if s.stack.Some? {
        var o := Resetting(s.stack.value, s.script, CLOSED);
        if o.report.Some? {
          ReportBooked(s.core, o.report.value, count, s.accepted);
        }
        DroppedKeeps(Ended(s, o, count), count);
      }
    case Other(_) =>
  }

  lemma CommandedInv(s: State, delayed: bool, beginning: Beginning, count: int)
    requires Booked(s.core, s.accepted)
    requires beginning.Refused? ==> beginning.reply != WOULDBLOCK
    ensures Inv(Commanded(s, delayed, beginning, count))
  {
    if s.core.current.Some? {
      hide Booked, Begun, Proceeding, Inv;
      var s0 := s.(begun := s.begun + 1);
      var (s', reply) := Begun(s0, delayed, beginning, count);
      BegunBooked(s0, delayed, beginning, count);
      var reply' := if s.core.current.value.Disconnect? && Disconnected in reply then OK else reply;
      assert reply' == WOULDBLOCK ==> reply == WOULDBLOCK;
      assert Commanded(s, delayed, beginning, count) == Proceeding(s', reply', count);
      hide *;
      ProceedingInv(s', reply', count);
    }
  }

  lemma RetriedInv(s: State, delayed: bool, count: int)
    requires Inv(s)
    ensures Inv(Retried(s, delayed, count))
  {
    if s.core.retryTimer {
      var dropped := Dropped(s, count);
      DroppedKeeps(s, count);
      hide Dropped;
      var due := dropped.(core := dropped.core.(retryTimer := false));
      ContinuedBooked(due, delayed, count);
      var (s', reply) := Continued(due, delayed, count);
      hide Booked, Continued;
      ProceedingInv(s', reply, count);
    }
  }

  lemma CancelledInv(s: State, count: int)
    requires Inv(s)
    ensures Inv(Cancelled(s, count))
  {
    if s.core.current.Some? {
      if s.core.retryTimer {
        DroppedKeeps(s, count);
        hide Dropped;
        var notified := s.core.notifications + [Notification(DISCONNECTED + CANCELED, s.core.current.value)];
        assert Commands(notified) == Commands(s.core.notifications) + [s.core.current.value];
      } else if s.stack.Some? {
        hide Booked, Resetting;
        var stack := s.stack.value;
        if stack != [] {
          EndedInv(s, Resetting(stack, s.script, CLOSED + CANCELED), count);
          EndedInv(s, Resetting(stack, s.script, CANCELED), count);
        }
      } else {
        hide Booked;
        ReportedInv(s, CANCELED, count);
      }
    }
  }

  lemma SignalledInv(s: State, event: SocketEvent, count: int)
    requires Inv(s)
    ensures Inv(Signalled(s, event, count))
  {
    hide Booked, Resetting, Sending;
    if s.stack.Some? {
      match event
      case Reset(reply) => EndedInv(s, Resetting(s.stack.value, s.script, reply), count);
      case Close(reply) => EndedInv(s, Resetting(s.stack.value, s.script, CLOSED + reply), count);
      case SendNext(pushed) => EndedInv(s, Sending(s.stack.value + pushed, s.script), count);
    }
  }

  lemma ExecutedInv(s: State, command: Command, valid: bool)
    requires Inv(s)
    ensures Inv(Executed(s, command, valid))
  {
    if ReplyTo(s, command, valid) == WOULDBLOCK {
      assert Commands(s.core.notifications) + [] == Commands(s.core.notifications);
    }
  }

  lemma StepInv(s: State, h: Happening, count: int)
    requires Inv(s) && Sensible(h)
    ensures Inv(After(s, h, count))
  {
    match h
    case Submit(command, valid) => ExecutedInv(s, command, valid);
    case AskCancel => hide Booked;
    case Next(delayed, beginning) =>
      if s.queue != [] {
        hide Booked, Commanded, Cancelled;
        var s' := s.(queue := s.queue[1..]);
        if s.queue[0] == Start {
          CommandedInv(s', delayed, beginning, count);
        } else {
          assert s.queue == [s.queue[0]] + s.queue[1..];
          CancelledInv(s', count);
        }
      }
    case TimerEvent(delayed) => RetriedInv(s, delayed, count);
    case FromSocket(event) => SignalledInv(s, event, count);
  }

  lemma {:induction false} RunInv(states: seq<State>, happenings: seq<Happening>, replies: seq<Reply>, count: int, n: nat)
    requires IsRun(states, happenings, replies, count) && n <= |happenings|
    ensures Inv(states[n])
  {
    if n > 0 {
      hide Inv, After;
      RunInv(states, happenings, replies, count, n - 1);
      StepInv(states[n - 1], happenings[n - 1], count);
    }
  }

  // ----- Every accepted command ends with one notification

  lemma AcceptedStep(s: State, h: Happening, count: int)
    ensures After(s, h, count).accepted == s.accepted + if h.Submit? && ReplyOf(s, h) == WOULDBLOCK then [h.command] else []
  {
    hide Resetting, Sending, Report;
    assert s.accepted + [] == s.accepted;
  }

  lemma {:induction false} AcceptedRun(states: seq<State>, happenings: seq<Happening>, replies: seq<Reply>, count: int, n: nat)
    requires IsRun(states, happenings, replies, count) && n <= |happenings|
    ensures states[n].accepted == Accepted(happenings[..n], replies[..n])
  {
    if n > 0 {
      hide After, ReplyOf;
      AcceptedRun(states, happenings, replies, count, n - 1);
      AcceptedStep(states[n - 1], happenings[n - 1], count);
      assert happenings[..n][..n - 1] == happenings[..n - 1] && replies[..n][..n - 1] == replies[..n - 1];
    }
  }

  /**
   * Exactly-once completion: at every point of every run, the notifications so
   * far are about the commands accepted so far, once each and in order, but for
   * the one that is running; and that one waits for its start, for the timer or
   * for an operation.
   */
  lemma ExactlyOnce(states: seq<State>, happenings: seq<Happening>, replies: seq<Reply>, count: int, n: nat)
    requires IsRun(states, happenings, replies, count) && n <= |happenings|
    ensures Commands(states[n].core.notifications) + Running(states[n].core) == Accepted(happenings[..n], replies[..n])
    ensures states[n].core.current.Some? ==>
              || Start in states[n].queue || states[n].core.retryTimer
              || (states[n].stack.Some? && states[n].stack.value != [])
  {
    RunInv(states, happenings, replies, count, n);
    AcceptedRun(states, happenings, replies, count, n);
  }

  /** When a command is accepted: it is valid, none is running, and a control socket is there exactly if it needs one. */
  lemma AcceptedExactly(states: seq<State>, happenings: seq<Happening>, replies: seq<Reply>, count: int, i: nat)
    requires IsRun(states, happenings, replies, count) && i < |happenings| && happenings[i].Submit?
    ensures replies[i] == WOULDBLOCK <==>
            && happenings[i].valid
            && |Commands(states[i].core.notifications)| == |Accepted(happenings[..i], replies[..i])|
            && (happenings[i].command.Other? ==> states[i].stack.Some?)
            && (happenings[i].command.Connect? ==> states[i].stack.None?)
  {
    ExactlyOnce(states, happenings, replies, count, i);
  }

  // ----- Attempts to connect

  /** The attempts allowed to the last command that was accepted. */
  function Allowed(s: State, count: int): nat {
    if s.accepted == [] then 0 else Tries(s.accepted[|s.accepted| - 1], count)
  }

  /** The attempts are within what is allowed, and failures so far leave room for one more. */
  ghost predicate Moderate(s: State, count: int) {
    && s.attempts <= Allowed(s, count)
    && (Connecting(s) && s.begun > 0 ==> WithinTries(s.core, s.attempts, count))
  }

  /** A command event finds a connection attempt that has begun, without a socket, and one was made before or is made now. */
  predicate Overlaps(s: State, delayed: bool) {
    && Connecting(s) && s.begun > 0 && s.stack.None?
    && (s.attempts > 0 || (s.core.current.value.supported && !delayed))
  }

  lemma ReportModerate(s: State, s': State, reply: Reply, count: int)
    requires Moderate(s, count) && s' == s.(core := Report(s.core, reply, count), stack := s'.stack, script := s'.script)
    ensures Moderate(s', count)
  {
    if Connecting(s) && s.begun > 0 {
      ReportTries(s.core, reply, s.attempts, count);
    }
  }

  lemma EndedModerate(s: State, o: Outcome, count: int)
    requires Moderate(s, count)
    ensures Moderate(Ended(s, o, count), count)
  {
    hide Report;
    if o.report.Some? {
      ReportModerate(s, Ended(s, o, count), o.report.value, count);
    }
  }

  lemma ProceedingModerate(s: State, reply: Reply, count: int)
    requires Moderate(s, count)
    ensures Moderate(Proceeding(s, reply, count), count)
  {
    hide Report, Sending, Moderate;
    if reply == CONTINUE && s.stack.Some? {
      EndedModerate(s, Sending(s.stack.value, s.script), count);
    } else if reply == CONTINUE {
      ReportModerate(s, Reported(s, INTERNALERROR, count), INTERNALERROR, count);
    } else if reply != WOULDBLOCK {
      ReportModerate(s, Reported(s, reply, count), reply, count);
    }
  }

  /** While a retry is due nothing that goes on changes the count. */
  lemma ProceedingDue(s: State, reply: Reply, count: int)
    requires Booked(s.core, s.accepted) && s.core.retryTimer
    ensures Proceeding(s, reply, count).core == s.core && Proceeding(s, reply, count).attempts == s.attempts
    ensures Proceeding(s, reply, count).begun == s.begun
  {
    hide Sending, Report;
    TimerGuards(s.core, s.accepted, count);
  }

  /** A command event keeps the attempts moderate exactly if it does not overlap with one that is under way. */
  lemma CommandedModerate(s: State, delayed: bool, beginning: Beginning, count: int)
    requires Booked(s.core, s.accepted) && Tended(s) && Moderate(s, count)
    requires s.core.current.Some? && s.begun == 0 ==> s.attempts == 0 && !s.core.retryTimer && (Connecting(s) ==> s.stack.None?)
    ensures Moderate(Commanded(s, delayed, beginning, count), count) <==> !Overlaps(s, delayed)
  {
    if s.core.current.Some? {
      var s0 := s.(begun := s.begun + 1);
      var (s', reply) := Begun(s0, delayed, beginning, count);
      if !Connecting(s) {
        OthersModerate(s0, delayed, beginning, count);
        hide Begun, Report, Sending;
        ProceedingModerate(s', if s.core.current.value.Disconnect? && Disconnected in reply then OK else reply, count);
      } else if s.stack.Some? {
        ProceedingModerate(s', reply, count);
      } else {
        hide Report, Sending;
        ContinuedBooked(s0.(core := s0.core.(retryCount := 0)), delayed, count);
        if !Overlaps(s, delayed) {
          ProceedingModerate(s', reply, count);
        } else {
          ProceedingDue(s', reply, count);
        }
      }
    }
  }

  lemma OthersModerate(s: State, delayed: bool, beginning: Beginning, count: int)
    requires s.core.current.Some? && !Connecting(s) && s.attempts <= Allowed(s, count)
    ensures Moderate(Begun(s, delayed, beginning, count).0, count)
  {
    hide Resetting;
  }

  lemma RetriedModerate(s: State, delayed: bool, count: int)
    requires Inv(s) && Moderate(s, count)
    ensures Moderate(Retried(s, delayed, count), count)
  {
    if s.core.retryTimer {
      var dropped := Dropped(s, count);
      DroppedKeeps(s, count);
      hide Dropped;
      var (s', reply) := Continued(dropped.(core := dropped.core.(retryTimer := false)), delayed, count);
      ReportTries(s'.core, OK, s'.attempts, count);
      hide Continued;
      ProceedingModerate(s', reply, count);
    }
  }

  lemma CancelledModerate(s: State, count: int)
    requires Inv(s) && Moderate(s, count)
    ensures Moderate(Cancelled(s, count), count)
  {
    if s.core.current.Some? {
      if s.core.retryTimer {
        DroppedKeeps(s, count);
        hide Dropped;
      } else if s.stack.Some? {
        hide Moderate, Resetting, Inv;
        var stack := s.stack.value;
        EndedModerate(s, Resetting(stack, s.script, CLOSED + CANCELED), count);
        EndedModerate(s, Resetting(stack, s.script, CANCELED), count);
      } else {
        hide Moderate, Report, Inv;
        ReportModerate(s, Reported(s, CANCELED, count), CANCELED, count);
      }
    }
  }

  predicate StepOverlaps(s: State, h: Happening) {
    h.Next? && s.queue != [] && s.queue[0] == Start && Overlaps(s, h.delayed)
  }

  /** A step keeps the attempts moderate exactly if it is no command event that overlaps with an attempt under way. */
  lemma StepModerate(s: State, h: Happening, count: int)
    requires Inv(s) && Moderate(s, count)
    ensures Moderate(After(s, h, count), count) <==> !StepOverlaps(s, h)
  {
    match h
    case Submit(command, valid) =>
    case AskCancel =>
    case Next(delayed, beginning) =>
      if s.queue != [] {
        var s' := s.(queue := s.queue[1..]);
        if s.queue[0] == Start {
          CommandedModerate(s', delayed, beginning, count);
          hide Commanded, WithinTries, Booked;
        } else {
          assert s.queue == [s.queue[0]] + s.queue[1..];
          CancelledModerate(s', count);
          hide Cancelled, WithinTries, Booked;
        }
      }
    case TimerEvent(delayed) =>
      RetriedModerate(s, delayed, count);
    case FromSocket(event) =>
      hide Moderate, Resetting, Sending, Inv;
      if s.stack.Some? {
        match event
        case Reset(reply) => EndedModerate(s, Resetting(s.stack.value, s.script, reply), count);
        case Close(reply) => EndedModerate(s, Resetting(s.stack.value, s.script, CLOSED + reply), count);
        case SendNext(pushed) => EndedModerate(s, Sending(s.stack.value + pushed, s.script), count);
      }
  }

  /** In a run without such overlaps, a connect command makes at most as many attempts as allowed. */
  lemma {:induction false} AttemptsBound(states: seq<State>, happenings: seq<Happening>, replies: seq<Reply>, count: int, n: nat)
    requires IsRun(states, happenings, replies, count) && n <= |happenings|
    requires forall i | 0 <= i < n :: !StepOverlaps(states[i], happenings[i])
    ensures Moderate(states[n], count) && states[n].attempts <= Allowed(states[n], count)
  {
    if n > 0 {
      hide Inv, After, StepOverlaps, Moderate;
      AttemptsBound(states, happenings, replies, count, n - 1);
      RunInv(states, happenings, replies, count, n - 1);
      StepModerate(states[n - 1], happenings[n - 1], count);
      WithinAll(states[n], count);
    }
  }

  lemma WithinAll(s: State, count: int)
    requires Moderate(s, count)
    ensures s.attempts <= Allowed(s, count)
  {
  }

  /**
   * The attempts are moderate throughout a run exactly if no command event finds
   * a connection attempt begun, without a socket, and with an attempt made before
   * or to be made now.
   */
  lemma AttemptsExactly(states: seq<State>, happenings: seq<Happening>, replies: seq<Reply>, count: int)
    requires IsRun(states, happenings, replies, count)
    ensures (forall k | 0 <= k < |states| :: Moderate(states[k], count)) <==>
            (forall i | 0 <= i < |happenings| :: !StepOverlaps(states[i], happenings[i]))
  {
    hide Inv, After, StepOverlaps, Moderate;
    if forall k | 0 <= k < |states| :: Moderate(states[k], count) {
      forall i | 0 <= i < |happenings| ensures !StepOverlaps(states[i], happenings[i]) {
        RunInv(states, happenings, replies, count, i);
        StepModerate(states[i], happenings[i], count);
        assert Moderate(states[i + 1], count);
      }
    }
    if forall i | 0 <= i < |happenings| :: !StepOverlaps(states[i], happenings[i]) {
      forall k | 0 <= k < |states| ensures Moderate(states[k], count) {
        AttemptsBound(states, happenings, replies, count, k);
      }
    }
  }

  // ----- Commands that are started twice

  function Starts(queue: seq<Item>): nat {
    if queue == [] then 0 else (if queue[0] == Start then 1 else 0) + Starts(queue[1..])
  }

  lemma {:induction false} StartsPush(queue: seq<Item>, item: Item)
    ensures Starts(queue + [item]) == Starts(queue) + if item == Start then 1 else 0
  {
    if queue == [] {
      assert queue + [item] == [item] && [item][1..] == [];
    } else {
      assert (queue + [item])[1..] == queue[1..] + [item];
      StartsPush(queue[1..], item);
    }
  }

  /** Command events in the queue other than that of the running command: those of commands that ended before their start. */
  function Stale(s: State): int {
    Starts(s.queue) - if s.core.current.Some? && s.begun == 0 then 1 else 0
  }

  predicate StartsNow(s: State, h: Happening) {
    h.Next? && s.queue != [] && s.queue[0] == Start
  }

  /** The running command is started a second time. */
  predicate Restarts(s: State, h: Happening) {
    StartsNow(s, h) && s.core.current.Some? && s.begun > 0
  }

  /** A command event finds no command. */
  predicate Misses(s: State, h: Happening) {
    StartsNow(s, h) && s.core.current.None?
  }

  /** A command ends while its command event is still in the queue. */
  predicate EndsEarly(s: State, h: Happening, s': State) {
    s.core.current.Some? && s.begun == 0 && s'.core.current.None? && !StartsNow(s, h)
  }

  /** What all happenings but an accepted command do: they start the running command or not, try to connect for it, or end it. */
  predicate Follows(s: State, s': State, starts: bool) {
    && s'.begun == s.begun + (if starts && s.core.current.Some? then 1 else 0)
    && (s'.core.current.Some? ==> s'.core.current == s.core.current)
    && (s'.attempts == s.attempts || (Connecting(s) && s.core.current.value.supported))
  }

  lemma ReportFollows(core: Core, reply: Reply, count: int)
    ensures Report(core, reply, count).current.Some? ==> Report(core, reply, count).current == core.current
  {
  }

  lemma EndedFollows(s: State, o: Outcome, count: int)
    ensures var s' := Ended(s, o, count);
            s'.queue == s.queue && Follows(s, s', false)
  {
    if o.report.Some? {
      ReportFollows(s.core, o.report.value, count);
    }
    hide Report;
  }

  lemma DroppedFollows(s: State, count: int)
    ensures var s' := Dropped(s, count);
            s'.queue == s.queue && Follows(s, s', false)
  {
    hide Resetting, Report;
    if s.stack.Some? {
      var o := Resetting(s.stack.value, s.script, CLOSED);
      var o' := Resetting(o.stack, o.script, CLOSED);
      EndedFollows(s, o, count);
      EndedFollows(Told(s, o, count), o', count);
    }
  }

  lemma ProceedingFollows(s: State, reply: Reply, count: int)
    ensures var s' := Proceeding(s, reply, count);
            s'.queue == s.queue && Follows(s, s', false)
  {
    hide Sending, Report;
    if reply == CONTINUE && s.stack.Some? {
      EndedFollows(s, Sending(s.stack.value, s.script), count);
    }
    ReportFollows(s.core, INTERNALERROR, count);
    ReportFollows(s.core, reply, count);
  }

  lemma CommandedFollows(s: State, delayed: bool, beginning: Beginning, count: int)
    ensures var s' := Commanded(s, delayed, beginning, count);
            s'.queue == s.queue && Follows(s, s', true)
  {
    hide Resetting, Report, Proceeding, Dropped;
    if s.core.current.Some? {
      var s0 := s.(begun := s.begun + 1);
      var (s', reply) := Begun(s0, delayed, beginning, count);
      if s.stack.Some? {
        var o := Resetting(s.stack.value, s.script, CLOSED);
        EndedFollows(s0, o, count);
        DroppedFollows(Ended(s0, o, count), count);
      }
      ReportFollows(s.core, INTERNALERROR, count);
      ProceedingFollows(s', if s.core.current.value.Disconnect? && Disconnected in reply then OK else reply, count);
    }
  }

  lemma RetriedFollows(s: State, delayed: bool, count: int)
    ensures var s' := Retried(s, delayed, count);
            s'.queue == s.queue && Follows(s, s', false)
  {
    if s.core.retryTimer && Connecting(s) {
      hide Proceeding, Report, Dropped;
      var dropped := Dropped(s, count);
      DroppedFollows(s, count);
      var due := dropped.(core := dropped.core.(retryTimer := false));
      ReportFollows(due.core, INTERNALERROR, count);
      var (s', reply) := Continued(due, delayed, count);
      ProceedingFollows(s', reply, count);
    }
  }

  lemma CancelledFollows(s: State, count: int)
    ensures var s' := Cancelled(s, count);
            s'.queue == s.queue && Follows(s, s', false)
  {
    hide Resetting, Dropped, Report;
    DroppedFollows(s, count);
    ReportFollows(s.core, CANCELED, count);
    if s.stack.Some? {
      EndedFollows(s, Resetting(s.stack.value, s.script, CLOSED + CANCELED), count);
      EndedFollows(s, Resetting(s.stack.value, s.script, CANCELED), count);
    }
  }

  lemma SignalledFollows(s: State, event: SocketEvent, count: int)
    ensures var s' := Signalled(s, event, count);
            s'.queue == s.queue && Follows(s, s', false)
  {
    hide Resetting, Sending, Report;
    if s.stack.Some? {
      match event
      case Reset(reply) => EndedFollows(s, Resetting(s.stack.value, s.script, reply), count);
      case Close(reply) => EndedFollows(s, Resetting(s.stack.value, s.script, CLOSED + reply), count);
      case SendNext(pushed) => EndedFollows(s, Sending(s.stack.value + pushed, s.script), count);
    }
  }

  lemma StepQueue(s: State, h: Happening, count: int)
    ensures var s' := After(s, h, count);
            var accepted := h.Submit? && ReplyOf(s, h) == WOULDBLOCK;
            && s'.queue == (if h.Next? && s.queue != [] then s.queue[1..]
                            else if accepted then s.queue + [Start]
                            else if h.AskCancel? && s.core.current.Some? then s.queue + [Cancel]
                            else s.queue)
            && (accepted ==> s.core.current.None? && s'.core.current.Some? && s'.begun == 0)
            && (!accepted ==> Follows(s, s', StartsNow(s, h)))
  {
    hide Commanded, Cancelled, Retried, Signalled;
    match h
    case Submit(_, _) =>
    case AskCancel =>
    case Next(delayed, beginning) =>
      if s.queue != [] {
        CommandedFollows(s.(queue := s.queue[1..]), delayed, beginning, count);
        CancelledFollows(s.(queue := s.queue[1..]), count);
      }
    case TimerEvent(delayed) => RetriedFollows(s, delayed, count);
    case FromSocket(event) => SignalledFollows(s, event, count);
  }

  lemma StepStale(s: State, h: Happening, count: int)
    ensures var s' := After(s, h, count);
            Stale(s') + (if Restarts(s, h) then 1 else 0) + (if Misses(s, h) then 1 else 0)
            == Stale(s) + (if EndsEarly(s, h, s') then 1 else 0)
  {
    StepQueue(s, h, count);
    StartsPush(s.queue, Start);
    StartsPush(s.queue, Cancel);
    hide After, ReplyOf;
  }

  function CountRestarts(states: seq<State>, happenings: seq<Happening>): nat
    requires |states| == |happenings| + 1
  {
    if happenings == [] then 0
    else
      var n := |happenings| - 1;
      CountRestarts(states[..n + 1], happenings[..n]) + if Restarts(states[n], happenings[n]) then 1 else 0
  }

  function CountMisses(states: seq<State>, happenings: seq<Happening>): nat
    requires |states| == |happenings| + 1
  {
    if happenings == [] then 0
    else
      var n := |happenings| - 1;
      CountMisses(states[..n + 1], happenings[..n]) + if Misses(states[n], happenings[n]) then 1 else 0
  }

  function CountEarlyEnds(states: seq<State>, happenings: seq<Happening>): nat
    requires |states| == |happenings| + 1
  {
    if happenings == [] then 0
    else
      var n := |happenings| - 1;
      CountEarlyEnds(states[..n + 1], happenings[..n]) + if EndsEarly(states[n], happenings[n], states[n + 1]) then 1 else 0
  }

  /**
   * The exact account of second starts: every command that ended while its
   * command event was queued leaves an event behind, and each such event starts
   * another command a second time, or finds none, or is still in the queue.
   */
  lemma {:induction false} RestartsExactly(states: seq<State>, happenings: seq<Happening>, replies: seq<Reply>, count: int)
    requires IsRun(states, happenings, replies, count)
    ensures CountRestarts(states, happenings) + CountMisses(states, happenings) + Stale(states[|happenings|])
            == CountEarlyEnds(states, happenings)
    decreases |happenings|
  {
    if happenings != [] {
      var n := |happenings| - 1;
      hide After, Stale, Restarts, Misses, EndsEarly;
      assert IsRun(states[..n + 1], happenings[..n], replies[..n], count);
      RestartsExactly(states[..n + 1], happenings[..n], replies[..n], count);
      StepStale(states[n], happenings[n], count);
    }
  }

  /** Some command was started twice exactly if more commands ended early than events of such found no command or are queued. */
  lemma StartedTwice(states: seq<State>, happenings: seq<Happening>, replies: seq<Reply>, count: int)
    requires IsRun(states, happenings, replies, count)
    ensures (exists i | 0 <= i < |happenings| :: Restarts(states[i], happenings[i])) <==>
            CountEarlyEnds(states, happenings) > CountMisses(states, happenings) + Stale(states[|happenings|])
  {
    hide Stale, After, ReplyOf, CountEarlyEnds, CountMisses, Restarts;
    RestartsExactly(states, happenings, replies, count);
    CountPositive(states, happenings);
  }

  lemma {:induction false} CountPositive(states: seq<State>, happenings: seq<Happening>)
    requires |states| == |happenings| + 1
    ensures CountRestarts(states, happenings) > 0 <==> exists i | 0 <= i < |happenings| :: Restarts(states[i], happenings[i])
  {
    if happenings != [] {
      hide Restarts;
      var n := |happenings| - 1;
      CountPositive(states[..n + 1], happenings[..n]);
      forall i | 0 <= i < n ensures states[..n + 1][i] == states[i] && happenings[..n][i] == happenings[i] {}
      if i :| 0 <= i < |happenings| && Restarts(states[i], happenings[i]) {
        assert i < n ==> Restarts(states[..n + 1][i], happenings[..n][i]);
      }
      if i :| 0 <= i < n && Restarts(states[..n + 1][i], happenings[..n][i]) {
        assert Restarts(states[i], happenings[i]);
      }
    }
  }

  /** If no command ends before its start, no command is started twice, and all keep to the attempts allowed. */
  lemma NoEarlyEnds(states: seq<State>, happenings: seq<Happening>, replies: seq<Reply>, count: int)
    requires IsRun(states, happenings, replies, count) && CountEarlyEnds(states, happenings) == 0
    ensures forall i | 0 <= i < |happenings| :: !Restarts(states[i], happenings[i])
    ensures forall k | 0 <= k < |states| :: states[k].attempts <= Allowed(states[k], count)
  {
    StartedTwice(states, happenings, replies, count);
    RunInv(states, happenings, replies, count, |happenings|);
    StaleNatural(states[|happenings|]);
    hide After, Stale, CountEarlyEnds, CountMisses, Moderate;
    forall k | 0 <= k < |states| ensures states[k].attempts <= Allowed(states[k], count) {
      forall i | 0 <= i < k ensures !StepOverlaps(states[i], happenings[i]) {
        assert !Restarts(states[i], happenings[i]);
      }
      AttemptsBound(states, happenings, replies, count, k);
    }
  }

  lemma {:induction false} StartIn(queue: seq<Item>)
    requires Start in queue
    ensures Starts(queue) >= 1
  {
    if queue[0] != Start {
      assert Start in queue[1..];
      StartIn(queue[1..]);
    }
  }

  lemma StaleNatural(s: State)
    requires Inv(s)
    ensures Stale(s) >= 0
  {
    if s.core.current.Some? && s.begun == 0 {
      StartIn(s.queue);
    }
  }

  // ----- What an overlap leads to

  /** Nothing but the timer and the control socket. */
  predicate OnItsOwn(happenings: seq<Happening>) {
    forall i | 0 <= i < |happenings| :: happenings[i].TimerEvent? || happenings[i].FromSocket?
  }

  function Later(s: State, happenings: seq<Happening>, count: int): State
    decreases |happenings|
  {
    if happenings == [] then s else Later(After(s, happenings[0], count), happenings[1..], count)
  }

  lemma {:induction false} LaterModerate(s: State, happenings: seq<Happening>, count: int)
    requires Inv(s) && Moderate(s, count) && OnItsOwn(happenings)
    ensures Moderate(Later(s, happenings, count), count)
    decreases |happenings|
  {
    if happenings != [] {
      var s' := After(s, happenings[0], count);
      StepInv(s, happenings[0], count);
      StepModerate(s, happenings[0], count);
      hide After, Inv, Moderate;
      LaterModerate(s', happenings[1..], count);
    }
  }

  /** A retry that is due is made. */
  lemma DueRetry(s: State, count: int)
    requires Connecting(s) && s.core.current.value.supported && s.core.retryTimer && s.script == []
    ensures After(s, TimerEvent(false), count)
            == s.(core := s.core.(retryTimer := false), stack := Some([Operation(ForConnecting, false, false)]), attempts := s.attempts + 1)
  {
    hide Resetting;
  }

  /** And it fails. */
  lemma FailedRetry(s: State, count: int) returns (failed: State)
    requires Connecting(s) && s.core.current.value.supported && s.core.retryTimer && s.script == []
    ensures failed == After(After(s, TimerEvent(false), count), FromSocket(Close(OK)), count)
    ensures failed.attempts == s.attempts + 1 && failed.accepted == s.accepted && failed.script == []
    ensures failed.core == Report(s.core.(retryTimer := false), CLOSED, count)
  {
    DueRetry(s, count);
    var tried := s.(core := s.core.(retryTimer := false), stack := Some([Operation(ForConnecting, false, false)]), attempts := s.attempts + 1);
    failed := Signalled(tried, Close(OK), count);
    assert After(tried, FromSocket(Close(OK)), count) == failed;
    assert CLOSED + OK == CLOSED;
    hide After, Report;
  }

  /** With a retry due and no fewer attempts made than failures counted, failures lead to that many attempts more than allowed. */
  lemma {:induction false} RetriesToCome(s: State, count: int) returns (happenings: seq<Happening>)
    requires Booked(s.core, s.accepted) && Connecting(s) && s.core.current.value.supported && s.core.retryTimer && s.script == []
    requires s.core.retryCount < Tries(s.core.current.value, count)
    ensures OnItsOwn(happenings) && Later(s, happenings, count).accepted == s.accepted
    ensures Later(s, happenings, count).attempts == s.attempts + Tries(s.core.current.value, count) - s.core.retryCount
    decreases Tries(s.core.current.value, count) - s.core.retryCount
  {
    var failed := FailedRetry(s, count);
    var more := [];
    ReportBooked(s.core.(retryTimer := false), CLOSED, count, s.accepted);
    if failed.core.current.Some? {
      more := RetriesToCome(failed, count);
    }
    happenings := [TimerEvent(false), FromSocket(Close(OK))] + more;
    hide After, Booked;
    assert happenings[1..] == [FromSocket(Close(OK))] + more && happenings[1..][1..] == more;
    assert Later(s, happenings, count) == Later(After(s, TimerEvent(false), count), happenings[1..], count);
    assert Later(s, happenings, count) == Later(failed, more, count);
  }

  /** If operations answer badly, the timer and the control socket alone lead to more attempts than allowed. */
  ghost predicate Exceeding(s: State, count: int) {
    exists script, happenings ::
      && OnItsOwn(happenings)
      && var later := Later(s.(script := script), happenings, count);
         later.attempts > Allowed(later, count)
  }

  /** Attempts are made only where the protocol is supported. */
  predicate Apt(s: State) {
    Connecting(s) && s.attempts > 0 ==> s.core.current.value.supported
  }

  lemma {:induction false} RunApt(states: seq<State>, happenings: seq<Happening>, replies: seq<Reply>, count: int, n: nat)
    requires IsRun(states, happenings, replies, count) && n <= |happenings|
    ensures Apt(states[n])
  {
    if n > 0 {
      RunApt(states, happenings, replies, count, n - 1);
      StepQueue(states[n - 1], happenings[n - 1], count);
      hide After, ReplyOf;
      if happenings[n - 1].Submit? && replies[n - 1] == WOULDBLOCK {
        AcceptedFresh(states[n - 1], happenings[n - 1], count);
      }
    }
  }

  lemma AcceptedFresh(s: State, h: Happening, count: int)
    requires h.Submit? && ReplyOf(s, h) == WOULDBLOCK
    ensures After(s, h, count).attempts == 0
  {
  }

  /** What a step that overlaps leaves: a retry due, no failures counted, and attempts made. */
  lemma AfterOverlap(s: State, h: Happening, count: int)
    requires Inv(s) && Apt(s) && StepOverlaps(s, h)
    ensures var s' := After(s, h, count);
            && s'.core == s.core.(retryCount := 0) && s.core.retryTimer && s'.accepted == s.accepted
            && s'.attempts > 0 && s.core.current.value.supported
  {
    hide Sending, Report;
    var s0 := s.(queue := s.queue[1..], begun := s.begun + 1);
    var (s', reply) := Begun(s0, h.delayed, h.beginning, count);
    ProceedingDue(s', reply, count);
  }

  lemma OverlapExceeds(s: State, h: Happening, count: int)
    requires Inv(s) && Apt(s) && Sensible(h) && StepOverlaps(s, h)
    ensures Exceeding(After(s, h, count), count)
  {
    var s' := After(s, h, count);
    AfterOverlap(s, h, count);
    StepInv(s, h, count);
    hide After, StepOverlaps;
    var worst := s'.(script := []);
    var happenings := RetriesToCome(worst, count);
    var later := Later(worst, happenings, count);
    hide Later, OnItsOwn;
    assert later.accepted == s'.accepted && later.attempts > Allowed(later, count);
  }

  lemma OthersDoNot(s: State, count: int)
    requires Inv(s) && Moderate(s, count)
    ensures !Exceeding(s, count)
  {
    forall script, happenings | OnItsOwn(happenings)
      ensures var later := Later(s.(script := script), happenings, count);
              later.attempts <= Allowed(later, count)
    {
      LaterModerate(s.(script := script), happenings, count);
    }
  }

  /**
   * The first command event in a run that overlaps with an attempt under way is
   * the first happening after which, with no further command event, the attempts
   * may come to exceed what is allowed.
   */
  lemma ExceedsExactly(states: seq<State>, happenings: seq<Happening>, replies: seq<Reply>, count: int, n: nat)
    requires IsRun(states, happenings, replies, count) && n < |happenings|
    requires forall i | 0 <= i < n :: !StepOverlaps(states[i], happenings[i])
    ensures StepOverlaps(states[n], happenings[n]) <==> Exceeding(states[n + 1], count)
  {
    hide Inv, Moderate, Exceeding, After, Apt, StepOverlaps;
    RunInv(states, happenings, replies, count, n);
    RunApt(states, happenings, replies, count, n);
    AttemptsBound(states, happenings, replies, count, n);
    if StepOverlaps(states[n], happenings[n]) {
      OverlapExceeds(states[n], happenings[n], count);
    } else {
      RunInv(states, happenings, replies, count, n + 1);
      StepModerate(states[n], happenings[n], count);
      OthersDoNot(states[n + 1], count);
    }
  }

  // ----- A command started twice makes one attempt too many

  /** A run goes on with anything that may happen. */
  lemma Extended(states: seq<State>, happenings: seq<Happening>, replies: seq<Reply>, count: int, h: Happening)
    requires IsRun(states, happenings, replies, count) && Sensible(h)
    ensures var s := states[|happenings|];
            IsRun(states + [After(s, h, count)], happenings + [h], replies + [ReplyOf(s, h)], count)
  {
    hide After, ReplyOf, Sensible;
    var s := states[|happenings|];
    var states', happenings', replies' := states + [After(s, h, count)], happenings + [h], replies + [ReplyOf(s, h)];
    forall i | 0 <= i < |happenings'|
      ensures && Sensible(happenings'[i]) && replies'[i] == ReplyOf(states'[i], happenings'[i])
              && states'[i + 1] == After(states'[i], happenings'[i], count)
    {
      if i < |happenings| {
        assert happenings'[i] == happenings[i] && states'[i] == states[i] && states'[i + 1] == states[i + 1];
      }
    }
  }

  /** One more happening. */
  lemma Then(states: seq<State>, happenings: seq<Happening>, replies: seq<Reply>, s: State, h: Happening)
    returns (states': seq<State>, happenings': seq<Happening>, replies': seq<Reply>)
    requires IsRun(states, happenings, replies, 1) && s == states[|happenings|] && Sensible(h)
    ensures IsRun(states', happenings', replies', 1) && |happenings'| == |happenings| + 1 && |states'| == |states| + 1
    ensures states <= states' && happenings <= happenings' && happenings'[|happenings|] == h && states'[|states|] == After(s, h, 1)
  {
    Extended(states, happenings, replies, 1, h);
    states', happenings', replies' := states + [After(s, h, 1)], happenings + [h], replies + [ReplyOf(s, h)];
  }

  /** The first part: a command ends before its start, and its command event is left in the queue. */
  lemma StaleLeft(beginning: Beginning) returns (states: seq<State>, happenings: seq<Happening>, replies: seq<Reply>)
    requires beginning == Refused(OK)
    ensures IsRun(states, happenings, replies, 1) && |happenings| == 5
    ensures EndsEarly(states[4], happenings[4], states[5])
    ensures states[5].core.current.None? && !states[5].core.retryTimer && states[5].stack.None? && states[5].script == []
    ensures states[5].queue == [Start] && states[5].accepted == [Disconnect, Disconnect]
  {
    var s0 := State(Core(None, false, 0, []), None, [], [], [], 0, 0);
    states, happenings, replies := [s0], [], [];
    assert IsRun(states, happenings, replies, 1);
    hide IsRun, After, ReplyOf, EndsEarly;
    StaleSubmit(s0, Disconnect);
    states, happenings, replies := Then(states, happenings, replies, s0, Submit(Disconnect, true));
    var s1 := states[1];
    assert s1.queue == [Start] && s1.accepted == [Disconnect];
    StaleCancelAsked(s1);
    states, happenings, replies := Then(states, happenings, replies, s1, AskCancel);
    var s2 := states[2];
    assert s2.queue == [Start, Cancel];
    StaleEnd(s2, beginning);
    states, happenings, replies := Then(states, happenings, replies, s2, Next(false, beginning));
    var s3 := states[3];
    assert s3.queue == [Cancel];
    StaleSubmit(s3, Disconnect);
    states, happenings, replies := Then(states, happenings, replies, s3, Submit(Disconnect, true));
    var s4 := states[4];
    assert s4.queue == [Cancel, Start] && s4.accepted == [Disconnect, Disconnect];
    StaleCancel(s4, beginning);
    states, happenings, replies := Then(states, happenings, replies, s4, Next(false, beginning));
    StaleMark(s4, states[5], beginning);
  }

  /**
   * A cancel that was asked for while one command was running is handled when
   * the next has just been accepted, and ends it before its start. Its command
   * event stays behind, starts the command after it, and that command's own
   * event starts it again: with one attempt allowed, two are made.
   */
  lemma StaleStart(connect: Command, beginning: Beginning)
    returns (states: seq<State>, happenings: seq<Happening>, replies: seq<Reply>)
    requires connect == Connect(false, true) && beginning == Refused(OK)
    ensures IsRun(states, happenings, replies, 1)
    ensures |happenings| == 9 && states[9].accepted == [Disconnect, Disconnect, connect]
    ensures EndsEarly(states[4], happenings[4], states[5]) && Restarts(states[7], happenings[7])
    ensures Allowed(states[9], 1) == 1 && states[9].attempts == 2
  {
    states, happenings, replies := StaleLeft(beginning);
    hide IsRun, After, ReplyOf, EndsEarly, Restarts;
    var s5 := states[5];
    StaleSubmit(s5, connect);
    states, happenings, replies := Then(states, happenings, replies, s5, Submit(connect, true));
    var s6 := states[6];
    assert s6.queue == [Start, Start] && s6.accepted == [Disconnect, Disconnect, connect];
    StaleDelay(s6, beginning);
    states, happenings, replies := Then(states, happenings, replies, s6, Next(true, beginning));
    var s7 := states[7];
    assert s7.queue == [Start];
    StaleAgain(s7, beginning);
    StaleRestart(s7, beginning);
    states, happenings, replies := Then(states, happenings, replies, s7, Next(false, beginning));
    var s8 := states[8];
    StaleRetry(s8);
    states, happenings, replies := Then(states, happenings, replies, s8, TimerEvent(false));
  }

  lemma StaleSubmit(s: State, command: Command)
    requires s.core.current.None? && s.stack.None? && !command.Other?
    ensures var h := Submit(command, true);
            && ReplyOf(s, h) == WOULDBLOCK
            && After(s, h, 1) == s.(core := s.core.(current := Some(command)), queue := s.queue + [Start],
                                    accepted := s.accepted + [command], attempts := 0, begun := 0)
  {
  }

  lemma StaleCancelAsked(s: State)
    requires s.core.current.Some?
    ensures After(s, AskCancel, 1) == s.(queue := s.queue + [Cancel]) && ReplyOf(s, AskCancel) == WOULDBLOCK
  {
  }

  lemma StaleEnd(s: State, beginning: Beginning)
    requires s.core.current == Some(Disconnect) && !s.core.retryTimer && s.stack.None? && s.queue != [] && s.queue[0] == Start
    ensures var h := Next(false, beginning);
            && ReplyOf(s, h) == OK
            && After(s, h, 1) == s.(core := s.core.(current := None, notifications := s.core.notifications + [Notification(OK, Disconnect)]),
                                    queue := s.queue[1..], begun := s.begun + 1)
  {
  }

  lemma StaleCancel(s: State, beginning: Beginning)
    requires s.core.current == Some(Disconnect) && !s.core.retryTimer && s.stack.None? && s.queue != [] && s.queue[0] == Cancel
    ensures var h := Next(false, beginning);
            && ReplyOf(s, h) == OK
            && After(s, h, 1) == s.(core := s.core.(current := None, notifications := s.core.notifications + [Notification(CANCELED, Disconnect)]),
                                    queue := s.queue[1..])
  {
  }

  lemma StaleDelay(s: State, beginning: Beginning)
    requires s.core.current == Some(Connect(false, true)) && s.stack.None? && s.queue != [] && s.queue[0] == Start
    ensures var h := Next(true, beginning);
            && ReplyOf(s, h) == OK
            && After(s, h, 1) == s.(core := s.core.(retryTimer := true, retryCount := 0), queue := s.queue[1..], begun := s.begun + 1)
  {
  }

  lemma StaleAgain(s: State, beginning: Beginning)
    requires s.core.current == Some(Connect(false, true)) && s.core.retryTimer && s.stack.None? && s.script == []
    requires s.queue != [] && s.queue[0] == Start
    ensures var h := Next(false, beginning);
            && ReplyOf(s, h) == OK
            && After(s, h, 1) == s.(core := s.core.(retryCount := 0), queue := s.queue[1..], begun := s.begun + 1,
                                    stack := Some([Operation(ForConnecting, false, false)]), attempts := s.attempts + 1)
  {
    hide Sending, Report;
  }

  lemma StaleRetry(s: State)
    requires s.core.current == Some(Connect(false, true)) && s.core.retryTimer && s.script == []
    requires s.stack == Some([Operation(ForConnecting, false, false)])
    ensures var h := TimerEvent(false);
            && ReplyOf(s, h) == OK
            && After(s, h, 1) == s.(core := s.core.(retryTimer := false), attempts := s.attempts + 1)
  {
    hide Sending, Resetting;
  }

  lemma StaleMark(s: State, s': State, beginning: Beginning)
    requires s.core.current.Some? && s.begun == 0 && s'.core.current.None? && s.queue == [Cancel, Start]
    ensures EndsEarly(s, Next(false, beginning), s')
  {
  }

  lemma StaleRestart(s: State, beginning: Beginning)
    requires s.core.current.Some? && s.begun == 1 && s.queue == [Start]
    ensures Restarts(s, Next(false, beginning))
  {
  }
}
