/**
 * What notifications say: the reply in each is that of the answer, the event or
 * the cancel that ended the command, and only errors that may pass lead to
 * another attempt instead.
 */
module EngineNotices {
  import opened Options
  import opened EngineReplies
  import opened EngineSteps
  import opened EngineRuns

  // ----- What the engine is told

  /** What an answer of an operation may be told as: itself, with the error that goes with a lost connection, or as an internal error. */
  predicate Echo(answer: Reply, reply: Reply) {
    || reply == answer
    || (Disconnected in answer && reply == {Error, Disconnected} + answer)
    || (Error !in answer && Disconnected !in answer && answer !in {{}, {WouldBlock}, {Continue}} && reply == {Internal, Error})
  }

  /**
   * The engine is told the last answer that was taken from the script, or what
   * there was to tell if none was taken. If it is told nothing, that is because
   * the last answer was to wait, the operation on top may not send, or nothing
   * more is answered.
   */
  predicate TellsLast(script: seq<Answer>, o: Outcome, first: Option<Reply>) {
    var n := |script| - |o.script|;
    && n >= 0 && o.script == script[n..]
    && (o.report.Some? ==>
          if n == 0 then first == o.report else Echo(script[n - 1].reply, o.report.value))
    && (o.report.None? ==>
          || o.script == [] || (o.stack != [] && o.stack[|o.stack| - 1].waiting)
          || (n > 0 && script[n - 1].reply == {WouldBlock}))
  }

  /** One more answer before all those. */
  lemma TellsBehind(script: seq<Answer>, o: Outcome, first: Option<Reply>, next: Option<Reply>)
    requires script != [] && TellsLast(script[1..], o, next) && (next.Some? ==> Echo(script[0].reply, next.value))
    ensures TellsLast(script, o, first)
  {
    hide Echo;
    var n := |script[1..]| - |o.script|;
    assert script[1..][n..] == script[n + 1..];
  }

  lemma TellsNothing(script: seq<Answer>, o: Outcome, first: Option<Reply>)
    requires o.script == script && (o.report.None? || o.report == first)
    requires o.report.None? ==> script == [] || (o.stack != [] && o.stack[|o.stack| - 1].waiting)
    ensures TellsLast(script, o, first)
  {
    assert script == script[0..];
  }

  lemma TellsToWait(script: seq<Answer>, o: Outcome, first: Option<Reply>)
    requires script != [] && script[0].reply == WOULDBLOCK && o.script == script[1..] && o.report.None?
    ensures TellsLast(script, o, first)
  {
  }

  lemma {:induction false} ResettingTells(stack: seq<Operation>, script: seq<Answer>, reply: Reply)
    ensures TellsLast(script, Resetting(stack, script, reply), Some(reply))
    decreases |script|, |stack|, 0
  {
    hide *;
    ResettingCases(stack, script, reply);
    var o := Resetting(stack, script, reply);
    if stack == [] {
      TellsNothing(script, o, Some(reply));
    } else {
      var n := |stack| - 1;
      var code := if script == [] then reply else script[0].reply;
      var script' := if script == [] then [] else script[1..];
      if n == 0 {
        TellsNothing(script', o, Some(code));
        Taken(script, o, reply, code, Some(code));
      } else if !Mild(code) {
        ResettingTells(stack[..n], script', code);
        Taken(script, o, reply, code, Some(code));
      } else if stack[n].topLevel {
        SendingTells(stack[..n], script');
        Taken(script, o, reply, code, None);
      } else {
        ParsingTells(stack[..n], script');
        Taken(script, o, reply, code, None);
      }
    }
  }

  lemma ResettingCases(stack: seq<Operation>, script: seq<Answer>, reply: Reply)
    ensures var (o, n) := (Resetting(stack, script, reply), |stack| - 1);
            var code := if script == [] then reply else script[0].reply;
            var script' := if script == [] then [] else script[1..];
            && (n < 0 ==> o == Outcome([], script, Some(reply)))
            && (n == 0 ==> o == Outcome([], script', Some(code)))
            && (n > 0 ==> o == if !Mild(code) then Resetting(stack[..n], script', code)
                               else if stack[n].topLevel then Sending(stack[..n], script') else Parsing(stack[..n], script'))
  {
    hide Mild, Sending, Parsing;
  }

  lemma Taken(script: seq<Answer>, o: Outcome, reply: Reply, code: Reply, next: Option<Reply>)
    requires code == (if script == [] then reply else script[0].reply) && (next == Some(code) || next == None)
    requires TellsLast(if script == [] then [] else script[1..], o, next)
    ensures TellsLast(script, o, Some(reply))
  {
    if script != [] {
      TellsBehind(script, o, Some(reply), next);
    }
  }

  lemma {:induction false} SendingTells(stack: seq<Operation>, script: seq<Answer>)
    ensures TellsLast(script, Sending(stack, script), if stack == [] then Some(ERROR) else None)
    decreases |script|, |stack|, 1
  {
    var o := Sending(stack, script);
    hide TellsLast, Resetting, Parsing;
    if stack == [] {
      ResettingTells(stack, script, ERROR);
    } else if stack[|stack| - 1].waiting || script == [] {
      TellsNothing(script, o, None);
    } else {
      var stack', script', reply := stack + script[0].pushed, script[1..], script[0].reply;
      if reply == CONTINUE {
        SendingTells(stack', script');
        TellsBehind(script, o, None, None);
      } else if reply == WOULDBLOCK {
        TellsToWait(script, o, None);
      } else {
        var told := if reply == OK then OK else if Disconnected in reply then CLOSED + reply
                    else if Error in reply then reply else INTERNALERROR;
        ResettingTells(stack', script', told);
        TellsBehind(script, o, None, Some(told));
      }
    }
  }

  lemma {:induction false} ParsingTells(stack: seq<Operation>, script: seq<Answer>)
    ensures TellsLast(script, Parsing(stack, script), if stack == [] then Some(ERROR) else None)
    decreases |script|, |stack|, 1
  {
    var o := Parsing(stack, script);
    hide TellsLast, Resetting, Sending;
    if stack == [] {
      ResettingTells(stack, script, ERROR);
    } else if script == [] {
      TellsNothing(script, o, None);
    } else {
      var stack', script', reply := stack + script[0].pushed, script[1..], script[0].reply;
      if reply == WOULDBLOCK {
        TellsToWait(script, o, None);
      } else if reply == CONTINUE {
        SendingTells(stack', script');
        TellsBehind(script, o, None, None);
      } else {
        ResettingTells(stack', script', reply);
        TellsBehind(script, o, None, Some(reply));
      }
    }
  }

  // ----- The stack of operations

  /** What an operation pushes as it waits is on top, and nothing else is asked. */
  lemma PushedOnTop(stack: seq<Operation>, script: seq<Answer>)
    requires stack != [] && script != [] && script[0].reply == WOULDBLOCK
    ensures Parsing(stack, script) == Outcome(stack + script[0].pushed, script[1..], None)
    ensures !stack[|stack| - 1].waiting ==> Sending(stack, script) == Outcome(stack + script[0].pushed, script[1..], None)
  {
  }

  /** An error that only one operation is to see stops at the one below it; any other ends them all. */
  lemma {:induction false} UnwindsExactly(stack: seq<Operation>, reply: Reply)
    requires |stack| >= 2
    ensures Resetting(stack, [], reply) == if reply in {{}, {Error}, {Critical, Error}, {NotFound, Error}}
                                           then Outcome(stack[..|stack| - 1], [], None) else Outcome([], [], Some(reply))
  {
    if !Mild(reply) && |stack| > 2 {
      UnwindsExactly(stack[..|stack| - 1], reply);
    }
  }

  /** The end of a subcommand is answered by the operation below, even if that may not send; of a top-level one it is not told. */
  lemma SubcommandTold(stack: seq<Operation>, script: seq<Answer>, reply: Reply)
    requires |stack| >= 2 && |script| >= 2 && script[0].reply in {{}, {Error}, {Critical, Error}, {NotFound, Error}}
    ensures var (o, n) := (Resetting(stack, script, reply), |stack| - 1);
            && (!stack[n].topLevel ==> |o.script| <= |script| - 2)
            && (stack[n].topLevel && stack[n - 1].waiting ==> o == Outcome(stack[..n], script[1..], None))
  {
    var n := |stack| - 1;
    assert Mild(script[0].reply);
    if !stack[n].topLevel {
      assert Resetting(stack, script, reply) == Parsing(stack[..n], script[1..]);
      hide Resetting, Sending;
    }
  }

  // ----- Notifications

  /** A reply that an answer from the script was told as. */
  ghost predicate Answered(script: seq<Answer>, reply: Reply) {
    exists m | 0 <= m < |script| :: Echo(script[m].reply, reply)
  }

  predicate Rest(script: seq<Answer>, rest: seq<Answer>) {
    |rest| <= |script| && rest == script[|script| - |rest|..]
  }

  lemma RestTrans(a: seq<Answer>, b: seq<Answer>, c: seq<Answer>)
    requires Rest(a, b) && Rest(b, c)
    ensures Rest(a, c)
  {
  }

  lemma AnsweredBefore(script: seq<Answer>, rest: seq<Answer>, reply: Reply)
    requires Rest(script, rest) && Answered(rest, reply)
    ensures Answered(script, reply)
  {
    hide Echo;
    var m :| 0 <= m < |rest| && Echo(rest[m].reply, reply);
    assert rest[m] == script[|script| - |rest| + m];
  }

  /** The running command goes on, or it ends with one notification whose reply is one of those given or an answer. */
  ghost predicate Noted(core: Core, core': Core, script: seq<Answer>, others: set<Reply>) {
    || (core'.notifications == core.notifications && core'.current == core.current)
    || (core.current.Some? && core'.current.None?
        && exists reply ::
             && (reply in others || Answered(script, reply))
             && core'.notifications == core.notifications + [Notification(reply, core.current.value)])
  }

  lemma ReportNoted(core: Core, reply: Reply, count: int, script: seq<Answer>, others: set<Reply>)
    requires reply in others || Answered(script, reply)
    ensures Noted(core, Report(core, reply, count), script, others)
  {
    hide Answered;
  }

  lemma NotedTwice(a: Core, b: Core, c: Core, script: seq<Answer>, rest: seq<Answer>, first: set<Reply>, second: set<Reply>)
    requires Noted(a, b, script, first) && Noted(b, c, rest, second) && Rest(script, rest)
    ensures Noted(a, c, script, first + second)
  {
    hide Answered, Rest;
    if b.notifications == a.notifications && b.current == a.current {
      if !(c.notifications == b.notifications && c.current == b.current) {
        var reply :| (reply in second || Answered(rest, reply)) && c.notifications == b.notifications + [Notification(reply, b.current.value)];
        if reply !in second {
          AnsweredBefore(script, rest, reply);
        }
        assert reply in first + second || Answered(script, reply);
      }
    } else {
      var reply :| (reply in first || Answered(script, reply)) && b.notifications == a.notifications + [Notification(reply, a.current.value)];
      assert reply in first + second || Answered(script, reply);
    }
  }

  lemma NotedMore(core: Core, core': Core, script: seq<Answer>, others: set<Reply>, more: set<Reply>)
    requires Noted(core, core', script, others) && others <= more
    ensures Noted(core, core', script, more)
  {
    hide Answered;
  }

  /** The outcome of operations, told to the engine. */
  lemma ToldNoted(s: State, o: Outcome, count: int, first: Option<Reply>)
    requires TellsLast(s.script, o, first)
    ensures var s' := Told(s, o, count);
            Rest(s.script, s'.script) && Noted(s.core, s'.core, s.script, if first.Some? then {first.value} else {})
  {
    hide Report, Noted;
    var others := if first.Some? then {first.value} else {};
    if o.report.Some? {
      if |o.script| < |s.script| {
        var n := |s.script| - |o.script|;
        assert Echo(s.script[n - 1].reply, o.report.value);
      }
      ReportNoted(s.core, o.report.value, count, s.script, others);
    } else {
      NothingNoted(s.core, s.script, others);
    }
  }

  lemma NothingNoted(core: Core, script: seq<Answer>, others: set<Reply>)
    ensures Noted(core, core, script, others)
  {
  }

  lemma DroppedNoted(s: State, count: int)
    ensures var s' := Dropped(s, count);
            Rest(s.script, s'.script) && Noted(s.core, s'.core, s.script, {CLOSED})
  {
    hide Resetting, Report, Noted, TellsLast, Rest;
    if s.stack.Some? {
      var o := Resetting(s.stack.value, s.script, CLOSED);
      ResettingTells(s.stack.value, s.script, CLOSED);
      ToldNoted(s, o, count, Some(CLOSED));
      var s1 := Told(s, o, count);
      var o' := Resetting(o.stack, o.script, CLOSED);
      ResettingTells(o.stack, o.script, CLOSED);
      ToldNoted(s1, o', count, Some(CLOSED));
      var s2 := Told(s1, o', count);
      NotedTwice(s.core, s1.core, s2.core, s.script, s1.script, {CLOSED}, {CLOSED});
      RestTrans(s.script, s1.script, s2.script);
      assert {CLOSED} + {CLOSED} == {CLOSED};
    } else {
      NothingNoted(s.core, s.script, {CLOSED});
      WholeRest(s.script);
    }
  }

  lemma WholeRest(script: seq<Answer>)
    ensures Rest(script, script)
  {
    assert script == script[0..];
  }

  lemma DisconnectingNoted(s: State, count: int)
    ensures var s' := Disconnecting(s, count);
            Rest(s.script, s'.script) && s'.stack.None? && Noted(s.core, s'.core, s.script, if s.stack.Some? then {CLOSED} else {})
  {
    hide Resetting, Report, Noted, TellsLast, Rest, Dropped;
    if s.stack.Some? {
      var o := Resetting(s.stack.value, s.script, CLOSED);
      ResettingTells(s.stack.value, s.script, CLOSED);
      ToldNoted(s, o, count, Some(CLOSED));
      var s1 := Ended(s, o, count);
      DroppedNoted(s1, count);
      var s2 := Dropped(s1, count);
      NotedTwice(s.core, s1.core, s2.core, s.script, s1.script, {CLOSED}, {CLOSED});
      RestTrans(s.script, s1.script, s2.script);
      assert {CLOSED} + {CLOSED} == {CLOSED};
      DroppedGone(s1, count);
    } else {
      NothingNoted(s.core, s.script, {});
      WholeRest(s.script);
    }
  }

  lemma DroppedGone(s: State, count: int)
    ensures Dropped(s, count).stack.None?
  {
    hide Resetting, Report;
  }

  lemma ProceedingNoted(s: State, reply: Reply, count: int)
    ensures var s' := Proceeding(s, reply, count);
            Noted(s.core, s'.core, s.script,
                  if reply == CONTINUE then (if s.stack.None? then {INTERNALERROR} else if s.stack.value == [] then {ERROR} else {})
                  else if reply == WOULDBLOCK then {} else {reply})
  {
    hide Sending, Report, Noted, TellsLast, Answered, Rest;
    if reply == CONTINUE && s.stack.Some? {
      SendingTells(s.stack.value, s.script);
      ToldNoted(s, Sending(s.stack.value, s.script), count, if s.stack.value == [] then Some(ERROR) else None);
    } else if reply == CONTINUE {
      ReportNoted(s.core, INTERNALERROR, count, s.script, {INTERNALERROR});
    } else if reply != WOULDBLOCK {
      ReportNoted(s.core, reply, count, s.script, {reply});
    } else {
      NothingNoted(s.core, s.script, {});
    }
  }

  // ----- What ends a command, step by step

  /** How a command may end as it starts, but for answers: it does not fit the state, or is refused. */
  function Starting(s: State, delayed: bool, beginning: Beginning): set<Reply>
    requires s.core.current.Some?
  {
    match s.core.current.value
    case Connect(_, supported) =>
      if s.stack.Some? then {{AlreadyConnected, Error}} else if delayed || supported then {} else {{Syntax, Error, Disconnected}}
    case Disconnect => if s.stack.Some? then {{}, {Error, Disconnected}} else {{}}
    case Other(_) =>
      if s.stack.None? then {{NotConnected, Error}}
      else
        match beginning
        case Refused(reply) => if reply != CONTINUE then {reply} else if s.stack.value == [] then {{Error}} else {}
        case Pushed(_) => {}
  }

  /** How a cancel ends a command, but for answers. */
  function Cancelling(s: State): set<Reply> {
    if s.core.retryTimer then {{Disconnected, Canceled, Error}}
    else if s.stack.None? then {{Canceled, Error}}
    else if s.stack.value == [] then {}
    else
      match s.stack.value[|s.stack.value| - 1].purpose
      case ForConnecting => {{Disconnected, Canceled, Error}}
      case ForCommand => {{Canceled, Error}}
      case ForNone => {}
  }

  /** The replies that may end the running command in a step, other than an answer of an operation. */
  function Causes(s: State, h: Happening): set<Reply> {
    if s.core.current.None? then {}
    else
      match h
      case Submit(_, _) => {}
      case AskCancel => {}
      case Next(delayed, beginning) =>
        if s.queue == [] then {} else if s.queue[0] == Start then Starting(s, delayed, beginning) else Cancelling(s)
      case TimerEvent(delayed) =>
        if s.core.retryTimer && !delayed && s.core.current.value.Connect? && !s.core.current.value.supported
        then {{Syntax, Error, Disconnected}} else {}
      case FromSocket(event) =>
        if s.stack.None? then {}
        else
          match event
          case Reset(reply) => {reply}
          case Close(reply) => {{Error, Disconnected} + reply}
          case SendNext(pushed) => if s.stack.value + pushed == [] then {{Error}} else {}
  }

  lemma CommandedNoted(s: State, delayed: bool, beginning: Beginning, count: int)
    requires s.core.current.Some? && (beginning.Refused? ==> beginning.reply != WOULDBLOCK)
    ensures Noted(s.core, Commanded(s, delayed, beginning, count).core, s.script, Starting(s, delayed, beginning))
  {
    hide Begun, Proceeding, Noted;
    var s0 := s.(begun := s.begun + 1);
    var (s', reply) := Begun(s0, delayed, beginning, count);
    var reply' := if s.core.current.value.Disconnect? && Disconnected in reply then OK else reply;
    assert Commanded(s, delayed, beginning, count) == Proceeding(s', reply', count);
    hide Commanded, Starting;
    match s.core.current.value
    case Connect(_, _) => ConnectStarts(s, delayed, beginning, count);
    case Disconnect => DisconnectStarts(s, delayed, beginning, count);
    case Other(_) => OtherStarts(s, delayed, beginning, count);
  }

  lemma ConnectStarts(s: State, delayed: bool, beginning: Beginning, count: int)
    requires s.core.current.Some? && s.core.current.value.Connect?
    ensures var (s', reply) := Begun(s.(begun := s.begun + 1), delayed, beginning, count);
            Noted(s.core, Proceeding(s', reply, count).core, s.script, Starting(s, delayed, beginning))
  {
    var (s', reply) := Begun(s.(begun := s.begun + 1), delayed, beginning, count);
    ProceedingNoted(s', reply, count);
    assert SYNTAXERROR + DISCONNECTED == {Syntax, Error, Disconnected};
    hide Proceeding, Noted, Disconnecting;
    ConnectNoted(s.core, s'.core, Proceeding(s', reply, count).core, s.script, Starting(s, delayed, beginning));
  }

  lemma DisconnectStarts(s: State, delayed: bool, beginning: Beginning, count: int)
    requires s.core.current.Some? && s.core.current.value.Disconnect?
    ensures var (s', reply) := Begun(s.(begun := s.begun + 1), delayed, beginning, count);
            reply == OK && Noted(s.core, Proceeding(s', reply, count).core, s.script, Starting(s, delayed, beginning))
  {
    var s0 := s.(begun := s.begun + 1);
    var (s', reply) := Begun(s0, delayed, beginning, count);
    ProceedingNoted(s', reply, count);
    assert CLOSED == {Error, Disconnected};
    hide Proceeding, Noted, Disconnecting, Rest;
    DisconnectingNoted(s0, count);
    var closing := if s.stack.Some? then {CLOSED} else {};
    NotedTwice(s.core, s'.core, Proceeding(s', reply, count).core, s.script, s'.script, closing, {OK});
    NotedMore(s.core, Proceeding(s', reply, count).core, s.script, closing + {OK}, Starting(s, delayed, beginning));
  }

  lemma OtherStarts(s: State, delayed: bool, beginning: Beginning, count: int)
    requires s.core.current.Some? && s.core.current.value.Other? && (beginning.Refused? ==> beginning.reply != WOULDBLOCK)
    ensures var (s', reply) := Begun(s.(begun := s.begun + 1), delayed, beginning, count);
            Noted(s.core, Proceeding(s', reply, count).core, s.script, Starting(s, delayed, beginning))
  {
    var (s', reply) := Begun(s.(begun := s.begun + 1), delayed, beginning, count);
    ProceedingNoted(s', reply, count);
    hide Proceeding, Noted, Disconnecting;
  }

  /** Starting to connect sets the count of failures back, which is no notification. */
  lemma ConnectNoted(core: Core, core': Core, core'': Core, script: seq<Answer>, others: set<Reply>)
    requires core'.notifications == core.notifications && core'.current == core.current && Noted(core', core'', script, others)
    ensures Noted(core, core'', script, others)
  {
  }

  lemma RetriedNoted(s: State, delayed: bool, count: int)
    requires Inv(s) && s.core.current.Some?
    ensures Noted(s.core, Retried(s, delayed, count).core, s.script, Causes(s, TimerEvent(delayed)))
  {
    if s.core.retryTimer {
      DroppedNoted(s, count);
      DroppedKeeps(s, count);
      hide Dropped, Noted, Rest, Booked;
      var dropped := Dropped(s, count);
      var due := dropped.(core := dropped.core.(retryTimer := false));
      var (s', reply) := Continued(due, delayed, count);
      ProceedingNoted(s', reply, count);
      assert SYNTAXERROR + DISCONNECTED == {Syntax, Error, Disconnected};
      hide Proceeding;
      var others := Causes(s, TimerEvent(delayed));
      ConnectNoted(dropped.core, s'.core, Proceeding(s', reply, count).core, s'.script, others);
      NothingNoted(s.core, s.script, {});
      NotedTwice(s.core, dropped.core, Proceeding(s', reply, count).core, s.script, s'.script, {}, others);
      assert {} + others == others;
    } else {
      NothingNoted(s.core, s.script, {});
    }
  }

  lemma CancelledNoted(s: State, count: int)
    requires Inv(s) && s.core.current.Some?
    ensures Noted(s.core, Cancelled(s, count).core, s.script, Cancelling(s))
  {
    hide Resetting, Report, Rest, TellsLast;
    if s.core.retryTimer {
      DroppedKeeps(s, count);
      hide Dropped;
      assert {Disconnected, Canceled, Error} == DISCONNECTED + CANCELED;
    } else if s.stack.None? {
      ReportNoted(s.core, CANCELED, count, s.script, {CANCELED});
    } else if s.stack.value != [] && s.stack.value[|s.stack.value| - 1].purpose != ForNone {
      hide Noted;
      var reply := if s.stack.value[|s.stack.value| - 1].purpose == ForConnecting then CLOSED + CANCELED else CANCELED;
      ResettingTells(s.stack.value, s.script, reply);
      ToldNoted(s, Resetting(s.stack.value, s.script, reply), count, Some(reply));
      assert CLOSED + CANCELED == {Disconnected, Canceled, Error};
    }
  }

  lemma SignalledNoted(s: State, event: SocketEvent, count: int)
    requires s.core.current.Some?
    ensures Noted(s.core, Signalled(s, event, count).core, s.script, Causes(s, FromSocket(event)))
  {
    assert CLOSED == {Error, Disconnected};
    hide Resetting, Sending, Report, Rest, TellsLast, Noted;
    NothingNoted(s.core, s.script, Causes(s, FromSocket(event)));
    if s.stack.Some? {
      match event
      case Reset(reply) =>
        ResettingTells(s.stack.value, s.script, reply);
        ToldNoted(s, Resetting(s.stack.value, s.script, reply), count, Some(reply));
      case Close(reply) =>
        ResettingTells(s.stack.value, s.script, CLOSED + reply);
        ToldNoted(s, Resetting(s.stack.value, s.script, CLOSED + reply), count, Some(CLOSED + reply));
      case SendNext(pushed) =>
        SendingTells(s.stack.value + pushed, s.script);
        ToldNoted(s, Sending(s.stack.value + pushed, s.script), count, if s.stack.value + pushed == [] then Some(ERROR) else None);
    }
  }

  /** What a step notifies: nothing, or the end of the running command, with an answer or one of the causes as its reply. */
  lemma StepNoted(s: State, h: Happening, count: int)
    requires Inv(s) && Sensible(h)
    ensures var s' := After(s, h, count);
            if h.Submit? || h.AskCancel? || s.core.current.None? then s'.core.notifications == s.core.notifications
            else Noted(s.core, s'.core, s.script, Causes(s, h))
  {
    if s.core.current.None? {
      StillNone(s, h, count);
    } else {
      hide Inv, Noted, Starting, Cancelling;
      match h
      case Submit(_, _) =>
      case AskCancel =>
      case Next(delayed, beginning) =>
        NothingNoted(s.core, s.script, {});
        if s.queue != [] {
          var s1 := s.(queue := s.queue[1..]);
          hide Commanded, Cancelled;
          if s.queue[0] == Start {
            CommandedNoted(s1, delayed, beginning, count);
            SameStart(s, s1, delayed, beginning);
          } else {
            QueueInv(s);
            CancelledNoted(s1, count);
            SameCancel(s, s1);
          }
        }
      case TimerEvent(delayed) => RetriedNoted(s, delayed, count);
      case FromSocket(event) => SignalledNoted(s, event, count);
    }
  }

  lemma SameStart(s: State, s1: State, delayed: bool, beginning: Beginning)
    requires s1 == s.(queue := s1.queue) && s.core.current.Some?
    ensures Starting(s1, delayed, beginning) == Starting(s, delayed, beginning)
  {
  }

  lemma SameCancel(s: State, s1: State)
    requires s1 == s.(queue := s1.queue)
    ensures Cancelling(s1) == Cancelling(s)
  {
  }

  lemma QueueInv(s: State)
    requires Inv(s) && s.queue != [] && s.queue[0] == Cancel
    ensures Inv(s.(queue := s.queue[1..]))
  {
    hide Booked;
    assert s.queue == [s.queue[0]] + s.queue[1..];
  }

  lemma StillNone(s: State, h: Happening, count: int)
    requires Inv(s) && s.core.current.None?
    ensures After(s, h, count).core.notifications == s.core.notifications
  {
    hide Resetting, Sending;
  }

  // ----- Over a whole run

  /** A step ends the running command with a notification. */
  ghost predicate Notifies(s: State, h: Happening, notice: Notification) {
    s.core.current == Some(notice.command) && (notice.reply in Causes(s, h) || Answered(s.script, notice.reply))
  }

  /**
   * Every notification of a run was added by a step, when that many had been
   * before; it is about the command that was running, and its reply is what the
   * step ended that with.
   */
  lemma {:induction false} RunNotices(states: seq<State>, happenings: seq<Happening>, replies: seq<Reply>, count: int, n: nat, m: nat)
    returns (i: nat)
    requires IsRun(states, happenings, replies, count) && n <= |happenings| && m < |states[n].core.notifications|
    ensures i < n && |states[i].core.notifications| == m && Notifies(states[i], happenings[i], states[n].core.notifications[m])
  {
    hide After, Notifies, Inv, Causes;
    assert n > 0;
    RunInv(states, happenings, replies, count, n - 1);
    StepNoted(states[n - 1], happenings[n - 1], count);
    hide IsRun;
    if m < |states[n - 1].core.notifications| {
      i := RunNotices(states, happenings, replies, count, n - 1, m);
      SameNotice(states[n - 1], happenings[n - 1], states[n], m);
    } else {
      i := n - 1;
      NewNotice(states[i], happenings[i], states[n]);
    }
  }

  lemma SameNotice(s: State, h: Happening, s': State, m: nat)
    requires s'.core.notifications == s.core.notifications || Noted(s.core, s'.core, s.script, Causes(s, h))
    requires m < |s.core.notifications|
    ensures m < |s'.core.notifications| && s'.core.notifications[m] == s.core.notifications[m]
  {
    hide Causes, Answered;
  }

  lemma NewNotice(s: State, h: Happening, s': State)
    requires s'.core.notifications == s.core.notifications || Noted(s.core, s'.core, s.script, Causes(s, h))
    ensures |s'.core.notifications| <= |s.core.notifications| + 1
    ensures |s'.core.notifications| > |s.core.notifications| ==> Notifies(s, h, s'.core.notifications[|s.core.notifications|])
  {
    hide Causes, Answered;
  }

  /** How a command can be said to have succeeded: it was to disconnect, it or its operation said so, or the control socket did. */
  ghost predicate Earned(s: State, h: Happening, reply: Reply) {
    || (exists m | 0 <= m < |s.script| :: s.script[m].reply == reply)
    || (h.Next? && s.core.current == Some(Disconnect) && reply == {})
    || (h.Next? && h.beginning == Refused(reply))
    || h == FromSocket(Reset(reply))
  }

  /** A reply with neither an error nor a lost connection in it is earned. */
  lemma SuccessIsEarned(s: State, h: Happening, notice: Notification)
    requires Notifies(s, h, notice) && Error !in notice.reply && Disconnected !in notice.reply
    ensures Earned(s, h, notice.reply)
  {
    if notice.reply !in Causes(s, h) {
      hide Causes;
      var m :| 0 <= m < |s.script| && Echo(s.script[m].reply, notice.reply);
    }
  }

  /** A command that is cancelled says so, if no operation answers otherwise. */
  lemma CancelSaysSo(s: State, h: Happening, notice: Notification)
    requires Notifies(s, h, notice) && h.Next? && s.queue != [] && s.queue[0] == Cancel && s.script == []
    ensures Canceled in notice.reply && Error in notice.reply
  {
  }

  /** A connection that is lost is an error, if no operation answers otherwise. */
  lemma ClosingIsAnError(s: State, reply: Reply, notice: Notification)
    requires Notifies(s, FromSocket(Close(reply)), notice) && s.script == []
    ensures notice.reply == reply + {Error, Disconnected}
  {
  }

  // ----- Which failures lead to another attempt

  /** An error of the connection that may pass: nothing but that, and not critical. */
  predicate Passing(reply: Reply) {
    && (forall bit | bit in reply :: bit == Error || bit == Disconnected || bit == Timeout || bit == Critical || bit == PasswordFailed)
    && (Error in reply || Disconnected in reply)
    && (Critical in reply ==> Error !in reply)
  }

  /**
   * When the engine is told of an end, the running command ends with that reply,
   * but for two cases of connecting: while a retry is due nothing counts; and a
   * passing error is counted and leads to a retry, if that is wanted and fewer
   * were counted than allowed.
   */
  lemma RetriesExactly(core: Core, reply: Reply, count: int)
    ensures var r := Report(core, reply, count);
            var connecting := core.current.Some? && core.current.value.Connect?;
            var counts := connecting && !core.retryTimer && Passing(reply);
            && (core.current.None? || (connecting && core.retryTimer) ==> r == core)
            && (!core.retryTimer && r.retryTimer <==> counts && core.current.value.retry && core.retryCount + 1 < count)
            && (core.current.Some? && !(connecting && core.retryTimer) ==> r.retryCount == core.retryCount + if counts then 1 else 0)
            && (core.current.Some? && !(connecting && core.retryTimer) && (r.retryTimer <==> core.retryTimer) ==>
                  r.current.None? && r.notifications == core.notifications + [Notification(reply, core.current.value)])
  {
    PassingExactly(reply);
  }

  lemma PassingExactly(reply: Reply)
    ensures Retryable(reply) <==> Passing(reply)
  {
  }
}
