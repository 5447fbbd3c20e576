/**
 * The agent's command protocol (`RemoteControlServer.process_command` in
 * src/pc_control.py) as a function: one command line, the agent state and
 * what the operating system reports give the new state, the one response
 * string and the operating-system action invoked.
 */
module CommandProtocol {
  import opened Builtins
  import opened TimeControl

  /**
   * What the operating system answers while a command runs: whether the
   * session is locked (`check_if_locked`), the host name (`platform.node()`)
   * and the text of the exception, if any, that the lock, shutdown or
   * message call raises.
   */
  datatype OsView = OsView(sessionLocked: bool, nodeName: string, fault: Option<string>)

  /** The operating-system collaborator a command invokes. */
  datatype OsAction =
    | NoAction
    | LockWorkstation
    | Shutdown(delaySeconds: int)
    | ShowMessage(text: string, title: string)

  datatype Outcome = Outcome(state: AgentState, response: string, action: OsAction)

  const SHUTDOWN_DELAY: int := 60
  const MESSAGE_TITLE: string := "PC Time Control"

  const UNKNOWN_COMMAND: string := "Unknown command (try HELP)"
  const INVALID_LIMIT: string := "Invalid limit value"
  const INVALID_TIME_FORMAT: string := "Invalid time format (use HH:MM)"
  const INVALID_TIME_VALUE: string := "Invalid time value"
  const NO_LIMIT_TO_EXTEND: string := "No time limit set to extend"

  const HELP_TEXT: string :=
    "Available commands:\n"
    + "LOCK - Lock the PC\n"
    + "SHUTDOWN - Shutdown the PC\n"
    + "GET_NAME - Get PC name\n"
    + "GET_STATUS - Check if PC is locked\n"
    + "MESSAGE:<text> - Show popup message\n"
    + "SET_LIMIT:<minutes> - Set usage limit\n"
    + "ADD_LOCK_TIME:HH:MM - Add scheduled lock\n"
    + "EXTEND_TIME:<minutes> - Extend usage time"

  /** The response for an exception that reaches the outer handler. */
  function ErrorResponse(message: string): string {
    "Error processing command: " + message
  }

  /** The response of a command whose collaborator may raise. */
  function AfterCall(fault: Option<string>, success: string): string {
    if fault.Some? then ErrorResponse(fault.value) else success
  }

  /** The argument prefixes; each holds exactly one colon, at its end. */
  predicate IsVerbPrefix(verb: string) {
    verb != [] && verb[|verb| - 1] == ':' && ':' !in verb[..|verb| - 1]
  }

  /** `command.split(":", 1)[1]` for a command that starts with a verb prefix. */
  function ArgumentOf(command: string, verb: string): (arg: string)
    requires IsVerbPrefix(verb) && StartsWith(command, verb)
    ensures arg == command[|verb|..]
  {
    assert command[|verb| - 1] == verb[|verb| - 1] == ':';
    var parts := SplitOnce(command, ':');
    assert command[|parts[0]|] == ':';
    forall i | 0 <= i < |verb| - 1
      ensures command[i] != ':'
    {
      assert command[i] == verb[..|verb| - 1][i];
    }
    forall i | 0 <= i < |parts[0]|
      ensures command[i] != ':'
    {
      assert command[i] == parts[0][i];
    }
    assert |parts[0]| == |verb| - 1;
    assert command[|verb|..] == parts[1];
    parts[1]
  }

  function FormatLockTime(t: TimeOfDay): string
    requires IsTimeOfDay(t)
  {
    ZeroPad2(t.hour) + ":" + ZeroPad2(t.minute)
  }

  /** `SET_LIMIT:<arg>`. */
  function SetLimit(arg: string, s: AgentState): (o: Outcome)
    ensures o.state == s.(usageLimit := o.state.usageLimit) && o.action == NoAction
  {
    match ParseInt(arg)
    case Some(minutes) =>
      Outcome(s.(usageLimit := Some(minutes)), "Usage limit set to " + IntToString(minutes) + " minutes", NoAction)
    case None =>
      Outcome(s, INVALID_LIMIT, NoAction)
  }

  /**
   * `ADD_LOCK_TIME:<arg>`: the argument must split on ':' into exactly two
   * integers, and `datetime.time` must accept them. An integer too wide for C
   * raises OverflowError, which is not a ValueError and so reaches the outer
   * handler.
   */
  function AddLockTime(arg: string, s: AgentState): (o: Outcome)
    ensures o.state == s.(lockTimes := o.state.lockTimes) && o.action == NoAction
  {
    var parts := Split(arg, ':');
    if |parts| == 2 && ParseInt(parts[0]).Some? && ParseInt(parts[1]).Some? then
      match MakeTime(ParseInt(parts[0]).value, ParseInt(parts[1]).value)
      case Ok(t) =>
        Outcome(s.(lockTimes := s.lockTimes + [t]), "Lock time added: " + FormatLockTime(t), NoAction)
      case Err(e) =>
        Outcome(s, if e.ValueError? then INVALID_TIME_FORMAT else ErrorResponse(e.message), NoAction)
    else
      Outcome(s, INVALID_TIME_FORMAT, NoAction)
  }

  /** `EXTEND_TIME:<arg>`: adds to a limit that is neither None nor 0. */
  function ExtendTime(arg: string, s: AgentState): (o: Outcome)
    ensures o.state == s.(usageLimit := o.state.usageLimit) && o.action == NoAction
  {
    match ParseInt(arg)
    case None =>
      Outcome(s, INVALID_TIME_VALUE, NoAction)
    case Some(minutes) =>
      if HasLimit(s.usageLimit) then
        Outcome(s.(usageLimit := Some(s.usageLimit.value + minutes)), "Extended time by " + IntToString(minutes) + " minutes", NoAction)
      else
        Outcome(s, NO_LIMIT_TO_EXTEND, NoAction)
  }

  /** `process_command`: the branches in the order the agent tries them. */
  function Dispatch(command: string, s: AgentState, os: OsView): Outcome {
    if command == "LOCK" then
      Outcome(s.(isLocked := true), AfterCall(os.fault, "PC Locked"), LockWorkstation)
    else if command == "SHUTDOWN" then
      Outcome(s, AfterCall(os.fault, "PC Shutting down"), Shutdown(SHUTDOWN_DELAY))
    else if command == "GET_NAME" then
      Outcome(s, os.nodeName, NoAction)
    else if command == "GET_STATUS" then
      Outcome(s.(isLocked := os.sessionLocked), if os.sessionLocked then "LOCKED" else "UNLOCKED", NoAction)
    else if StartsWith(command, "MESSAGE:") then
      Outcome(s, AfterCall(os.fault, "Message sent"), ShowMessage(ArgumentOf(command, "MESSAGE:"), MESSAGE_TITLE))
    else if StartsWith(command, "SET_LIMIT:") then
      SetLimit(ArgumentOf(command, "SET_LIMIT:"), s)
    else if StartsWith(command, "ADD_LOCK_TIME:") then
      AddLockTime(ArgumentOf(command, "ADD_LOCK_TIME:"), s)
    else if StartsWith(command, "EXTEND_TIME:") then
      ExtendTime(ArgumentOf(command, "EXTEND_TIME:"), s)
    else if command == "HELP" then
      Outcome(s, HELP_TEXT, NoAction)
    else
      Outcome(s, UNKNOWN_COMMAND, NoAction)
  }

  /** A command that is one of the exact verbs or starts with one of the argument prefixes. */
  predicate IsKnownCommand(command: string) {
    || command in {"LOCK", "SHUTDOWN", "GET_NAME", "GET_STATUS", "HELP"}
    || StartsWith(command, "MESSAGE:") || StartsWith(command, "SET_LIMIT:")
    || StartsWith(command, "ADD_LOCK_TIME:") || StartsWith(command, "EXTEND_TIME:")
  }

  /** The verb prefixes are told apart by their first characters. */
  lemma PrefixedCommand(verb: string, arg: string)
    requires verb in {"MESSAGE:", "SET_LIMIT:", "ADD_LOCK_TIME:", "EXTEND_TIME:"}
    ensures IsVerbPrefix(verb)
    ensures StartsWith(verb + arg, "MESSAGE:") <==> verb == "MESSAGE:"
    ensures StartsWith(verb + arg, "SET_LIMIT:") <==> verb == "SET_LIMIT:"
    ensures StartsWith(verb + arg, "ADD_LOCK_TIME:") <==> verb == "ADD_LOCK_TIME:"
    ensures StartsWith(verb + arg, "EXTEND_TIME:") <==> verb == "EXTEND_TIME:"
    ensures verb + arg !in {"LOCK", "SHUTDOWN", "GET_NAME", "GET_STATUS", "HELP"}
    ensures ArgumentOf(verb + arg, verb) == arg
  {
    var c := verb + arg;
    assert c[..|verb|] == verb;
    assert c[0] == verb[0] && c[1] == verb[1];
  }

  /** SET_LIMIT replaces the limit with any integer argument, and otherwise changes nothing. */
  lemma SetLimitCommand(arg: string, s: AgentState, os: OsView)
    ensures ParseInt(arg).Some? ==>
              Dispatch("SET_LIMIT:" + arg, s, os)
              == Outcome(s.(usageLimit := ParseInt(arg)),
                         "Usage limit set to " + IntToString(ParseInt(arg).value) + " minutes", NoAction)
    ensures ParseInt(arg).None? ==> Dispatch("SET_LIMIT:" + arg, s, os) == Outcome(s, INVALID_LIMIT, NoAction)
  {
    PrefixedCommand("SET_LIMIT:", arg);
  }

  /** The SET_LIMIT prefix selects the SET_LIMIT branch. */
  lemma SetLimitDispatch(arg: string, s: AgentState, os: OsView)
    ensures Dispatch("SET_LIMIT:" + arg, s, os) == SetLimit(arg, s)
  {
    PrefixedCommand("SET_LIMIT:", arg);
  }

  /** `SET_LIMIT:` followed by `str(n)` sets the limit to n. */
  lemma SetLimitRoundTrip(n: int, s: AgentState, os: OsView)
    requires |NatToString(if n < 0 then -n else n)| <= MAX_STR_DIGITS
    ensures Dispatch("SET_LIMIT:" + IntToString(n), s, os)
            == Outcome(s.(usageLimit := Some(n)), "Usage limit set to " + IntToString(n) + " minutes", NoAction)
  {
    ParseIntToString(n);
    SetLimitCommand(IntToString(n), s, os);
  }

  /** Of two accepted SET_LIMIT commands only the later value remains. */
  lemma SetLimitLastWins(first: string, second: string, s: AgentState, os1: OsView, os2: OsView)
    requires ParseInt(first).Some? && ParseInt(second).Some?
    ensures Dispatch("SET_LIMIT:" + second, Dispatch("SET_LIMIT:" + first, s, os1).state, os2).state
            == s.(usageLimit := ParseInt(second))
  {
    SetLimitCommand(first, s, os1);
    SetLimitCommand(second, Dispatch("SET_LIMIT:" + first, s, os1).state, os2);
  }

  /** The argument forms ADD_LOCK_TIME accepts: two integers that make a time of day. */
  predicate IsLockTimeArgument(arg: string, t: TimeOfDay) {
    var parts := Split(arg, ':');
    && |parts| == 2
    && ParseInt(parts[0]) == Some(t.hour)
    && ParseInt(parts[1]) == Some(t.minute)
    && IsTimeOfDay(t)
  }

  /** The ADD_LOCK_TIME prefix selects the ADD_LOCK_TIME branch. */
  lemma AddLockTimeDispatch(arg: string, s: AgentState, os: OsView)
    ensures Dispatch("ADD_LOCK_TIME:" + arg, s, os) == AddLockTime(arg, s)
  {
    PrefixedCommand("ADD_LOCK_TIME:", arg);
  }

  /** The ADD_LOCK_TIME branch on its own: it appends the named time or leaves the state alone. */
  lemma AddLockTimeOutcome(arg: string, s: AgentState)
    ensures forall t :: IsLockTimeArgument(arg, t) ==>
              AddLockTime(arg, s) == Outcome(s.(lockTimes := s.lockTimes + [t]), "Lock time added: " + FormatLockTime(t), NoAction)
    ensures (forall t :: !IsLockTimeArgument(arg, t)) ==> AddLockTime(arg, s).state == s
    ensures |Split(arg, ':')| != 2 ==> AddLockTime(arg, s) == Outcome(s, INVALID_TIME_FORMAT, NoAction)
  {
    var parts := Split(arg, ':');
    if |parts| == 2 && ParseInt(parts[0]).Some? && ParseInt(parts[1]).Some? {
      var t := TimeOfDay(ParseInt(parts[0]).value, ParseInt(parts[1]).value);
      AddLockTimeFields(arg, t.hour, t.minute, s);
      assert IsTimeOfDay(t) ==> IsLockTimeArgument(arg, t);
    }
  }

  /** `HH:MM` of two two-digit numbers splits into two fields that `int()` reads back. */
  lemma TwoDigitFields(h: nat, m: nat)
    requires h < 100 && m < 100
    ensures var parts := Split(ZeroPad2(h) + ":" + ZeroPad2(m), ':');
            |parts| == 2 && ParseInt(parts[0]) == Some(h as int) && ParseInt(parts[1]) == Some(m as int)
  {
    var a, b := ZeroPad2(h), ZeroPad2(m);
    assert Split(a + ":" + b, ':') == [a, b] by {
      assert ':' !in a && ':' !in b by {
        assert IsDigit(a[0]) && IsDigit(a[1]) && IsDigit(b[0]) && IsDigit(b[1]);
      }
      assert [a, b][1..] == [b];
      assert Join([a, b], ':') == a + ":" + b;
      SplitJoin([a, b], ':');
    }
    ParseIntZeroPad2(h);
    ParseIntZeroPad2(m);
  }

  /**
   * Two integer fields decide the ADD_LOCK_TIME answer: a time of day is
   * appended, other values within C's int are the format error, and a value
   * beyond C's int answers the overflow message.
   */
  lemma AddLockTimeFields(arg: string, hour: int, minute: int, s: AgentState)
    requires |Split(arg, ':')| == 2
    requires ParseInt(Split(arg, ':')[0]) == Some(hour) && ParseInt(Split(arg, ':')[1]) == Some(minute)
    ensures 0 <= hour <= 23 && 0 <= minute <= 59 ==>
              AddLockTime(arg, s)
              == Outcome(s.(lockTimes := s.lockTimes + [TimeOfDay(hour, minute)]),
                         "Lock time added: " + FormatLockTime(TimeOfDay(hour, minute)), NoAction)
    ensures C_INT_MIN <= hour <= C_INT_MAX && C_INT_MIN <= minute <= C_INT_MAX && !(0 <= hour <= 23 && 0 <= minute <= 59) ==>
              AddLockTime(arg, s) == Outcome(s, INVALID_TIME_FORMAT, NoAction)
    ensures !(C_INT_MIN <= hour <= C_INT_MAX && C_INT_MIN <= minute <= C_INT_MAX) ==>
              AddLockTime(arg, s) == Outcome(s, ErrorResponse(C_LONG_OVERFLOW), NoAction)
  {
  }

  /**
   * ADD_LOCK_TIME appends exactly the time its argument names when the
   * argument is two integers within 0..23 and 0..59, and otherwise leaves the
   * state alone; an argument that is not two fields is the format error.
   */
  lemma AddLockTimeCommand(arg: string, s: AgentState, os: OsView)
    ensures forall t :: IsLockTimeArgument(arg, t) ==>
              Dispatch("ADD_LOCK_TIME:" + arg, s, os)
              == Outcome(s.(lockTimes := s.lockTimes + [t]), "Lock time added: " + FormatLockTime(t), NoAction)
    ensures (forall t :: !IsLockTimeArgument(arg, t)) ==>
              Dispatch("ADD_LOCK_TIME:" + arg, s, os).state == s
    ensures |Split(arg, ':')| != 2 ==>
              Dispatch("ADD_LOCK_TIME:" + arg, s, os) == Outcome(s, INVALID_TIME_FORMAT, NoAction)
  {
    AddLockTimeOutcome(arg, s);
    AddLockTimeDispatch(arg, s, os);
  }

  /** An argument that is not two integers, or is out of range within C's int, answers the format error. */
  lemma AddLockTimeRejects(arg: string, s: AgentState, os: OsView)
    requires forall t :: !IsLockTimeArgument(arg, t)
    requires forall p :: 0 <= p < |Split(arg, ':')| && ParseInt(Split(arg, ':')[p]).Some? ==>
               C_INT_MIN <= ParseInt(Split(arg, ':')[p]).value <= C_INT_MAX
    ensures Dispatch("ADD_LOCK_TIME:" + arg, s, os) == Outcome(s, INVALID_TIME_FORMAT, NoAction)
  {
    assert AddLockTime(arg, s) == Outcome(s, INVALID_TIME_FORMAT, NoAction) by {
      var parts := Split(arg, ':');
      if |parts| == 2 && ParseInt(parts[0]).Some? && ParseInt(parts[1]).Some? {
        var t := TimeOfDay(ParseInt(parts[0]).value, ParseInt(parts[1]).value);
        assert !IsLockTimeArgument(arg, t);
        AddLockTimeFields(arg, t.hour, t.minute, s);
      } else {
        AddLockTimeOutcome(arg, s);
      }
    }
    AddLockTimeDispatch(arg, s, os);
  }

  /** ADD_LOCK_TIME keeps every stored time and adds at most one valid time. */
  lemma AddLockTimeKeeps(arg: string, s: AgentState)
    requires LockTimesValid(s.lockTimes)
    ensures var o := AddLockTime(arg, s);
            && LockTimesValid(o.state.lockTimes)
            && s.lockTimes <= o.state.lockTimes
            && |o.state.lockTimes| <= |s.lockTimes| + 1
  {
    var o := AddLockTime(arg, s);
    assert o.state.lockTimes == s.lockTimes || (exists t :: IsTimeOfDay(t) && o.state.lockTimes == s.lockTimes + [t]);
  }

  /** The zero-padded `HH:MM` a controller sends is appended as that very time. */
  lemma AddLockTimeRoundTrip(t: TimeOfDay, s: AgentState, os: OsView)
    requires IsTimeOfDay(t)
    ensures Dispatch("ADD_LOCK_TIME:" + FormatLockTime(t), s, os)
            == Outcome(s.(lockTimes := s.lockTimes + [t]), "Lock time added: " + FormatLockTime(t), NoAction)
  {
    var h, m := ZeroPad2(t.hour), ZeroPad2(t.minute);
    assert ':' !in h && ':' !in m by {
      assert IsDigit(h[0]) && IsDigit(h[1]) && IsDigit(m[0]) && IsDigit(m[1]);
    }
    assert FormatLockTime(t) == Join([h, m], ':');
    SplitJoin([h, m], ':');
    ParseIntZeroPad2(t.hour);
    ParseIntZeroPad2(t.minute);
    assert IsLockTimeArgument(FormatLockTime(t), t);
    AddLockTimeCommand(FormatLockTime(t), s, os);
  }

  /** The same lock time sent twice is stored twice. */
  lemma AddLockTimeTwice(t: TimeOfDay, s: AgentState, os1: OsView, os2: OsView)
    requires IsTimeOfDay(t)
    ensures Dispatch("ADD_LOCK_TIME:" + FormatLockTime(t),
                     Dispatch("ADD_LOCK_TIME:" + FormatLockTime(t), s, os1).state, os2).state.lockTimes
            == s.lockTimes + [t, t]
  {
    AddLockTimeRoundTrip(t, s, os1);
    AddLockTimeRoundTrip(t, s.(lockTimes := s.lockTimes + [t]), os2);
  }

  /**
   * Two-digit fields that are not a time of day (such as `25:99`) are refused
   * with the format error, and nothing is stored.
   */
  lemma AddLockTimeOutOfRange(h: nat, m: nat, s: AgentState, os: OsView)
    requires h < 100 && m < 100 && (h > 23 || m > 59)
    ensures Dispatch("ADD_LOCK_TIME:" + ZeroPad2(h) + ":" + ZeroPad2(m), s, os) == Outcome(s, INVALID_TIME_FORMAT, NoAction)
  {
    var a, b := ZeroPad2(h), ZeroPad2(m);
    var arg := a + ":" + b;
    assert "ADD_LOCK_TIME:" + a + ":" + b == "ADD_LOCK_TIME:" + arg;
    TwoDigitFields(h, m);
    AddLockTimeFields(arg, h, m, s);
    AddLockTimeDispatch(arg, s, os);
  }

  /** An argument without a colon (such as `21`) is refused, and nothing is stored. */
  lemma AddLockTimeOnePart(arg: string, s: AgentState, os: OsView)
    requires ':' !in arg
    ensures Dispatch("ADD_LOCK_TIME:" + arg, s, os) == Outcome(s, INVALID_TIME_FORMAT, NoAction)
  {
    SplitNoSeparator(arg, ':');
    AddLockTimeCommand(arg, s, os);
  }

  /** An argument of three colon-separated fields (such as `21:00:00`) is refused, and nothing is stored. */
  lemma AddLockTimeThreeParts(a: string, b: string, c: string, s: AgentState, os: OsView)
    requires ':' !in a && ':' !in b && ':' !in c
    ensures Dispatch("ADD_LOCK_TIME:" + a + ":" + b + ":" + c, s, os) == Outcome(s, INVALID_TIME_FORMAT, NoAction)
  {
    var arg := Join([a, b, c], ':');
    assert [a, b, c][1..] == [b, c] && [b, c][1..] == [c];
    assert Join([c], ':') == c && ":" == [':'];
    assert Join([b, c], ':') == b + ":" + c;
    assert arg == a + ":" + b + ":" + c;
    assert "ADD_LOCK_TIME:" + a + ":" + b + ":" + c == "ADD_LOCK_TIME:" + arg;
    SplitJoin([a, b, c], ':');
    AddLockTimeCommand(arg, s, os);
  }

  /** EXTEND_TIME: bad value first, then no limit to extend, else the limit grows by the argument. */
  lemma ExtendTimeCommand(arg: string, s: AgentState, os: OsView)
    ensures var o := Dispatch("EXTEND_TIME:" + arg, s, os);
            && (ParseInt(arg).None? ==> o == Outcome(s, INVALID_TIME_VALUE, NoAction))
            && (ParseInt(arg).Some? && !HasLimit(s.usageLimit) ==> o == Outcome(s, NO_LIMIT_TO_EXTEND, NoAction))
            && (ParseInt(arg).Some? && HasLimit(s.usageLimit) ==>
                  o == Outcome(s.(usageLimit := Some(s.usageLimit.value + ParseInt(arg).value)),
                               "Extended time by " + IntToString(ParseInt(arg).value) + " minutes", NoAction))
  {
    ExtendTimeDispatch(arg, s, os);
    ExtendTimeOutcome(arg, s);
  }

  /** The EXTEND_TIME branch on its own. */
  lemma ExtendTimeOutcome(arg: string, s: AgentState)
    ensures ParseInt(arg).None? ==> ExtendTime(arg, s) == Outcome(s, INVALID_TIME_VALUE, NoAction)
    ensures ParseInt(arg).Some? && !HasLimit(s.usageLimit) ==> ExtendTime(arg, s) == Outcome(s, NO_LIMIT_TO_EXTEND, NoAction)
    ensures ParseInt(arg).Some? && HasLimit(s.usageLimit) ==>
              ExtendTime(arg, s)
              == Outcome(s.(usageLimit := Some(s.usageLimit.value + ParseInt(arg).value)),
                         "Extended time by " + IntToString(ParseInt(arg).value) + " minutes", NoAction)
  {
    var minutes := ParseInt(arg);
    if minutes.Some? && HasLimit(s.usageLimit) {
      assert ExtendTime(arg, s).response == "Extended time by " + IntToString(minutes.value) + " minutes";
    }
  }

  /** The EXTEND_TIME prefix selects the EXTEND_TIME branch. */
  lemma ExtendTimeDispatch(arg: string, s: AgentState, os: OsView)
    ensures Dispatch("EXTEND_TIME:" + arg, s, os) == ExtendTime(arg, s)
  {
    PrefixedCommand("EXTEND_TIME:", arg);
  }

  /** On a fresh agent, EXTEND_TIME with a number extends nothing. */
  lemma ExtendBeforeLimit(n: int, os: OsView)
    requires |NatToString(if n < 0 then -n else n)| <= MAX_STR_DIGITS
    ensures Dispatch("EXTEND_TIME:" + IntToString(n), AgentState([], None, false), os)
            == Outcome(AgentState([], None, false), NO_LIMIT_TO_EXTEND, NoAction)
  {
    ParseIntToString(n);
    ExtendTimeCommand(IntToString(n), AgentState([], None, false), os);
  }

  /** GET_STATUS adopts the observed lock state and reports it; LOCK sets the flag. */
  lemma StatusAndLockCommands(s: AgentState, os: OsView)
    ensures Dispatch("GET_STATUS", s, os).state == s.(isLocked := os.sessionLocked)
    ensures Dispatch("GET_STATUS", s, os).response == "LOCKED" <==> os.sessionLocked
    ensures Dispatch("GET_STATUS", s, os).response == "UNLOCKED" <==> !os.sessionLocked
    ensures Dispatch("LOCK", s, os).state == s.(isLocked := true)
    ensures Dispatch("LOCK", s, os).response == AfterCall(os.fault, "PC Locked")
  {
  }

  /** HELP answers the same text whatever the state and the operating system. */
  lemma HelpIsConstant(s1: AgentState, s2: AgentState, os1: OsView, os2: OsView)
    ensures Dispatch("HELP", s1, os1).response == Dispatch("HELP", s2, os2).response == HELP_TEXT
  {
  }

  /** Anything that is not a verb answers the unknown-command text and changes nothing. */
  lemma UnknownCommand(command: string, s: AgentState, os: OsView)
    requires !IsKnownCommand(command)
    ensures Dispatch(command, s, os) == Outcome(s, UNKNOWN_COMMAND, NoAction)
  {
  }

  /**
   * Verbs are case-sensitive: the five bare verbs spelled in lower case, and
   * the four argument prefixes spelled in lower case followed by any
   * argument, are unknown commands and change nothing.
   */
  lemma VerbsAreCaseSensitive(command: string, arg: string, s: AgentState, os: OsView)
    requires || command in {"lock", "shutdown", "get_name", "get_status", "help"}
             || command in {"message:" + arg, "set_limit:" + arg, "add_lock_time:" + arg, "extend_time:" + arg}
    ensures Dispatch(command, s, os) == Outcome(s, UNKNOWN_COMMAND, NoAction)
  {
    if command !in {"lock", "shutdown", "get_name", "get_status", "help"} {
      assert command[0] in {'m', 's', 'a', 'e'};
    }
    assert !StartsWith(command, "MESSAGE:") && !StartsWith(command, "SET_LIMIT:")
        && !StartsWith(command, "ADD_LOCK_TIME:") && !StartsWith(command, "EXTEND_TIME:") by {
      assert "MESSAGE:"[0] == 'M' && "SET_LIMIT:"[0] == 'S' && "ADD_LOCK_TIME:"[0] == 'A' && "EXTEND_TIME:"[0] == 'E';
    }
    UnknownCommand(command, s, os);
  }

  /** SHUTDOWN, GET_NAME, MESSAGE and HELP never change the state. */
  lemma ReadOnlyCommands(arg: string, s: AgentState, os: OsView)
    ensures Dispatch("SHUTDOWN", s, os).state == s
    ensures Dispatch("GET_NAME", s, os) == Outcome(s, os.nodeName, NoAction)
    ensures Dispatch("MESSAGE:" + arg, s, os)
            == Outcome(s, AfterCall(os.fault, "Message sent"), ShowMessage(arg, MESSAGE_TITLE))
    ensures Dispatch("HELP", s, os).state == s
  {
    PrefixedCommand("MESSAGE:", arg);
  }

  /**
   * No command removes or reorders scheduled lock times, and every time one
   * adds is a valid time of day.
   */
  lemma DispatchKeepsLockTimes(command: string, s: AgentState, os: OsView)
    requires LockTimesValid(s.lockTimes)
    ensures var o := Dispatch(command, s, os);
            && LockTimesValid(o.state.lockTimes)
            && s.lockTimes <= o.state.lockTimes
            && |o.state.lockTimes| <= |s.lockTimes| + 1
  {
    DispatchFrames(command, s, os);
    if StartsWith(command, "ADD_LOCK_TIME:") {
      var arg := command[|"ADD_LOCK_TIME:"|..];
      assert command == "ADD_LOCK_TIME:" + arg;
      AddLockTimeDispatch(arg, s, os);
      AddLockTimeKeeps(arg, s);
    }
  }

  /**
   * Only ADD_LOCK_TIME touches the schedule, only SET_LIMIT and EXTEND_TIME
   * the limit, and only LOCK and GET_STATUS the flag.
   */
  lemma DispatchFrames(command: string, s: AgentState, os: OsView)
    ensures var o := Dispatch(command, s, os);
            && (o.state.usageLimit != s.usageLimit ==>
                  StartsWith(command, "SET_LIMIT:") || StartsWith(command, "EXTEND_TIME:"))
            && (o.state.isLocked != s.isLocked ==> command == "LOCK" || command == "GET_STATUS")
            && (!StartsWith(command, "ADD_LOCK_TIME:") ==> o.state.lockTimes == s.lockTimes)
  {
    if StartsWith(command, "SET_LIMIT:") {
      var arg := command[|"SET_LIMIT:"|..];
      assert command == "SET_LIMIT:" + arg;
      SetLimitDispatch(arg, s, os);
    } else if StartsWith(command, "ADD_LOCK_TIME:") {
      var arg := command[|"ADD_LOCK_TIME:"|..];
      assert command == "ADD_LOCK_TIME:" + arg;
      AddLockTimeDispatch(arg, s, os);
    } else if StartsWith(command, "EXTEND_TIME:") {
      var arg := command[|"EXTEND_TIME:"|..];
      assert command == "EXTEND_TIME:" + arg;
      ExtendTimeDispatch(arg, s, os);
    } else {
      UnprefixedFrames(command, s, os);
    }
  }

  /** The commands without an argument prefix that changes state touch at most the flag. */
  lemma UnprefixedFrames(command: string, s: AgentState, os: OsView)
    requires !StartsWith(command, "SET_LIMIT:") && !StartsWith(command, "ADD_LOCK_TIME:") && !StartsWith(command, "EXTEND_TIME:")
    ensures var o := Dispatch(command, s, os);
            && o.state.usageLimit == s.usageLimit && o.state.lockTimes == s.lockTimes
            && (o.state.isLocked != s.isLocked ==> command == "LOCK" || command == "GET_STATUS")
  {
  }
}
