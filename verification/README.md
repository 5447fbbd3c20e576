# PC time control: a verified model of the agent and the controller

The system has two programs. The agent (`src/pc_control.py`) runs on each
child's Windows PC. It keeps a schedule of lock times, a usage limit and a
believed lock flag (`PCTimeControl`). It answers one-line text commands on
TCP port 9999 (`RemoteControlServer`): LOCK, SHUTDOWN, GET_NAME, GET_STATUS,
MESSAGE:, SET_LIMIT:, ADD_LOCK_TIME:, EXTEND_TIME: and HELP. A monitor
thread watches whether the session is really locked. A one-shot enforcement
loop warns and then locks once a scheduled time or the usage limit is
reached.

The controller (`src/web_panel.py`) is a small web panel. It scans the local
/24 for agents, names each agent it finds, shows each agent's lock state and
turns dashboard actions into agent commands.

The model has five modules:

- `Builtins` (builtins.dfy): the Python runtime pieces the programs rely on
  to read and write command text. These are `int()`, `str()` of an integer,
  `strip`, `split`, `split(sep, 1)`, `startswith`, `upper` and `{:02d}`.
- `TimeControl` (time_control.dfy): `datetime.time`, the clock fields,
  `timedelta.seconds` and the time-limit verdict. It also holds the
  `PcTimeControl` class, with its setters, `lock_pc`, `check_time_limits`,
  the monitor and `run_monitor`.
- `CommandProtocol` (protocol.dfy): `process_command` as a pure function
  `Dispatch`. The function maps a command, the agent state and what the
  operating system reports to the new state, the response and the
  operating-system call. The lemmas about it state what each command does.
- `RemoteServer` (remote_server.dfy): the `RemoteControlServer` class, with
  its client registry, `start_server`, `handle_client`, `stop_server` and
  `process_command`. `process_command` is an imperative method proved
  against `Dispatch`, and `handle_client` one proved against `Session`.
  The registry methods (`start_server`, the accept step, a handler's
  `finally` block and `stop_server`) state their effect on `clients`,
  `clientIdCounter`, `running` and `serverSocket` directly.
- `WebPanel` (web_panel.dfy): the candidate hosts of the /24, the
  display-name chain, the scan, the status-to-locked mapping and the
  `action()` mapping. The `Controller` class holds the module-level
  directory and scan time.

What is outside the programs becomes an input:

- The clock is an integer count of microseconds on the naive local clock.
- The operating system is an `OsView`: whether the session is locked, the
  node name, and the text of any exception the lock, shutdown or message
  call raises.
- The network is given per address string: the `connect_ex` result, the
  GET_NAME reply, the reverse-DNS name and the clock reading at each probe.
- Events on a socket are finite sequences (`AcceptEvent`, `Receipt`).

The believed lock flag does not simply follow the real lock state.
`monitor_activity` clears `is_locked` when it sees an unlock, but only
prints a message when it sees a lock the agent did not make
(src/pc_control.py:76-82). So `PcTimeControl.MonitorStep` only ever lowers
the flag. Only GET_STATUS, LOCK and the `lock_pc` call in `run_monitor`
(src/pc_control.py:172) raise it, and `__main__` never starts
`run_monitor`.

No lock guards the state that the client handlers and the monitor share.
The model runs each command as one atomic step.

## Model

| member | source | states |
|---|---|---|
| Builtins.StripLeft | src/pc_control.py:249 | `lstrip` removes a prefix made only of `str.isspace` characters, and what is left does not start with one |
| Builtins.StripRight | src/pc_control.py:249 | `rstrip` removes a suffix made only of whitespace, and what is left does not end with one |
| Builtins.StripUnpadded | src/pc_control.py:249 | `strip` leaves text alone when it neither starts nor ends with whitespace |
| Builtins.NatToString | src/pc_control.py:304 | `str(n)` is non-empty decimal digits that spell n, with no leading zero unless n is 0 |
| Builtins.ParseIntToString | src/pc_control.py:302-304 | `int(str(n)) == n` for every integer within CPython's 4300-digit limit, negative ones included |
| Builtins.ParseIntDigits | src/pc_control.py:302 | `int()` of plain decimal digits is the number they spell |
| Builtins.ParseIntNegative | src/pc_control.py:302 | `int()` of a minus sign followed by digits is the negated number |
| Builtins.DigitsValueLeadingZero | src/pc_control.py:313 | a leading zero does not change the value of a digit string |
| Builtins.ZeroPad2 | src/pc_control.py:313 | `{:02d}` writes digits that spell n, exactly two of them for n < 100 |
| Builtins.ParseIntZeroPad2 | src/pc_control.py:311-313 | `int()` reads back the two-digit field that `{:02d}` writes |
| Builtins.Split | src/pc_control.py:311 | `split(sep)` gives at least one part, no part holds the separator, and joining the parts gives back the text |
| Builtins.SplitNoSeparator | src/pc_control.py:311 | text without the separator splits into itself alone |
| Builtins.SplitAtFirst | src/pc_control.py:311 | splitting at the first separator gives the part before it followed by the split of the rest |
| Builtins.SplitJoin | src/pc_control.py:311 | `split` undoes joining parts that hold no separator |
| Builtins.SplitOnce | src/pc_control.py:296 | `split(sep, 1)` gives one part exactly when the separator is absent, else the text before its first occurrence and the rest |
| Builtins.Upper | src/web_panel.py:78 | `upper()` keeps the length, turns each lower-case ASCII letter into its capital, keeps every other character in place, and leaves no lower-case letter |
| Builtins.UpperIdempotent | src/web_panel.py:78 | upper-casing twice is upper-casing once |
| Builtins.UpperKeepsOthers | src/web_panel.py:78 | a character that is not a letter, such as the dot, occurs in the upper-cased text exactly when it occurs in the original |
| TimeControl.ElapsedSecondsOfDay | src/pc_control.py:156 | `(now - start).seconds` lies in 0..86399 |
| TimeControl.MakeTime | src/pc_control.py:112 | `datetime.time(h, m)` succeeds exactly for 0..23 and 0..59; it raises ValueError exactly when both values fit a C int but one is out of range, and OverflowError otherwise |
| TimeControl.ScheduledLockFirst | src/pc_control.py:148-152 | a matching scheduled time gives the scheduled-lock verdict whatever the usage limit |
| TimeControl.VerdictLocksExactly | src/pc_control.py:143-160 | the verdict is to lock exactly when a stored time matches the clock or a non-zero limit is used up; a verdict not to lock has an empty reason |
| TimeControl.FieldShift | src/pc_control.py:149-151 | an hour, minute or second field is unchanged a whole number of its periods later |
| TimeControl.ClockNextDay | src/pc_control.py:149-156 | a reading and the one 24 hours later have the same hour, minute, second and seconds-of-day |
| TimeControl.VerdictRepeatsDaily | src/pc_control.py:155-158 | since `timedelta.seconds` drops whole days, the verdict 24 hours later is the same verdict: the usage count restarts daily |
| TimeControl.DayLongLimitNeverFires | src/pc_control.py:155-158 | a usage limit of 1440 minutes or more never causes a lock |
| TimeControl.PcTimeControl.constructor | src/pc_control.py:29-34 | a new agent has no lock times, no limit and the flag clear |
| TimeControl.PcTimeControl.AddScheduledLock | src/pc_control.py:110-112 | a valid hour and minute are appended; otherwise the exception `datetime.time` raises is returned and the schedule is unchanged |
| TimeControl.PcTimeControl.SetUsageLimit | src/pc_control.py:114-116 | the limit is replaced and nothing else changes |
| TimeControl.PcTimeControl.LockPc | src/pc_control.py:130-133 | the flag is set even when the operating-system call raises, and that exception is returned |
| TimeControl.PcTimeControl.CheckTimeLimits | src/pc_control.py:143-160 | the loop over the schedule, then the usage test, answers exactly the verdict |
| TimeControl.PcTimeControl.MonitorStep | src/pc_control.py:72-84 | the flag becomes old flag and observed lock; the event is an unlock, a manual lock or nothing, by the same test |
| TimeControl.PcTimeControl.MonitorActivity | src/pc_control.py:70-84 | after a run of polls the flag is still set exactly when it was set and every poll saw the session locked; an unlock is reported only at a poll that saw it unlocked |
| TimeControl.PcTimeControl.RunMonitor | src/pc_control.py:162-174 | either no poll's verdict locks, no warning is shown and nothing changes, or at the first poll whose verdict locks it shows the one-minute warning titled "Warning", sets the flag and stops with that verdict's reason |
| CommandProtocol.ArgumentOf | src/pc_control.py:296 | `command.split(":", 1)[1]` is everything after the verb prefix, colons included |
| CommandProtocol.SetLimit | src/pc_control.py:300-306 | the SET_LIMIT branch touches only the limit and calls nothing |
| CommandProtocol.AddLockTime | src/pc_control.py:308-315 | the ADD_LOCK_TIME branch touches only the schedule and calls nothing |
| CommandProtocol.ExtendTime | src/pc_control.py:317-325 | the EXTEND_TIME branch touches only the limit and calls nothing |
| CommandProtocol.PrefixedCommand | src/pc_control.py:295-325 | a command built from a verb prefix selects that prefix's branch and no other, and its argument reads back |
| CommandProtocol.SetLimitCommand | src/pc_control.py:300-306 | SET_LIMIT with an integer sets the limit and echoes it; any other argument answers the invalid-limit text and changes nothing |
| CommandProtocol.SetLimitDispatch | src/pc_control.py:300 | the SET_LIMIT prefix selects the SET_LIMIT branch |
| CommandProtocol.SetLimitRoundTrip | src/pc_control.py:300-304 | `SET_LIMIT:` followed by `str(n)` sets the limit to n |
| CommandProtocol.SetLimitLastWins | src/pc_control.py:114-116 | after two accepted SET_LIMIT commands only the second value remains |
| CommandProtocol.AddLockTimeDispatch | src/pc_control.py:308 | the ADD_LOCK_TIME prefix selects the ADD_LOCK_TIME branch |
| CommandProtocol.AddLockTimeOutcome | src/pc_control.py:308-315 | the branch appends the time its argument names when there is one, otherwise the state is unchanged; an argument that is not two fields is the format error |
| CommandProtocol.TwoDigitFields | src/pc_control.py:311 | `HH:MM` of two two-digit numbers splits into two fields that read back as those numbers |
| CommandProtocol.AddLockTimeFields | src/pc_control.py:311-315 | two integer fields give an appended time, the format error when out of range within C's int, or the overflow message beyond it |
| CommandProtocol.AddLockTimeCommand | src/pc_control.py:308-315 | ADD_LOCK_TIME appends exactly the time its argument names and echoes it zero-padded; any other argument leaves the state alone |
| CommandProtocol.AddLockTimeRejects | src/pc_control.py:314-315 | an argument naming no time, with every integer field within C's int, answers the format error |
| CommandProtocol.AddLockTimeKeeps | src/pc_control.py:308-315 | the branch keeps every stored time, adds at most one, and adds only valid times |
| CommandProtocol.AddLockTimeRoundTrip | src/pc_control.py:311-313 | the zero-padded `HH:MM` of a valid time is appended as that very time and echoed unchanged |
| CommandProtocol.AddLockTimeTwice | src/pc_control.py:112 | the same time sent twice is stored twice |
| CommandProtocol.AddLockTimeOutOfRange | src/pc_control.py:311-315 | two-digit fields that are not a time of day answer the format error and store nothing |
| CommandProtocol.AddLockTimeOnePart | src/pc_control.py:311-315 | an argument without a colon answers the format error and stores nothing |
| CommandProtocol.AddLockTimeThreeParts | src/pc_control.py:311-315 | three colon-separated fields answer the format error and store nothing |
| CommandProtocol.ExtendTimeCommand | src/pc_control.py:317-325 | a bad value is checked first, then a missing or zero limit; otherwise the limit grows by the argument |
| CommandProtocol.ExtendTimeOutcome | src/pc_control.py:317-325 | the same three cases for the EXTEND_TIME branch alone |
| CommandProtocol.ExtendTimeDispatch | src/pc_control.py:317 | the EXTEND_TIME prefix selects the EXTEND_TIME branch |
| CommandProtocol.ExtendBeforeLimit | src/pc_control.py:320-323 | on a fresh agent EXTEND_TIME with a number extends nothing |
| CommandProtocol.StatusAndLockCommands | src/pc_control.py:276-293 | GET_STATUS adopts the observed lock state and answers LOCKED exactly when the session is locked; LOCK sets the flag |
| CommandProtocol.HelpIsConstant | src/pc_control.py:327-338 | HELP answers the same text whatever the state |
| CommandProtocol.UnknownCommand | src/pc_control.py:340-341 | a command that is no verb answers the unknown-command text and changes nothing |
| CommandProtocol.VerbsAreCaseSensitive | src/pc_control.py:276-341 | the five bare verbs in lower case, and the four argument prefixes in lower case followed by any argument, answer the unknown-command text and change nothing |
| CommandProtocol.ReadOnlyCommands | src/pc_control.py:280-298 | SHUTDOWN, GET_NAME, MESSAGE and HELP leave the state alone; GET_NAME answers the node name; MESSAGE shows its argument under the agent's title |
| CommandProtocol.DispatchKeepsLockTimes | src/pc_control.py:273-345 | no command removes or reorders lock times; at most one valid time is added |
| CommandProtocol.DispatchFrames | src/pc_control.py:273-345 | only SET_LIMIT and EXTEND_TIME change the limit, only ADD_LOCK_TIME the schedule, only LOCK and GET_STATUS the flag |
| CommandProtocol.UnprefixedFrames | src/pc_control.py:276-298 | commands without a state-changing prefix touch at most the flag |
| RemoteServer.AcceptedBeforeFailure | src/pc_control.py:209-236 | the accept loop takes no more connections than it sees events, every one when all events are connections, and none when no event is |
| RemoteServer.AcceptedCountsConnections | src/pc_control.py:209-236 | while no accept fails, the loop takes exactly as many connections as there are `Connected` events; timeouts and finished clients are skipped |
| RemoteServer.AcceptedStopsAtFailure | src/pc_control.py:234-236 | events after the first failed accept are never taken: the loop has left |
| RemoteServer.Session | src/pc_control.py:244-271 | one connection is sent at most one string per receipt |
| RemoteServer.SessionKeepsLockTimes | src/pc_control.py:244-265 | a whole client session only appends valid times to the schedule |
| RemoteServer.SessionAnswersEachReceipt | src/pc_control.py:247-262 | without failures or empty chunks, every receipt is answered |
| RemoteServer.RemoteControlServer.constructor | src/pc_control.py:178-193 | a new server has the given port and timeout, no clients, a zero counter and is not running |
| RemoteServer.RemoteControlServer.Accept | src/pc_control.py:211-229 | a new client gets the current counter as a never-used id, the counter moves on and the entry is stored |
| RemoteServer.RemoteControlServer.ClientFinished | src/pc_control.py:267-271 | the handler's own socket is closed and the client's entry is removed if still present; nothing else changes |
| RemoteServer.RemoteControlServer.StopServer | src/pc_control.py:347-365 | every client's socket is closed once, the registry and the listening socket are cleared and the server is not running |
| RemoteServer.RemoteControlServer.StartServer | src/pc_control.py:195-242 | connections get consecutive ids until an accept fails; a failed bind accepts none; the server always ends stopped |
| RemoteServer.RemoteControlServer.ProcessCommand | src/pc_control.py:273-345 | the new agent state, the response and the operating-system call are exactly those `Dispatch` gives |
| RemoteServer.RemoteControlServer.ProcessSetLimit | src/pc_control.py:300-306 | the SET_LIMIT branch run on the shared agent agrees with `SetLimit` |
| RemoteServer.RemoteControlServer.ProcessAddLockTime | src/pc_control.py:308-315 | the ADD_LOCK_TIME branch run on the shared agent agrees with `AddLockTime` |
| RemoteServer.RemoteControlServer.ProcessExtendTime | src/pc_control.py:317-325 | the EXTEND_TIME branch run on the shared agent agrees with `ExtendTime` |
| RemoteServer.RemoteControlServer.ServeReceipt | src/pc_control.py:247-262 | one receipt is answered as `Serve` says, and the agent ends in the state it names |
| RemoteServer.RemoteControlServer.HandleClient | src/pc_control.py:244-271 | a running server sends exactly what `Session` says and leaves the agent in its state; the handler's socket is then closed and the client's entry removed |
| WebPanel.CandidateHosts | src/web_panel.py:51 | the /24 has 254 candidates, all in the local network, the i-th ending in i + 1 |
| WebPanel.CandidateHostsExact | src/web_panel.py:51 | an address is a candidate exactly when it shares the first three octets and its last is neither 0 nor 255 |
| WebPanel.CandidateHostsAscending | src/web_panel.py:92 | candidates come in ascending order and their address strings differ |
| WebPanel.FirstLabelUpper | src/web_panel.py:78 | the name shown is the upper-cased text of the DNS name up to its first dot, or all of it when there is no dot |
| WebPanel.DisplayNameOrder | src/web_panel.py:62-80 | custom name, then a non-empty stripped GET_NAME reply, then the reverse-DNS label, then the fallback, each used only when all earlier ones fail |
| WebPanel.DisplayNameNonEmpty | src/web_panel.py:62-80 | the name is empty only when the reverse-DNS name's first label is empty |
| WebPanel.AgentNameShown | src/web_panel.py:62-72 | an agent without a custom name is shown under the node name its GET_NAME answer carries |
| WebPanel.ScanOfEntries | src/web_panel.py:82-87 | a scan has an entry for an address exactly when that address was probed and answered, and the entry is the one `check_host` makes, whatever the probe order |
| WebPanel.ScanResultContents | src/web_panel.py:47-101 | after a scan the directory holds exactly the answering candidates, each named by the chain, online and unlocked |
| WebPanel.StatusMapping | src/web_panel.py:31-45 | the dashboard shows an agent locked exactly when its session is locked; a failed query shows it unlocked |
| WebPanel.ActionCommandKnown | src/web_panel.py:153-170 | exactly the five actions send a command, and each is a command the agent knows |
| WebPanel.SetLimitActionRoundTrip | src/web_panel.py:163-165 | a set_limit action with minutes `str(n)` sets the agent's limit to n |
| WebPanel.DefaultMinutesValue | src/web_panel.py:164 | the default minutes read as 120 |
| WebPanel.SetLimitActionDefault | src/web_panel.py:163-165 | a set_limit action without minutes gives the agent a 120-minute limit |
| WebPanel.AddLockTimeActionDefault | src/web_panel.py:166-168 | an add_lock_time action without a time schedules a lock at 21:00 |
| WebPanel.Controller.constructor | src/web_panel.py:11-12 | the directory starts empty, with no scan time |
| WebPanel.Controller.ScanForServers | src/web_panel.py:47-101 | the directory is rebuilt from scratch as the scan of the candidate hosts, and the scan time is recorded |
| WebPanel.Controller.RefreshLockStatus | src/web_panel.py:119-122 | every entry's `locked` becomes whether its agent answers LOCKED; the keys and other fields do not change |
| WebPanel.Controller.ControlView | src/web_panel.py:135-142 | a known agent's entry gets its `locked` refreshed in the directory too; an unknown agent gets a placeholder and the directory is unchanged |
| WebPanel.Controller.Action | src/web_panel.py:144-172 | the request's command is sent and its result answered; an unknown action answers the unknown-action text; only a delivered lock of a known agent marks it locked |

## Left out

- Sockets, threads and the operating system are not modelled. Their results are inputs: `OsView`, `Network`, `SendResult`, `AcceptEvent` and `Receipt`. The `sleep` calls, the socket timeouts and the `daemon` flags are left out.
- Concurrency is left out. Commands, the monitor and client handlers each run as one atomic step against the shared state. Races between them are not modelled.
- The scan's probes run one after another instead of in parallel threads. `ScanOfEntries` shows the resulting directory does not depend on probe order.
- `check_host`'s outer `except: pass` is folded into the connect result: any exception before the entry is stored counts as a failed connect.
- Logging and the `print` calls are left out. They affect no state or answer.
- `check_if_locked` becomes the `sessionLocked` input. Its fallback to False on an exception is part of that input.
- `is_workstation_locked`, `_enum_callback` and `_check_if_locked` are never called. They are left out.
- The `last_activity` field is never read, and `cancel_shutdown` is never called. Both are left out.
- `run_monitor` is modelled, but `__main__` never starts it. The `__main__` block itself is left out, including its port check and keep-alive loop.
- `__del__` is left out. It only calls `stop_server`.
- `get_local_ip` becomes the `local` input of the scan. Its 127.0.0.1 fallback is one possible value of that input.
- `send_command`'s socket exchange and its 1024-byte receive are the `SendResult` input.
- Flask routing, JSON encoding, the HTML templates and `scan()`'s redirect are left out.
- scripts/install.py is not part of this model.
- The 1024-byte `recv` chunking and UTF-8 decoding are left out. A decode error is one way `RecvFailed` arises.
- A failing `sendall` in `handle_client` is not modelled.
- `RemoteServer.Session`: the `response is not None` test in `handle_client` is always true and is not modelled.
- `Builtins.ParseInt`: `int()` is modelled without underscores between digits and without non-ASCII digits. The dashboard never sends either. A raw TCP client can: for `SET_LIMIT:1_0` the agent sets a 10-minute limit, while the model answers "Invalid limit value".
- `Builtins.Upper`: only ASCII letters are upper-cased. Non-ASCII case mapping is left out.
- `TimeControl.PcTimeControl.RunMonitor`: the warning message and the lock call are taken not to raise. In the source such an exception would end the monitor thread. The 60-second wait between the warning and the lock is left out.
- `TimeControl.PcTimeControl.MonitorActivity`: the endless polling loop is a finite sequence of observed lock states.
- `RemoteServer.RemoteControlServer.StartServer`: the endless accept loop runs over a finite sequence of events.
- `WebPanel.Controller.Action`: JSON field values are taken as text. A JSON number sent as minutes is the same as its decimal text. Other JSON values (lists, objects, booleans) and a missing `ip` (None) are left out.
- `WebPanel.Controller.Action`: a request without a JSON body makes Flask answer an error. That path is left out.
- The shutdown and message collaborators share the lock call's fault input. In the source, `os.system` and starting the message thread rarely raise.
- `TimeControl.MakeTime`: the OverflowError text "Python int too large to convert to C long" is the one Windows CPython gives, where a C long is 32 bits. On Linux, values between 2^31 and 2^63 give "signed integer is greater than maximum" (or "less than minimum") instead; that text is not modelled.
- Clock readings are naive local time. Time-zone and daylight-saving changes are left out.
