/**
 * `RemoteControlServer` from src/pc_control.py: the registry of connected
 * clients, the accept loop that fills it, the per-client receive loop, the
 * command processor that drives a `PcTimeControl`, and `stop_server`.
 * Sockets and threads are opaque handles; what the network delivers is a
 * sequence of events given as a parameter.
 */
module RemoteServer {
  import opened Builtins
  import opened TimeControl
  import opened CommandProtocol

  /** An operating-system socket or thread, known only by its identity. */
  datatype Handle = Handle(id: nat)

  /** A peer address as `accept()` reports it. */
  datatype Address = Address(host: string, port: int)

  /** The entry `start_server` stores per connection. */
  datatype ClientInfo = ClientInfo(thread: Handle, socket: Handle, address: Address)

  /** What one `accept()` on the listening socket does. */
  datatype AcceptEvent =
    | Connected(socket: Handle, address: Address, thread: Handle)
    | AcceptTimeout
    | AcceptFailed(message: string)
    /** a client handler reached its `finally` block meanwhile, closing its socket */
    | ClientLeft(clientId: nat, socket: Handle)

  /** What one `recv()` in a client handler does. */
  datatype Receipt =
    | Data(chunk: string)
    | RecvTimeout
    | RecvFailed(message: string)

  const DEFAULT_PORT: int := 9999
  const DEFAULT_TIMEOUT: int := 60
  const KEEPALIVE: string := "ALIVE"

  /** The number of connections the accept loop takes before it leaves. */
  function AcceptedBeforeFailure(events: seq<AcceptEvent>): (n: nat)
    ensures n <= |events|
    ensures (forall i :: 0 <= i < |events| ==> events[i].Connected?) ==> n == |events|
    ensures (forall i :: 0 <= i < |events| ==> !events[i].Connected?) ==> n == 0
  {
    if events == [] || events[0].AcceptFailed? then 0
    else AcceptedBeforeFailure(events[1..]) + (if events[0].Connected? then 1 else 0)
  }

  /** One more pass of the accept loop over the events from `i` on. */
  lemma AcceptedNext(events: seq<AcceptEvent>, i: nat)
    requires i < |events|
    ensures AcceptedBeforeFailure(events[i..])
            == if events[i].AcceptFailed? then 0
               else AcceptedBeforeFailure(events[i + 1..]) + (if events[i].Connected? then 1 else 0)
  {
    assert events[i..][1..] == events[i + 1..];
  }

  /** Nothing after the first failed accept is taken: the loop has already left. */
  lemma {:induction false} AcceptedStopsAtFailure(before: seq<AcceptEvent>, message: string, after: seq<AcceptEvent>)
    requires forall i :: 0 <= i < |before| ==> !before[i].AcceptFailed?
    ensures AcceptedBeforeFailure(before + [AcceptFailed(message)] + after) == AcceptedBeforeFailure(before)
  {
    var events := before + [AcceptFailed(message)] + after;
    if before == [] {
      assert events[0] == AcceptFailed(message);
    } else {
      assert events[0] == before[0];
      assert events[1..] == before[1..] + [AcceptFailed(message)] + after;
      AcceptedStopsAtFailure(before[1..], message, after);
    }
  }

  /** The number of `Connected` events among `events`. */
  function CountConnected(events: seq<AcceptEvent>): nat {
    if events == [] then 0
    else CountConnected(events[1..]) + (if events[0].Connected? then 1 else 0)
  }

  /**
   * Until an accept fails, the loop takes exactly the connections it sees:
   * timeouts and finished clients are passed over.
   */
  lemma {:induction false} AcceptedCountsConnections(events: seq<AcceptEvent>)
    requires forall i :: 0 <= i < |events| ==> !events[i].AcceptFailed?
    ensures AcceptedBeforeFailure(events) == CountConnected(events)
  {
    if events != [] {
      assert !events[0].AcceptFailed?;
      assert forall i :: 0 <= i < |events[1..]| ==> events[1..][i] == events[i + 1];
      AcceptedCountsConnections(events[1..]);
    }
  }

  /** What a client handler does with one receipt: send a reply and go on, or hang up. */
  datatype StepResult = Reply(text: string, state: AgentState) | Hangup

  /**
   * One turn of the receive loop: a timeout sends the keepalive, a failed
   * receive or a chunk that strips to nothing ends the session, any other
   * chunk is one command.
   */
  function Serve(receipt: Receipt, view: OsView, s: AgentState): StepResult {
    match receipt
    case RecvTimeout => Reply(KEEPALIVE, s)
    case RecvFailed(_) => Hangup
    case Data(chunk) =>
      var data := Strip(chunk);
      if data == [] then Hangup
      else
        var o := Dispatch(data, s, view);
        Reply(o.response, o.state)
  }

  /**
   * The strings one client is sent and the agent state afterwards, for the
   * receipts of its connection and the operating-system view at each.
   */
  function Session(receipts: seq<Receipt>, views: seq<OsView>, s: AgentState): (r: (seq<string>, AgentState))
    requires |views| == |receipts|
    ensures |r.0| <= |receipts|
  {
    if receipts == [] then ([], s)
    else
      match Serve(receipts[0], views[0], s)
      case Hangup => ([], s)
      case Reply(text, next) =>
        var rest := Session(receipts[1..], views[1..], next);
        ([text] + rest.0, rest.1)
  }

  /** A session only ever appends valid times to the schedule. */
  lemma {:induction false} SessionKeepsLockTimes(receipts: seq<Receipt>, views: seq<OsView>, s: AgentState)
    requires |views| == |receipts|
    requires LockTimesValid(s.lockTimes)
    ensures var r := Session(receipts, views, s);
            LockTimesValid(r.1.lockTimes) && s.lockTimes <= r.1.lockTimes
  {
    if receipts != [] {
      var step := Serve(receipts[0], views[0], s);
      if step.Reply? {
        if receipts[0].Data? {
          DispatchKeepsLockTimes(Strip(receipts[0].chunk), s, views[0]);
        }
        SessionKeepsLockTimes(receipts[1..], views[1..], step.state);
      }
    }
  }

  /** Every receipt is answered: a session without hang-ups sends one string per receipt. */
  lemma {:induction false} SessionAnswersEachReceipt(receipts: seq<Receipt>, views: seq<OsView>, s: AgentState)
    requires |views| == |receipts|
    requires forall i :: 0 <= i < |receipts| ==> receipts[i].Data? ==> Strip(receipts[i].chunk) != []
    requires forall i :: 0 <= i < |receipts| ==> !receipts[i].RecvFailed?
    ensures |Session(receipts, views, s).0| == |receipts|
  {
    if receipts != [] {
      var step := Serve(receipts[0], views[0], s);
      SessionAnswersEachReceipt(receipts[1..], views[1..], step.state);
    }
  }

  /** `RemoteControlServer`. */
  class RemoteControlServer {
    const port: int
    const timeout: int
    var pcControl: PcTimeControl?
    var running: bool
    var serverSocket: Option<Handle>
    var clients: map<nat, ClientInfo>
    var clientIdCounter: nat

    /** Every registered id was issued by the counter. */
    ghost predicate Valid()
      reads this
    {
      forall id :: id in clients ==> id < clientIdCounter
    }

    constructor (port: int := DEFAULT_PORT, timeout: int := DEFAULT_TIMEOUT)
      ensures Valid()
      ensures this.port == port && this.timeout == timeout
      ensures pcControl == null && !running && serverSocket == None
      ensures clients == map[] && clientIdCounter == 0
    {
      this.port := port;
      this.timeout := timeout;
      pcControl := null;
      running := false;
      serverSocket := None;
      clients := map[];
      clientIdCounter := 0;
    }

    /**
     * The body of the accept loop for one connection: the new client gets the
     * current counter as its id, the counter moves on, and the entry is
     * stored. The id was never handed out before.
     */
    method Accept(socket: Handle, address: Address, thread: Handle) returns (clientId: nat)
      requires Valid()
      modifies this
      ensures Valid()
      ensures clientId == old(clientIdCounter) && clientIdCounter == old(clientIdCounter) + 1
      ensures clientId !in old(clients)
      ensures clients == old(clients)[clientId := ClientInfo(thread, socket, address)]
      ensures running == old(running) && serverSocket == old(serverSocket) && pcControl == old(pcControl)
    {
      clientId := clientIdCounter;
      clientIdCounter := clientIdCounter + 1;
      clients := clients[clientId := ClientInfo(thread, socket, address)];
    }

    /**
     * The `finally` block of a client handler: the handler's own socket is
     * closed, then its entry, if still there, goes.
     */
    method ClientFinished(clientId: nat, socket: Handle) returns (closed: Handle)
      requires Valid()
      modifies this
      ensures Valid()
      ensures closed == socket
      ensures clients == old(clients) - {clientId}
      ensures clientIdCounter == old(clientIdCounter)
      ensures running == old(running) && serverSocket == old(serverSocket) && pcControl == old(pcControl)
    {
      closed := socket;
      if clientId in clients {
        clients := clients - {clientId};
      }
    }

    /**
     * `stop_server`: clears the running flag, closes and forgets every
     * client, then closes and forgets the listening socket. Calling it again
     * closes nothing.
     */
    method StopServer() returns (closedClients: seq<Handle>, closedServer: Option<Handle>)
      requires Valid()
      modifies this
      ensures Valid()
      ensures !running && clients == map[] && serverSocket == None
      ensures |closedClients| == |old(clients)|
      ensures forall id :: id in old(clients) ==> old(clients)[id].socket in closedClients
      ensures forall h :: h in closedClients ==> exists id :: id in old(clients) && old(clients)[id].socket == h
      ensures closedServer == old(serverSocket)
      ensures clientIdCounter == old(clientIdCounter) && pcControl == old(pcControl)
    {
      running := false;
      closedClients := [];
      var pending := clients.Keys;
      while pending != {}
        invariant clients.Keys == pending
        invariant forall id :: id in clients ==> id in old(clients) && clients[id] == old(clients)[id]
        invariant |closedClients| + |pending| == |old(clients)|
        invariant forall id :: id in old(clients) && id !in pending ==> old(clients)[id].socket in closedClients
        invariant forall h :: h in closedClients ==> exists id :: id in old(clients) && old(clients)[id].socket == h
        invariant !running && clientIdCounter == old(clientIdCounter) && pcControl == old(pcControl)
        invariant serverSocket == old(serverSocket)
        decreases |pending|
      {
        var clientId :| clientId in pending;
        closedClients := closedClients + [clients[clientId].socket];
        clients := clients - {clientId};
        pending := pending - {clientId};
      }
      closedServer := serverSocket;
      serverSocket := None;
    }

    /**
     * `start_server` over the events of its listening socket: `bindFault` is
     * the exception opening the socket raises, if any. Connections get
     * consecutive ids from the counter until an accept fails; whatever ends
     * the loop, the server is stopped.
     */
    method StartServer(pc: PcTimeControl, listener: Handle, bindFault: Option<string>, events: seq<AcceptEvent>)
      returns (ids: seq<nat>)
      requires Valid()
      modifies this
      ensures Valid()
      ensures pcControl == pc
      ensures !running && clients == map[] && serverSocket == None
      ensures |ids| == (if bindFault.Some? then 0 else AcceptedBeforeFailure(events))
      ensures forall k :: 0 <= k < |ids| ==> ids[k] == old(clientIdCounter) + k
      ensures clientIdCounter == old(clientIdCounter) + |ids|
    {
      pcControl := pc;
      running := true;
      ids := [];
      if bindFault.None? {
        serverSocket := Some(listener);
        var i := 0;
        while running && i < |events|
          invariant 0 <= i <= |events|
          invariant Valid() && pcControl == pc
          invariant forall k :: 0 <= k < |ids| ==> ids[k] == old(clientIdCounter) + k
          invariant clientIdCounter == old(clientIdCounter) + |ids|
          invariant running ==> |ids| + AcceptedBeforeFailure(events[i..]) == AcceptedBeforeFailure(events)
          invariant !running ==> |ids| == AcceptedBeforeFailure(events)
          decreases |events| - i
        {
          AcceptedNext(events, i);
          match events[i] {
            case Connected(socket, address, thread) =>
              var clientId := Accept(socket, address, thread);
              ids := ids + [clientId];
            case AcceptTimeout =>
            case AcceptFailed(_) =>
              running := false;
            case ClientLeft(clientId, socket) =>
              var _ := ClientFinished(clientId, socket);
          }
          i := i + 1;
        }
      }
      var _, _ := StopServer();
    }

    /**
     * `process_command`: the branches of the agent's dispatcher, run against
     * the shared `PcTimeControl`. The new state, the answer and the
     * operating-system call are exactly those of `Dispatch`.
     */
    method ProcessCommand(command: string, os: OsView) returns (response: string, action: OsAction)
      requires pcControl != null && pcControl.Valid()
      modifies pcControl
      ensures pcControl.Valid()
      ensures Outcome(pcControl.State(), response, action) == Dispatch(command, old(pcControl.State()), os)
    {
      action := NoAction;
      if command == "LOCK" {
        var raised := pcControl.LockPc(os.fault);
        action := LockWorkstation;
        response := if raised.Some? then ErrorResponse(raised.value.message) else "PC Locked";
      } else if command == "SHUTDOWN" {
        action := Shutdown(SHUTDOWN_DELAY);
        response := AfterCall(os.fault, "PC Shutting down");
      } else if command == "GET_NAME" {
        response := os.nodeName;
      } else if command == "GET_STATUS" {
        var actualLocked := os.sessionLocked;
        if actualLocked != pcControl.isLocked {
          pcControl.isLocked := actualLocked;
        }
        response := if actualLocked then "LOCKED" else "UNLOCKED";
      } else if StartsWith(command, "MESSAGE:") {
        var msg := ArgumentOf(command, "MESSAGE:");
        action := ShowMessage(msg, MESSAGE_TITLE);
        response := AfterCall(os.fault, "Message sent");
      } else if StartsWith(command, "SET_LIMIT:") {
        response := ProcessSetLimit(ArgumentOf(command, "SET_LIMIT:"));
      } else if StartsWith(command, "ADD_LOCK_TIME:") {
        response := ProcessAddLockTime(ArgumentOf(command, "ADD_LOCK_TIME:"));
      } else if StartsWith(command, "EXTEND_TIME:") {
        response := ProcessExtendTime(ArgumentOf(command, "EXTEND_TIME:"));
      } else if command == "HELP" {
        response := HELP_TEXT;
      } else {
        response := UNKNOWN_COMMAND;
      }
    }

    /** The SET_LIMIT branch of `process_command`, given the text after the colon. */
    method ProcessSetLimit(arg: string) returns (response: string)
      requires pcControl != null && pcControl.Valid()
      modifies pcControl
      ensures pcControl.Valid()
      ensures Outcome(pcControl.State(), response, NoAction) == SetLimit(arg, old(pcControl.State()))
    {
      var minutes := ParseInt(arg);
      if minutes.Some? {
        pcControl.SetUsageLimit(minutes.value);
        response := "Usage limit set to " + IntToString(minutes.value) + " minutes";
      } else {
        response := INVALID_LIMIT;
      }
    }

    /**
     * The ADD_LOCK_TIME branch of `process_command`: two integer fields or the
     * format error; a ValueError from `datetime.time` is the format error too,
     * any other exception reaches the outer handler.
     */
    method ProcessAddLockTime(arg: string) returns (response: string)
      requires pcControl != null && pcControl.Valid()
      modifies pcControl
      ensures pcControl.Valid()
      ensures Outcome(pcControl.State(), response, NoAction) == AddLockTime(arg, old(pcControl.State()))
    {
      var parts := Split(arg, ':');
      if |parts| == 2 && ParseInt(parts[0]).Some? && ParseInt(parts[1]).Some? {
        var hour, minute := ParseInt(parts[0]).value, ParseInt(parts[1]).value;
        var raised := pcControl.AddScheduledLock(hour, minute);
        if raised == None {
          response := "Lock time added: " + FormatLockTime(TimeOfDay(hour, minute));
        } else if raised.value.ValueError? {
          response := INVALID_TIME_FORMAT;
        } else {
          response := ErrorResponse(raised.value.message);
        }
      } else {
        response := INVALID_TIME_FORMAT;
      }
    }

    /** The EXTEND_TIME branch of `process_command`: the limit grows in place when it is set and non-zero. */
    method ProcessExtendTime(arg: string) returns (response: string)
      requires pcControl != null && pcControl.Valid()
      modifies pcControl
      ensures pcControl.Valid()
      ensures Outcome(pcControl.State(), response, NoAction) == ExtendTime(arg, old(pcControl.State()))
    {
      var minutes := ParseInt(arg);
      ghost var before := pcControl.State();
      ExtendTimeOutcome(arg, before);
      if minutes.None? {
        response := INVALID_TIME_VALUE;
      } else if HasLimit(pcControl.usageLimit) {
        var extended := pcControl.usageLimit.value + minutes.value;
        pcControl.usageLimit := Some(extended);
        response := "Extended time by " + IntToString(minutes.value) + " minutes";
        assert pcControl.State() == before.(usageLimit := Some(extended));
      } else {
        response := NO_LIMIT_TO_EXTEND;
      }
    }

    /** One turn of the receive loop of `handle_client`, against the shared `PcTimeControl`. */
    method ServeReceipt(receipt: Receipt, view: OsView) returns (step: StepResult)
      requires pcControl != null && pcControl.Valid()
      modifies pcControl
      ensures pcControl.Valid()
      ensures step == Serve(receipt, view, old(pcControl.State()))
      ensures pcControl.State() == if step.Reply? then step.state else old(pcControl.State())
    {
      match receipt
      case RecvTimeout =>
        step := Reply(KEEPALIVE, pcControl.State());
      case RecvFailed(_) =>
        step := Hangup;
      case Data(chunk) =>
        var data := Strip(chunk);
        if data == [] {
          step := Hangup;
        } else {
          var response, _ := ProcessCommand(data, view);
          step := Reply(response, pcControl.State());
        }
    }

    /**
     * `handle_client` for one connection: while the server runs, each
     * receipt is answered as `Session` says; afterwards the handler's socket
     * is closed and the client's entry is removed.
     */
    method HandleClient(clientId: nat, socket: Handle, receipts: seq<Receipt>, views: seq<OsView>)
      returns (sent: seq<string>, closed: Handle)
      requires |views| == |receipts|
      requires Valid() && pcControl != null && pcControl.Valid()
      modifies this, pcControl
      ensures Valid() && pcControl == old(pcControl) && pcControl.Valid()
      ensures old(running) ==> (sent, pcControl.State()) == Session(receipts, views, old(pcControl.State()))
      ensures !old(running) ==> sent == [] && pcControl.State() == old(pcControl.State())
      ensures closed == socket && clients == old(clients) - {clientId}
      ensures clientIdCounter == old(clientIdCounter) && running == old(running) && serverSocket == old(serverSocket)
    {
      sent := [];
      var i := 0;
      var done := !running;
      ghost var goal := Session(receipts, views, pcControl.State());
      assert receipts[0..] == receipts && views[0..] == views;
      assert sent + goal.0 == goal.0;
      while !done
        invariant 0 <= i <= |receipts|
        invariant Valid() && pcControl == old(pcControl) && pcControl.Valid()
        invariant clients == old(clients) && clientIdCounter == old(clientIdCounter)
        invariant running == old(running) && serverSocket == old(serverSocket)
        invariant !old(running) ==> done && sent == [] && pcControl.State() == old(pcControl.State())
        invariant old(running) ==> goal == Session(receipts, views, old(pcControl.State()))
        invariant old(running) && !done ==>
                    var rest := Session(receipts[i..], views[i..], pcControl.State());
                    goal == (sent + rest.0, rest.1)
        invariant old(running) && done ==> (sent, pcControl.State()) == goal
        decreases |receipts| - i, !done
      {
        if i == |receipts| {
          assert sent + [] == sent;
          done := true;
        } else {
          assert receipts[i..][0] == receipts[i] && views[i..][0] == views[i];
          assert receipts[i..][1..] == receipts[i + 1..] && views[i..][1..] == views[i + 1..];
          var step := ServeReceipt(receipts[i], views[i]);
          if step.Hangup? {
            assert sent + [] == sent;
            done := true;
          } else {
            ghost var rest := Session(receipts[i + 1..], views[i + 1..], step.state);
            assert sent + ([step.text] + rest.0) == (sent + [step.text]) + rest.0;
            sent := sent + [step.text];
            i := i + 1;
          }
        }
      }
      closed := ClientFinished(clientId, socket);
    }
  }
}
