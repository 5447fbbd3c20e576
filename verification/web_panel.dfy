/**
 * The controller side, src/web_panel.py: the directory of agents a scan of
 * the local /24 finds, how each agent is named, how a dashboard action
 * becomes one protocol command, and how a status reply becomes the
 * directory's `locked` flag. The network is a set of oracles indexed by the
 * dotted address string, the key the directory uses.
 */
module WebPanel {
  import opened Builtins
  import opened TimeControl
  import opened CommandProtocol

  type Octet = x: int | 0 <= x < 256

  datatype Ipv4 = Ipv4(a: Octet, b: Octet, c: Octet, d: Octet)

  /** `str(ip)`: dotted decimal, no leading zeros. */
  function IpToString(ip: Ipv4): string {
    NatToString(ip.a) + "." + NatToString(ip.b) + "." + NatToString(ip.c) + "." + NatToString(ip.d)
  }

  /** Both addresses lie in the same /24 network. */
  predicate SameNetwork24(x: Ipv4, y: Ipv4) {
    x.a == y.a && x.b == y.b && x.c == y.c
  }

  /**
   * `ip_network(f"{local_ip}/24", strict=False).hosts()`: the addresses of
   * the local /24 in ascending order, without the network and broadcast
   * addresses.
   */
  function CandidateHosts(local: Ipv4): (hosts: seq<Ipv4>)
    ensures |hosts| == 254
    ensures forall i :: 0 <= i < |hosts| ==> hosts[i].d == i + 1 && SameNetwork24(hosts[i], local)
  {
    seq(254, i requires 0 <= i < 254 => Ipv4(local.a, local.b, local.c, i + 1))
  }

  /** An address is a candidate exactly when it is a usable host of the local /24. */
  lemma CandidateHostsExact(local: Ipv4, h: Ipv4)
    ensures h in CandidateHosts(local) <==> SameNetwork24(h, local) && h.d != 0 && h.d != 255
  {
    var hosts := CandidateHosts(local);
    if SameNetwork24(h, local) && h.d != 0 && h.d != 255 {
      assert hosts[h.d - 1] == h;
    }
  }

  /** Every candidate occurs once, in ascending order of its last octet. */
  lemma CandidateHostsAscending(local: Ipv4, i: int, j: int)
    requires 0 <= i < j < 254
    ensures CandidateHosts(local)[i].d < CandidateHosts(local)[j].d
    ensures IpToString(CandidateHosts(local)[i]) != IpToString(CandidateHosts(local)[j])
  {
    var x, y := CandidateHosts(local)[i], CandidateHosts(local)[j];
    var p := NatToString(x.a) + "." + NatToString(x.b) + "." + NatToString(x.c) + ".";
    assert IpToString(x) == p + NatToString(x.d) && IpToString(y) == p + NatToString(y.d);
    assert IpToString(x)[|p|..] == NatToString(x.d) && IpToString(y)[|p|..] == NatToString(y.d);
    assert NatToString(x.d) != NatToString(y.d);
  }

  /**
   * `hostname.split('.')[0].upper()`: the text before the first dot (all of
   * it when there is none), in capitals.
   */
  function FirstLabelUpper(dnsName: string): (name: string)
    ensures |name| <= |dnsName| && '.' !in name
    ensures '.' !in dnsName[..|name|] && (|name| == |dnsName| || dnsName[|name|] == '.')
    ensures name == Upper(dnsName[..|name|])
  {
    var parts := Split(dnsName, '.');
    var first := parts[0];
    assert dnsName[..|first|] == first && (|first| == |dnsName| || dnsName[|first|] == '.') by {
      if |parts| > 1 {
        assert dnsName == first + ['.'] + Join(parts[1..], '.');
      } else {
        assert dnsName == first;
      }
    }
    UpperKeepsOthers(first, '.');
    Upper(first)
  }

  /** The name `check_host` shows when every other source fails. */
  function FallbackName(ip: string): string {
    "PC at " + ip
  }

  /**
   * The name `check_host` gives a responding agent: a non-empty entry of
   * the custom-names table, else the agent's stripped non-empty GET_NAME
   * reply (`nameReply` is None when that query raises), else the upper-cased
   * first label of the reverse-DNS name (`reverseDns` is None when the
   * lookup raises), else the fallback.
   */
  function DisplayName(ip: string, customNames: map<string, string>, nameReply: Option<string>, reverseDns: Option<string>): string {
    if ip in customNames && customNames[ip] != [] then customNames[ip]
    else if nameReply.Some? && Strip(nameReply.value) != [] then Strip(nameReply.value)
    else if reverseDns.Some? then FirstLabelUpper(reverseDns.value)
    else FallbackName(ip)
  }

  /** The four sources are tried in a fixed order, each used only when all earlier ones fail. */
  lemma DisplayNameOrder(ip: string, customNames: map<string, string>, nameReply: Option<string>, reverseDns: Option<string>)
    ensures var name := DisplayName(ip, customNames, nameReply, reverseDns);
            && (ip in customNames && customNames[ip] != [] ==> name == customNames[ip])
            && ((ip !in customNames || customNames[ip] == []) && nameReply.Some? && Strip(nameReply.value) != [] ==>
                  name == Strip(nameReply.value))
            && ((ip !in customNames || customNames[ip] == []) && (nameReply.None? || Strip(nameReply.value) == []) ==>
                  name == if reverseDns.Some? then FirstLabelUpper(reverseDns.value) else FallbackName(ip))
  {
  }

  /**
   * The name is empty only when the reverse-DNS name starts with a dot or
   * is empty: a non-empty first label, or a failed lookup, gives a name.
   */
  lemma DisplayNameNonEmpty(ip: string, customNames: map<string, string>, nameReply: Option<string>, reverseDns: Option<string>)
    requires reverseDns.Some? ==> Split(reverseDns.value, '.')[0] != []
    ensures DisplayName(ip, customNames, nameReply, reverseDns) != []
  {
    if reverseDns.Some? {
      assert |FirstLabelUpper(reverseDns.value)| == |Split(reverseDns.value, '.')[0]|;
    } else {
      assert |FallbackName(ip)| > 0;
    }
  }

  /** An agent with no custom name is shown under the host name its GET_NAME answer carries. */
  lemma AgentNameShown(ip: string, customNames: map<string, string>, s: AgentState, os: OsView, reverseDns: Option<string>)
    requires ip !in customNames
    requires os.nodeName != [] && !IsSpace(os.nodeName[0]) && !IsSpace(os.nodeName[|os.nodeName| - 1])
    ensures DisplayName(ip, customNames, Some(Dispatch("GET_NAME", s, os).response), reverseDns) == os.nodeName
  {
    ReadOnlyCommands([], s, os);
    assert Strip(os.nodeName) == os.nodeName by { StripUnpadded(os.nodeName); }
  }

  /** A directory entry: the dict `check_host` stores per agent. */
  datatype PcEntry = PcEntry(hostname: string, status: string, locked: bool, lastSeen: Option<Instant>)

  /**
   * What the network answers during a scan, per address string: the
   * `connect_ex` result, the raw GET_NAME reply (None if that exchange
   * raises), the reverse-DNS name (None if the lookup raises), and the
   * clock reading when the entry is made.
   */
  datatype Network = Network(
    connectResult: string -> int,
    nameReply: string -> Option<string>,
    reverseDns: string -> Option<string>,
    clock: string -> Instant)

  /** The entry `check_host` makes for an agent that answered. */
  function Discovered(ip: string, customNames: map<string, string>, net: Network): PcEntry {
    PcEntry(DisplayName(ip, customNames, net.nameReply(ip), net.reverseDns(ip)), "online", false, Some(net.clock(ip)))
  }

  /** The address strings of `hosts`, in order: the `str(ip)` the scan hands to `check_host`. */
  function HostAddresses(hosts: seq<Ipv4>): (addrs: seq<string>)
    ensures |addrs| == |hosts|
    ensures forall i :: 0 <= i < |hosts| ==> addrs[i] == IpToString(hosts[i])
  {
    seq(|hosts|, i requires 0 <= i < |hosts| => IpToString(hosts[i]))
  }

  /**
   * The directory that probing `addrs` one after another produces: an
   * answering address gets the entry `check_host` makes for it.
   */
  function ScanOf(addrs: seq<string>, customNames: map<string, string>, net: Network): map<string, PcEntry> {
    if addrs == [] then map[]
    else
      var earlier := ScanOf(addrs[..|addrs| - 1], customNames, net);
      var ip := addrs[|addrs| - 1];
      if net.connectResult(ip) == 0 then earlier[ip := Discovered(ip, customNames, net)] else earlier
  }

  /** Probing one more address extends the scan of the addresses before it. */
  lemma ScanOfNext(addrs: seq<string>, i: nat, customNames: map<string, string>, net: Network)
    requires i < |addrs|
    ensures ScanOf(addrs[..i + 1], customNames, net)
            == if net.connectResult(addrs[i]) == 0
               then ScanOf(addrs[..i], customNames, net)[addrs[i] := Discovered(addrs[i], customNames, net)]
               else ScanOf(addrs[..i], customNames, net)
  {
    assert addrs[..i + 1][..i] == addrs[..i];
  }

  /** The directory a scan of `hosts` produces. */
  function ScanResult(hosts: seq<Ipv4>, customNames: map<string, string>, net: Network): map<string, PcEntry> {
    ScanOf(HostAddresses(hosts), customNames, net)
  }

  /**
   * A scan holds an entry for an address exactly when that address was
   * probed and its connect succeeded, and the entry is the one `check_host`
   * makes, whatever the order of the probes.
   */
  lemma {:induction false} ScanOfEntries(addrs: seq<string>, customNames: map<string, string>, net: Network, ip: string)
    ensures ip in ScanOf(addrs, customNames, net) <==> ip in addrs && net.connectResult(ip) == 0
    ensures ip in ScanOf(addrs, customNames, net) ==> ScanOf(addrs, customNames, net)[ip] == Discovered(ip, customNames, net)
  {
    if addrs != [] {
      var earlier := addrs[..|addrs| - 1];
      ScanOfEntries(earlier, customNames, net, ip);
      assert addrs == earlier + [addrs[|addrs| - 1]];
    }
  }

  /**
   * What a scan leaves: exactly the candidates that answered, each named by
   * `DisplayName`, marked online and unlocked.
   */
  lemma ScanResultContents(local: Ipv4, customNames: map<string, string>, net: Network, ip: string)
    ensures var pcs := ScanResult(CandidateHosts(local), customNames, net);
            && (ip in pcs <==> (exists h :: h in CandidateHosts(local) && IpToString(h) == ip) && net.connectResult(ip) == 0)
            && (ip in pcs ==>
                  && pcs[ip].hostname == DisplayName(ip, customNames, net.nameReply(ip), net.reverseDns(ip))
                  && pcs[ip].status == "online" && !pcs[ip].locked)
  {
    var hosts := CandidateHosts(local);
    var addrs := HostAddresses(hosts);
    ScanOfEntries(addrs, customNames, net, ip);
    if ip in addrs {
      var i :| 0 <= i < |addrs| && addrs[i] == ip;
      assert hosts[i] in hosts;
    }
    if exists h :: h in hosts && IpToString(h) == ip {
      var h :| h in hosts && IpToString(h) == ip;
      var i :| 0 <= i < |hosts| && hosts[i] == h;
      assert addrs[i] == ip;
    }
  }

  /** `check_pc_status`: the stripped reply to GET_STATUS, or "UNKNOWN" when the exchange raises. */
  function CheckPcStatus(reply: Option<string>): string {
    if reply.Some? then Strip(reply.value) else "UNKNOWN"
  }

  /** `status == "LOCKED"`. */
  predicate IsLockedStatus(status: string) {
    status == "LOCKED"
  }

  /** The dashboard shows an agent as locked exactly when its GET_STATUS answer says so; a failed query shows it unlocked. */
  lemma StatusMapping(s: AgentState, os: OsView)
    ensures IsLockedStatus(CheckPcStatus(Some(Dispatch("GET_STATUS", s, os).response))) <==> os.sessionLocked
    ensures !IsLockedStatus(CheckPcStatus(None))
  {
    StatusAndLockCommands(s, os);
    StripUnpadded("LOCKED");
    StripUnpadded("UNLOCKED");
  }

  /** A JSON body posted to `/action`: the address, the action name and the other fields, as text. */
  datatype ActionRequest = ActionRequest(ip: string, action: string, fields: map<string, string>)

  /** `data.get(key, default)`. */
  function FieldOr(req: ActionRequest, key: string, default: string): string {
    if key in req.fields then req.fields[key] else default
  }

  const DEFAULT_MESSAGE: string := ""
  const DEFAULT_MINUTES: string := "120"
  const DEFAULT_LOCK_TIME: string := "21:00"
  const UNKNOWN_ACTION: string := "Unknown action"

  /** The command line `action()` sends for a request, or None for an unknown action. */
  function ActionCommand(req: ActionRequest): Option<string> {
    if req.action == "lock" then Some("LOCK")
    else if req.action == "shutdown" then Some("SHUTDOWN")
    else if req.action == "message" then Some("MESSAGE:" + FieldOr(req, "message", DEFAULT_MESSAGE))
    else if req.action == "set_limit" then Some("SET_LIMIT:" + FieldOr(req, "minutes", DEFAULT_MINUTES))
    else if req.action == "add_lock_time" then Some("ADD_LOCK_TIME:" + FieldOr(req, "time", DEFAULT_LOCK_TIME))
    else None
  }

  /** The five actions send five different commands, each one the agent knows. */
  lemma ActionCommandKnown(req: ActionRequest)
    ensures ActionCommand(req).Some? <==> req.action in {"lock", "shutdown", "message", "set_limit", "add_lock_time"}
    ensures ActionCommand(req).Some? ==> IsKnownCommand(ActionCommand(req).value)
  {
    var cmd := ActionCommand(req);
    if req.action == "message" {
      assert cmd.value[..8] == "MESSAGE:";
    } else if req.action == "set_limit" {
      assert cmd.value[..10] == "SET_LIMIT:";
    } else if req.action == "add_lock_time" {
      assert cmd.value[..14] == "ADD_LOCK_TIME:";
    }
  }

  /** A set_limit action with minutes `str(n)` sets the agent's limit to n. */
  lemma SetLimitActionRoundTrip(ip: string, n: int, fields: map<string, string>, s: AgentState, os: OsView)
    requires |NatToString(if n < 0 then -n else n)| <= MAX_STR_DIGITS
    requires fields == map["minutes" := IntToString(n)]
    ensures var cmd := ActionCommand(ActionRequest(ip, "set_limit", fields));
            cmd.Some? && Dispatch(cmd.value, s, os).state == s.(usageLimit := Some(n))
  {
    SetLimitRoundTrip(n, s, os);
  }

  /** The default minutes text reads as 120. */
  lemma DefaultMinutesValue()
    ensures ParseInt(DEFAULT_MINUTES) == Some(120)
  {
    assert DigitsValue("120") == 120 by {
      assert "120"[..2] == "12" && "12"[..1] == "1";
    }
    ParseIntDigits("120");
  }

  /** A set_limit action without minutes gives the agent a limit of 120 minutes. */
  lemma SetLimitActionDefault(ip: string, s: AgentState, os: OsView)
    ensures var cmd := ActionCommand(ActionRequest(ip, "set_limit", map[]));
            cmd.Some? && Dispatch(cmd.value, s, os).state == s.(usageLimit := Some(120))
  {
    var cmd := ActionCommand(ActionRequest(ip, "set_limit", map[]));
    assert cmd == Some("SET_LIMIT:" + DEFAULT_MINUTES);
    assert ParseInt(DEFAULT_MINUTES) == Some(120) by { DefaultMinutesValue(); }
    SetLimitCommand(DEFAULT_MINUTES, s, os);
  }

  lemma DefaultLockTimeText()
    ensures FormatLockTime(TimeOfDay(21, 0)) == DEFAULT_LOCK_TIME
  {
    assert NatToString(21) == NatToString(2) + [DigitChar(1)];
    assert ZeroPad2(21) == "21" && ZeroPad2(0) == "00";
  }

  /** An add_lock_time action without a time schedules a lock at 21:00. */
  lemma AddLockTimeActionDefault(ip: string, s: AgentState, os: OsView)
    ensures var cmd := ActionCommand(ActionRequest(ip, "add_lock_time", map[]));
            cmd.Some? && Dispatch(cmd.value, s, os).state == s.(lockTimes := s.lockTimes + [TimeOfDay(21, 0)])
  {
    var t := TimeOfDay(21, 0);
    var cmd := ActionCommand(ActionRequest(ip, "add_lock_time", map[]));
    assert cmd == Some("ADD_LOCK_TIME:" + DEFAULT_LOCK_TIME);
    assert FormatLockTime(t) == DEFAULT_LOCK_TIME by { DefaultLockTimeText(); }
    AddLockTimeRoundTrip(t, s, os);
  }

  /** What `send_command` returns: the decoded reply, or the text of the exception. */
  datatype SendResult = Delivered(reply: string) | SendFailed(error: string)

  /** The module-level state of the panel: the directory and the time of the last scan. */
  class Controller {
    var discoveredPcs: map<string, PcEntry>
    var lastScanTime: Option<Instant>

    constructor ()
      ensures discoveredPcs == map[] && lastScanTime == None
    {
      discoveredPcs := map[];
      lastScanTime := None;
    }

    /**
     * `scan_for_servers`: the directory is emptied, then every candidate of
     * the local /24 is probed in turn (the source probes them in parallel
     * threads) and those that answered are entered. Entries from earlier
     * scans never survive.
     */
    method ScanForServers(local: Ipv4, customNames: map<string, string>, net: Network, finishedAt: Instant)
      returns (pcs: map<string, PcEntry>)
      modifies this
      ensures discoveredPcs == ScanResult(CandidateHosts(local), customNames, net)
      ensures pcs == discoveredPcs && lastScanTime == Some(finishedAt)
    {
      var hosts := CandidateHosts(local);
      ghost var addrs := HostAddresses(hosts);
      discoveredPcs := map[];
      for i := 0 to |hosts|
        invariant discoveredPcs == ScanOf(addrs[..i], customNames, net)
      {
        var ip := IpToString(hosts[i]);
        ScanOfNext(addrs, i, customNames, net);
        if net.connectResult(ip) == 0 {
          discoveredPcs := discoveredPcs[ip := Discovered(ip, customNames, net)];
        }
      }
      assert addrs[..|hosts|] == addrs;
      lastScanTime := Some(finishedAt);
      pcs := discoveredPcs;
    }

    /**
     * The status refresh at the top of `index()`: every entry's `locked`
     * becomes whether its agent now answers LOCKED; `statusReply` is that
     * agent's raw GET_STATUS reply, None when the exchange raises.
     */
    method RefreshLockStatus(statusReply: string -> Option<string>)
      modifies this
      ensures discoveredPcs.Keys == old(discoveredPcs).Keys
      ensures forall ip :: ip in discoveredPcs ==>
                discoveredPcs[ip] == old(discoveredPcs)[ip].(locked := IsLockedStatus(CheckPcStatus(statusReply(ip))))
      ensures lastScanTime == old(lastScanTime)
    {
      var pending := discoveredPcs.Keys;
      while pending != {}
        invariant pending <= discoveredPcs.Keys && discoveredPcs.Keys == old(discoveredPcs).Keys
        invariant forall ip :: ip in pending ==> discoveredPcs[ip] == old(discoveredPcs)[ip]
        invariant forall ip :: ip in discoveredPcs && ip !in pending ==>
                    discoveredPcs[ip] == old(discoveredPcs)[ip].(locked := IsLockedStatus(CheckPcStatus(statusReply(ip))))
        invariant lastScanTime == old(lastScanTime)
        decreases |pending|
      {
        var ip :| ip in pending;
        var status := CheckPcStatus(statusReply(ip));
        discoveredPcs := discoveredPcs[ip := discoveredPcs[ip].(locked := status == "LOCKED")];
        pending := pending - {ip};
      }
    }

    /**
     * `control(ip)`: the page's view of one agent, with `locked` refreshed.
     * For a known agent the view is the directory's own entry, so the
     * directory changes with it; for an unknown one a placeholder is shown
     * and the directory is left alone.
     */
    method ControlView(ip: string, statusReply: Option<string>) returns (info: PcEntry)
      modifies this
      ensures var locked := IsLockedStatus(CheckPcStatus(statusReply));
              && (ip in old(discoveredPcs) ==>
                    && info == old(discoveredPcs)[ip].(locked := locked)
                    && discoveredPcs == old(discoveredPcs)[ip := info])
              && (ip !in old(discoveredPcs) ==>
                    && info == PcEntry("Unknown", "unknown", locked, None)
                    && discoveredPcs == old(discoveredPcs))
      ensures lastScanTime == old(lastScanTime)
    {
      var status := CheckPcStatus(statusReply);
      if ip in discoveredPcs {
        info := discoveredPcs[ip].(locked := status == "LOCKED");
        discoveredPcs := discoveredPcs[ip := info];
      } else {
        info := PcEntry("Unknown", "unknown", status == "LOCKED", None);
      }
    }

    /**
     * `action()`: sends the command the request maps to, if any, and answers
     * with `send_command`'s result; an unknown action sends nothing. Only a
     * delivered lock of a known agent changes the directory: that entry is
     * marked locked.
     */
    method Action(req: ActionRequest, result: SendResult) returns (success: bool, response: string, sent: Option<string>)
      modifies this
      ensures sent == ActionCommand(req)
      ensures sent.None? ==> !success && response == UNKNOWN_ACTION
      ensures sent.Some? ==> success == result.Delivered? &&
                             response == if result.Delivered? then result.reply else result.error
      ensures discoveredPcs == if req.action == "lock" && result.Delivered? && req.ip in old(discoveredPcs)
                               then old(discoveredPcs)[req.ip := old(discoveredPcs)[req.ip].(locked := true)]
                               else old(discoveredPcs)
      ensures lastScanTime == old(lastScanTime)
    {
      sent := ActionCommand(req);
      if sent.None? {
        success, response := false, UNKNOWN_ACTION;
      } else {
        success := result.Delivered?;
        response := if result.Delivered? then result.reply else result.error;
        if req.action == "lock" && success && req.ip in discoveredPcs {
          discoveredPcs := discoveredPcs[req.ip := discoveredPcs[req.ip].(locked := true)];
        }
      }
    }
  }
}
