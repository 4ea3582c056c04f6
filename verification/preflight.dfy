/** The pre-flight check run before auto-configuration: ping the router,
    open an SSH session on the form's port, read the firmware version,
    optionally look for the CA key, inspect the OpenVPN tunnel interface
    and the port-forward rule, and turn the two common connection errors
    into readable messages. The commands it runs come from builders this
    model does not define, so they are parameters; the router's answers
    come from the `World`. */
module Preflight {
  import opened Wrappers
  import opened Strings
  import opened Js
  import opened VpnConfig
  import opened SshUtils

  /** One progress update: a new status line, or text appended to the last one. */
  datatype Status = Status(text: string, append: bool)

  function Say(text: string): Status {
    Status(text, false)
  }

  function Add(text: string): Status {
    Status(text, true)
  }

  /** The status updates shown, the effects attempted, and the message
      thrown, if any. */
  datatype Flow = Flow(log: seq<Status>, trace: seq<Effect>, error: Option<string>)

  /** `await a; …b`: `b` only runs when `a` did not throw. */
  function Then(a: Flow, b: Flow): Flow {
    if a.error.Some? then a else Flow(a.log + b.log, a.trace + b.trace, b.error)
  }

  /** The commands the check runs, built by functions outside this model. */
  datatype CheckCommands = CheckCommands(firmware: string, tunnelInterface: string, pushRoute: string,
                                         portForward: string, forwardTo: string -> string)

  // ---------------------------------------------------------------------------
  // Ping and connect
  // ---------------------------------------------------------------------------

  function NotReachable(host: string): string {
    "host " + host + " not reachable"
  }

  function PingStep(c: SshConfigs, alive: bool): (f: Flow)
    ensures f.trace == []
    ensures f.error.Some? <==> !alive
  {
    Flow([Say("Pinging remote host " + c.sshServer + "..."), Add(" done")], [],
         if alive then None else Some(NotReachable(c.sshServer)))
  }

  /** The connect of the check uses the port as the form holds it, and the
      status line names it in the same form: typed text stays as typed. */
  function ConnectStep(w: World, c: SshConfigs): (f: Flow)
    ensures f.trace == [Connect(c.sshServer, c.sshUsername, c.sshPort)]
    ensures f.error == w.fails(Connect(c.sshServer, c.sshUsername, c.sshPort))
    ensures |f.log| >= 1 && !f.log[0].append
    ensures c.sshPort.PortText? ==> EndsWith(f.log[0].text, " on port " + c.sshPort.s + " with given credential...")
    ensures f.error.None? <==> |f.log| == 2
  {
    var e := Connect(c.sshServer, c.sshUsername, c.sshPort);
    var trying := Say("Trying ssh to remote host " + c.sshServer + " on port " + PortString(c.sshPort)
                      + " with given credential...");
    match w.fails(e)
    case Some(m) => Flow([trying], [e], Some(m))
    case None => Flow([trying, Add(" done")], [e], None)
  }

  // ---------------------------------------------------------------------------
  // Firmware
  // ---------------------------------------------------------------------------

  const TooOldText := "Firmware version is too old. " + "Please update to latest firmware."

  /** `Number(firmwareVersion) < 1.8`, where the version is `null` when the
      command wrote to stderr. */
  predicate FirmwareTooOld(version: Option<string>) {
    Below(ToNumberOrNull(version), 1.8)
  }

  /** How `${x}` shows a string that may be `null`. */
  function ShowNullable(x: Option<string>): string {
    x.GetOr("null")
  }

  function FirmwareStep(w: World, cmds: CheckCommands): (f: Flow)
    ensures f.trace == [ExecCommand(cmds.firmware)]
    ensures f.error.Some? <==> (w.fails(ExecCommand(cmds.firmware)).Some?
      || FirmwareTooOld(if w.exec(cmds.firmware).stderr != "" then None else Some(w.exec(cmds.firmware).stdout)))
  {
    var d := ExecuteCommand(w, cmds.firmware, false);
    var checking := [Say("Check firmware version")];
    if d.result.Failure? then Flow(checking, d.trace, Some(d.result.error))
    else
      var v := d.result.value.value;
      Flow(checking + [Say("Firmware version is: " + ShowNullable(v))], d.trace,
           if FirmwareTooOld(v) then Some(TooOldText) else None)
  }

  /** A digit run followed by a non-digit has exactly that length. */
  lemma {:induction false} DigitRunStops(a: string, rest: string)
    requires AllDigits(a) && |rest| > 0 && !IsDigit(rest[0])
    ensures DigitRunLength(a + rest) == |a|
    decreases |a|
  {
    if |a| > 0 {
      assert (a + rest)[1..] == a[1..] + rest;
      assert IsDigit((a + rest)[0]);
      DigitRunStops(a[1..], rest);
    } else {
      assert a + rest == rest;
    }
  }

  /** A text that is digits, a dot and digits splits at the dot into its
      whole digits and its fraction digits. */
  lemma SplitVersion(s: string, i: nat)
    requires i < |s| && AllDigits(s[..i]) && s[i] == '.' && AllDigits(s[i + 1..])
    ensures SplitDecimal(s) == DecimalParts(s[..i], s[i + 1..], "")
  {
    var a, tail, b := s[..i], s[i..], s[i + 1..];
    assert s == a + tail;
    DigitRunStops(a, tail);
    assert s[..|a|] == a && s[|a|..] == tail;
    assert tail[1..] == b;
    DigitRunOfDigits(b);
    assert b[..|b|] == b && b[|b|..] == "";
  }

  /** A version written as a non-empty digit run, a dot and a digit run
      reads as its whole part plus its fraction. */
  lemma VersionNumber(s: string, i: nat)
    requires 0 < i < |s| && AllDigits(s[..i]) && s[i] == '.' && AllDigits(s[i + 1..])
    ensures ToNumber(s) == Finite(Mantissa(s[..i], s[i + 1..]))
  {
    assert IsDigit(s[..i][0]);
    assert IsDigit(s[0]);
    assert !IsJsSpace(s[|s| - 1]) by {
      if i + 1 < |s| {
        assert IsDigit(s[i + 1..][|s| - i - 2]);
      }
    }
    TrimUnpadded(s);
    SplitVersion(s, i);
    assert !(|s| >= 2 && s[0] == '0' && s[1] in "xXoObB") by {
      if i > 1 {
        assert IsDigit(s[..i][1]);
      }
    }
    UnsignedNumber(s, Mantissa(s[..i], s[i + 1..]));
  }

  /** A trimmed text that starts with a digit and is not a radix literal is
      worth what it parses to as an unsigned decimal. */
  lemma UnsignedNumber(s: string, r: real)
    requires |s| > 0 && IsDigit(s[0]) && Trim(s) == s
    requires !(|s| >= 2 && s[0] == '0' && s[1] in "xXoObB")
    requires ParseUnsignedDecimal(s) == Some(r)
    ensures ToNumber(s) == Finite(r)
  {
    assert s != "Infinity" by {
      assert !IsDigit('I');
    }
  }

  /** The firmware gate on a number that was read. */
  lemma GateOfNumber(v: string, r: real)
    requires ToNumber(v) == Finite(r)
    ensures FirmwareTooOld(Some(v)) <==> r < 1.8
  {
  }

  /** One digit before and one after the dot. */
  lemma OneDigitMantissa(whole: string, fraction: string)
    requires |whole| == 1 && IsDigit(whole[0]) && |fraction| == 1 && IsDigit(fraction[0])
    ensures Mantissa(whole, fraction) == DigitValue(whole[0]) as real + DigitValue(fraction[0]) as real / 10.0
  {
    assert DigitsValue(whole) == 10 * DigitsValue(whole[..0]) + DigitValue(whole[0]);
    assert DigitsValue(fraction) == 10 * DigitsValue(fraction[..0]) + DigitValue(fraction[0]);
    assert Pow10(1) == 10.0;
  }

  /** A version `x.y` with one digit on each side is too old exactly when
      xy, read as a two-digit number, is below 18: 1.6 is rejected and 1.8
      accepted. */
  lemma ShortVersionGate(v: string)
    requires |v| == 3 && IsDigit(v[0]) && v[1] == '.' && IsDigit(v[2])
    ensures FirmwareTooOld(Some(v)) <==> 10 * DigitValue(v[0]) + DigitValue(v[2]) < 18
  {
    var whole, fraction := v[..1], v[2..];
    VersionNumber(v, 1);
    OneDigitMantissa(whole, fraction);
    GateOfNumber(v, Mantissa(whole, fraction));
  }

  /** Version 1.10 reads as the number 1.1, so it counts as too old. */
  lemma FirmwareTenIsTooOld(v: string)
    requires |v| == 4 && v[0] == '1' && v[1] == '.' && v[2] == '1' && v[3] == '0'
    ensures FirmwareTooOld(Some(v))
  {
    var whole, fraction := v[..1], v[2..];
    VersionNumber(v, 1);
    TenMantissa(whole, fraction);
    GateOfNumber(v, Mantissa(whole, fraction));
  }

  /** The digits 1 and 10 on either side of the dot make 1.1. */
  lemma TenMantissa(whole: string, fraction: string)
    requires |whole| == 1 && whole[0] == '1' && |fraction| == 2 && fraction[0] == '1' && fraction[1] == '0'
    ensures Mantissa(whole, fraction) == 1.1
  {
    assert DigitsValue(whole) == 10 * DigitsValue(whole[..0]) + 1;
    assert DigitsValue(fraction[..1]) == 10 * DigitsValue(fraction[..1][..0]) + 1;
    assert DigitsValue(fraction) == 10 * DigitsValue(fraction[..1]) + 0;
    assert Pow10(2) == 100.0;
  }

  /** No answer reads as 0 and is too old, while a version reported with a
      leading letter (`v1.9`, say) is not a number, compares false and
      passes. */
  lemma FirmwareNonNumbers(v: string)
    requires |v| > 0 && 'a' <= v[0] <= 'z' && !IsJsSpace(v[|v| - 1])
    ensures FirmwareTooOld(None)
    ensures !FirmwareTooOld(Some(v))
  {
    assert ToNumber(v) == NaN by {
      assert !IsJsSpace(v[0]);
      TrimUnpadded(v);
      assert !IsDigit(v[0]);
      assert DigitRunLength(v) == 0;
      assert v != "Infinity" by {
        assert "Infinity"[0] == 'I';
      }
    }
  }

  // ---------------------------------------------------------------------------
  // CA key
  // ---------------------------------------------------------------------------

  const NoCaKeyText := "No ca key file found on router"

  /** When the router's CA key is to be reused, `ca.key` must be in the
      default directory. */
  function CaKeyStep(w: World, useExistingRouterCAKey: bool): (f: Flow)
    ensures !useExistingRouterCAKey ==> f == Flow([], [], None)
    ensures useExistingRouterCAKey ==>
      (f.error.Some? <==> w.fails(ExecCommand("ls " + DefaultConfigDir + "/" + "ca.key")).Some?
                          || w.exec("ls " + DefaultConfigDir + "/" + "ca.key").stderr != "")
  {
    if !useExistingRouterCAKey then Flow([], [], None)
    else
      var d := FileExists(w, "ca.key", DefaultConfigDir);
      var checking := [Say("Check Router CA key exists...")];
      if d.result.Failure? then Flow(checking, d.trace, Some(d.result.error))
      else
        Flow(checking + [Add(if d.result.value then " Yes" else " No")], d.trace,
             if d.result.value then None else Some(NoCaKeyText))
  }

  // ---------------------------------------------------------------------------
  // Tunnel interface
  // ---------------------------------------------------------------------------

  const PushRouteText := "openvpn virtual tunnel interface config exists "
    + "but push-route not set correctly!"

  function InterfaceStep(w: World, cmds: CheckCommands): Flow {
    var checking := [Say("Checking if openvpn virtual tunnel interface is set...")];
    var d := ExecuteWithReturnCode(w, cmds.tunnelInterface);
    if d.result.Failure? then Flow(checking, d.trace, Some(d.result.error))
    else if d.result.value == Some(1) then
      Flow(checking + [Say("openvpn virtual tunnel interface is not configurated.")], d.trace, None)
    else
      var d2 := ExecuteWithReturnCode(w, cmds.pushRoute);
      if d2.result.Failure? then Flow(checking, d.trace + d2.trace, Some(d2.result.error))
      else if d2.result.value == Some(1) then Flow(checking, d.trace + d2.trace, Some(PushRouteText))
      else Flow(checking + [Say("openvpn virtual tunnel interface set correctly.")], d.trace + d2.trace, None)
  }

  /** Exit code 1 from the interface command means no tunnel yet: only
      reported, and the push-route command is not run. */
  lemma NoTunnelIsInformational(w: World, cmds: CheckCommands)
    requires w.fails(ExecCommand(cmds.tunnelInterface)).None? && w.exec(cmds.tunnelInterface).code == Some(1)
    ensures InterfaceStep(w, cmds).error.None?
    ensures InterfaceStep(w, cmds).trace == [ExecCommand(cmds.tunnelInterface)]
  {
  }

  /** With a tunnel present, the step fails exactly when the push-route
      command exits with 1 (or either command throws). */
  lemma PushRouteIsFatal(w: World, cmds: CheckCommands)
    requires w.fails(ExecCommand(cmds.tunnelInterface)).None? && w.exec(cmds.tunnelInterface).code != Some(1)
    requires w.fails(ExecCommand(cmds.pushRoute)).None?
    ensures InterfaceStep(w, cmds).error.Some? <==> w.exec(cmds.pushRoute).code == Some(1)
    ensures InterfaceStep(w, cmds).error.Some? ==> InterfaceStep(w, cmds).error == Some(PushRouteText)
  {
  }

  // ---------------------------------------------------------------------------
  // Port forward
  // ---------------------------------------------------------------------------

  const RuleKey := "set port-forward " + "rule "
  const OriginalPort := " original-port"

  /** The digits after the rule key at the start of `t`. */
  function RuleDigits(t: string): string
    requires StartsWith(t, RuleKey)
  {
    var rest := t[|RuleKey|..];
    rest[..DigitRunLength(rest)]
  }

  /** `/set port-forward rule (\d*) original-port/` matches at the start of `t`. */
  predicate RuleAt(t: string) {
    StartsWith(t, RuleKey)
    && StartsWith(t[|RuleKey| + DigitRunLength(t[|RuleKey|..])..], OriginalPort)
  }

  /** The group of the leftmost match of that pattern in `s`. */
  function RuleNumber(s: string): (r: Option<string>)
    ensures r.Some? ==> AllDigits(r.value)
    ensures r.Some? ==> exists i :: 0 <= i <= |s| && RuleAt(s[i..]) && RuleDigits(s[i..]) == r.value
    ensures r.None? <==> forall i :: 0 <= i <= |s| ==> !RuleAt(s[i..])
    decreases |s|
  {
    if RuleAt(s) then
      assert s[0..] == s;
      Some(RuleDigits(s))
    else if |s| == 0 then None
    else
      SuffixesOfTail(s);
      var r := RuleNumber(s[1..]);
      assert r.Some? ==> exists i :: 1 <= i <= |s| && RuleAt(s[i..]) && RuleDigits(s[i..]) == r.value by {
        if r.Some? {
          var i :| 0 <= i <= |s[1..]| && RuleAt(s[1..][i..]) && RuleDigits(s[1..][i..]) == r.value;
          assert s[i + 1..] == s[1..][i..];
        }
      }
      r
  }

  /** The characters of `t` before its first line terminator. */
  function LineLength(t: string): (k: nat)
    ensures k <= |t|
    ensures forall j :: 0 <= j < k ==> !IsLineTerminator(t[j])
    ensures k < |t| ==> IsLineTerminator(t[k])
    decreases |t|
  {
    if |t| == 0 || IsLineTerminator(t[0]) then 0 else 1 + LineLength(t[1..])
  }

  /** The group of `/<key>(.*)/`: the rest of the line after the leftmost
      occurrence of `key`. */
  function LineAfter(s: string, key: string): (r: Option<string>)
    ensures r.None? <==> !Contains(s, key)
    ensures r.Some? ==> forall j :: 0 <= j < |r.value| ==> !IsLineTerminator(r.value[j])
  {
    match Find(s, key)
    case None => None
    case Some(i) =>
      var t := s[i + |key|..];
      Some(t[..LineLength(t)])
  }

  const AddressKey := "forward-to " + "address "
  const PortKey := "forward-to " + "port "

  function ForwardToError(rule: string): string {
    "Error getting forward-to address for port-forward rule " + rule
  }

  function MismatchError(rule: string, actual: string, expected: string): string {
    "Port forward rule found for rule " + rule + " with forward address [" + actual + "]. Expected: [" + expected + "]"
  }

  /** The forward-to address and port of rule `rule`, read back and
      compared with `<public address>:<vpn port>`. */
  function ForwardCheck(w: World, cmds: CheckCommands, rule: string, expected: string): Flow {
    var d := ExecuteCommand(w, cmds.forwardTo(rule), false);
    if d.result.Failure? then Flow([], d.trace, Some(d.result.error))
    else
      var out := d.result.value.value;
      if out.None? || out.value == "" then Flow([], d.trace, Some(ForwardToError(rule)))
      else
        match (LineAfter(out.value, AddressKey), LineAfter(out.value, PortKey))
        case (Some(address), Some(port)) =>
          var actual := address + ":" + port;
          if actual != expected then Flow([], d.trace, Some(MismatchError(rule, actual, expected)))
          else Flow([Say("Port forward rule found for rule " + rule + " with correct forward address " + actual)], d.trace, None)
        case _ => Flow([], d.trace, Some(ForwardToError(rule)))
  }

  /** The forward target the rule must have. */
  function ExpectedTarget(publicAddress: string, vpnPort: int): string {
    publicAddress + ":" + IntToString(vpnPort)
  }

  function PortForwardStep(w: World, cmds: CheckCommands, publicAddress: string, vpnPort: int): Flow {
    var checking := [Say("Checking if port forward rule is set...")];
    var e := ExecCommand(cmds.portForward);
    match w.fails(e)
    case Some(m) => Flow(checking, [e], Some(m))
    case None =>
      var out := w.exec(cmds.portForward);
      if out.code == Some(1) then
        Flow(checking + [Say("No port-forward rule set on port " + IntToString(vpnPort) + ".")], [e], None)
      else
        var found :=
          match RuleNumber(out.stdout)
          case None => Flow([], [], None)
          case Some(rule) => ForwardCheck(w, cmds, rule, ExpectedTarget(publicAddress, vpnPort));
        Then(Flow(checking, [e], None), Then(found, Flow([Say("No issue found with port forward rule.")], [], None)))
  }

  /** Exit code 1 from the port-forward command means no rule: only reported. */
  lemma NoRuleIsInformational(w: World, cmds: CheckCommands, publicAddress: string, vpnPort: int)
    requires w.fails(ExecCommand(cmds.portForward)).None? && w.exec(cmds.portForward).code == Some(1)
    ensures PortForwardStep(w, cmds, publicAddress, vpnPort).error.None?
  {
  }

  /** A rule that is found passes only when its forward-to address and port
      are both read back and, joined by a colon, equal the router's public
      address and the VPN port. */
  lemma FoundRuleMustMatch(w: World, cmds: CheckCommands, publicAddress: string, vpnPort: int)
    requires w.fails(ExecCommand(cmds.portForward)).None? && w.exec(cmds.portForward).code != Some(1)
    requires RuleNumber(w.exec(cmds.portForward).stdout).Some?
    requires PortForwardStep(w, cmds, publicAddress, vpnPort).error.None?
    ensures var rule := RuleNumber(w.exec(cmds.portForward).stdout).value;
      var out := w.exec(cmds.forwardTo(rule));
      out.stderr == "" && out.stdout != ""
      && LineAfter(out.stdout, AddressKey).Some? && LineAfter(out.stdout, PortKey).Some?
      && LineAfter(out.stdout, AddressKey).value + ":" + LineAfter(out.stdout, PortKey).value
         == ExpectedTarget(publicAddress, vpnPort)
  {
  }

  /** Conversely, a rule whose target reads back as expected passes. */
  lemma MatchingRulePasses(w: World, cmds: CheckCommands, publicAddress: string, vpnPort: int)
    requires w.fails(ExecCommand(cmds.portForward)).None? && w.exec(cmds.portForward).code != Some(1)
    requires RuleNumber(w.exec(cmds.portForward).stdout).Some?
    requires var rule := RuleNumber(w.exec(cmds.portForward).stdout).value;
      var out := w.exec(cmds.forwardTo(rule));
      w.fails(ExecCommand(cmds.forwardTo(rule))).None?
      && out.stderr == "" && out.stdout != ""
      && LineAfter(out.stdout, AddressKey).Some? && LineAfter(out.stdout, PortKey).Some?
      && LineAfter(out.stdout, AddressKey).value + ":" + LineAfter(out.stdout, PortKey).value
         == ExpectedTarget(publicAddress, vpnPort)
    ensures PortForwardStep(w, cmds, publicAddress, vpnPort).error.None?
  {
  }

  // ---------------------------------------------------------------------------
  // The whole check
  // ---------------------------------------------------------------------------

  const RefusedPrefix := "connect " + "ECONNREFUSED"
  const AuthFailedText := "All configured " + "authentication methods failed"
  const AuthErrorText := "SSH authentication error. " + "Check if given user name and password are correct"

  function RefusedText(c: SshConfigs): string {
    "Error connectting " + c.sshServer + " on port " + PortString(c.sshPort)
    + ". Check SSH service is open on the given port"
  }

  /** The `catch` block: a refused connection and failed authentication get
      readable messages; everything else is rethrown as it is. */
  function RewriteError(c: SshConfigs, message: string): (r: string)
    ensures StartsWith(message, RefusedPrefix) ==> r == RefusedText(c)
    ensures !StartsWith(message, RefusedPrefix) && message == AuthFailedText ==> r == AuthErrorText
    ensures !StartsWith(message, RefusedPrefix) && message != AuthFailedText ==> r == message
  {
    if StartsWith(message, RefusedPrefix) then RefusedText(c)
    else if message == AuthFailedText then AuthErrorText
    else message
  }

  /** A message is left alone exactly when it is neither kind. */
  lemma RewriteChangesOnlyTheTwo(c: SshConfigs, message: string)
    ensures RewriteError(c, message) == message <==> !StartsWith(message, RefusedPrefix) && message != AuthFailedText
  {
    if StartsWith(message, RefusedPrefix) {
      assert message[0] == 'c' && RefusedText(c)[0] == 'E';
    } else if message == AuthFailedText {
      assert message[0] == 'A' && AuthErrorText[0] == 'S';
    }
  }

  /** The body of the `try`: each gate runs only when the ones before it passed. */
  function Gates(w: World, c: SshConfigs, cmds: CheckCommands, alive: bool, useExistingRouterCAKey: bool,
                 publicAddress: string, vpnPort: int): Flow {
    Then(PingStep(c, alive),
    Then(ConnectStep(w, c),
    Then(FirmwareStep(w, cmds),
    Then(CaKeyStep(w, useExistingRouterCAKey),
    Then(InterfaceStep(w, cmds),
         PortForwardStep(w, cmds, publicAddress, vpnPort))))))
  }

  /** `checkSSHConfig(vpnParameters, configs, updateState, useExistingRouterCAKey)`:
      the gates, the `catch` that rewrites their error, and the `finally`
      that closes the session. */
  function CheckSshConfig(w: World, c: SshConfigs, cmds: CheckCommands, alive: bool, useExistingRouterCAKey: bool,
                          publicAddress: string, vpnPort: int): (f: Flow)
    ensures |f.trace| >= 1 && f.trace[|f.trace| - 1] == Close
  {
    var run := Gates(w, c, cmds, alive, useExistingRouterCAKey, publicAddress, vpnPort);
    Flow(run.log, run.trace + [Close], if run.error.Some? then Some(RewriteError(c, run.error.value)) else None)
  }

  /** A refused connection is reported as a closed SSH port, naming the
      host and the port tried. */
  lemma RefusedConnectionExplained(w: World, c: SshConfigs, cmds: CheckCommands, useKey: bool,
                                   publicAddress: string, vpnPort: int)
    requires w.fails(Connect(c.sshServer, c.sshUsername, c.sshPort)).Some?
    requires StartsWith(w.fails(Connect(c.sshServer, c.sshUsername, c.sshPort)).value, RefusedPrefix)
    ensures CheckSshConfig(w, c, cmds, true, useKey, publicAddress, vpnPort).error == Some(RefusedText(c))
  {
  }

  /** Failed authentication is reported as wrong credentials. */
  lemma AuthFailureExplained(w: World, c: SshConfigs, cmds: CheckCommands, useKey: bool,
                             publicAddress: string, vpnPort: int)
    requires w.fails(Connect(c.sshServer, c.sshUsername, c.sshPort)) == Some(AuthFailedText)
    ensures CheckSshConfig(w, c, cmds, true, useKey, publicAddress, vpnPort).error == Some(AuthErrorText)
  {
    assert !StartsWith(AuthFailedText, RefusedPrefix) by {
      assert AuthFailedText[0] != RefusedPrefix[0];
    }
  }

  /** An unreachable host fails before any SSH connection is opened. */
  lemma UnreachableFailsFirst(w: World, c: SshConfigs, cmds: CheckCommands, useKey: bool, publicAddress: string, vpnPort: int)
    ensures var f := CheckSshConfig(w, c, cmds, false, useKey, publicAddress, vpnPort);
      f.trace == [Close] && f.error == Some(NotReachable(c.sshServer))
  {
    var m := NotReachable(c.sshServer);
    assert m[0] == 'h';
    assert !StartsWith(m, RefusedPrefix) by {
      assert RefusedPrefix[0] == 'c';
    }
    assert m != AuthFailedText by {
      assert AuthFailedText[0] == 'A';
    }
  }

  /** A reachable host is connected to on the form's SSH port first. */
  lemma ReachableConnectsFirst(w: World, c: SshConfigs, cmds: CheckCommands, useKey: bool, publicAddress: string, vpnPort: int)
    ensures CheckSshConfig(w, c, cmds, true, useKey, publicAddress, vpnPort).trace[0]
      == Connect(c.sshServer, c.sshUsername, c.sshPort)
  {
  }

  /** A passed check went through every gate: the host answered, the
      connection opened, the firmware is recent enough and, when the router
      CA key is to be reused, it is there. */
  lemma PassedCheckPassedGates(w: World, c: SshConfigs, cmds: CheckCommands, alive: bool, useKey: bool,
                               publicAddress: string, vpnPort: int)
    requires CheckSshConfig(w, c, cmds, alive, useKey, publicAddress, vpnPort).error.None?
    ensures alive && w.fails(Connect(c.sshServer, c.sshUsername, c.sshPort)).None?
    ensures FirmwareStep(w, cmds).error.None? && CaKeyStep(w, useKey).error.None?
    ensures InterfaceStep(w, cmds).error.None? && PortForwardStep(w, cmds, publicAddress, vpnPort).error.None?
  {
  }
}
