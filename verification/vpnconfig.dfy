/** The configuration texts the wizard shows for the router: the OpenVPN
    server settings and the firewall rules, each in the dialect of DD-WRT or
    of an EdgeRouter. */
module VpnConfig {
  import opened Wrappers
  import opened Strings
  import opened Subnet

  const DdWrt := "DD-WRT"
  const EdgeServer := "EDGE-SERVER"

  predicate IsDdWrtMode(mode: string) {
    mode == DdWrt
  }

  predicate IsEdgeRouterMode(mode: string) {
    mode == EdgeServer
  }

  /** No mode is both. */
  lemma ModesExclusive(mode: string)
    ensures !(IsDdWrtMode(mode) && IsEdgeRouterMode(mode))
  {
  }

  /** The VPN parameters the renderers read. The text fields are strings; the
      port is the number the numeric field stored. */
  datatype VpnSettings = VpnSettings(
    internalNetwork: string,
    networkSegment: string,
    subnetMask: string,
    routerInternalIP: string,
    vpnPort: int,
    optSendLANTrafficOnly: bool,
    optUseUDP: bool,
    optRouterMode: string)

  /** The text fields hold no line feed, so every rendered line stays one line. */
  predicate OneLineFields(p: VpnSettings) {
    '\n' !in p.internalNetwork && '\n' !in p.networkSegment
    && '\n' !in p.subnetMask && '\n' !in p.routerInternalIP
  }

  predicate AllOneLine(lines: seq<string>) {
    forall i :: 0 <= i < |lines| ==> '\n' !in lines[i]
  }

  /** The text after `key` on the first line that starts with it: how a
      reader of the configuration finds a setting. */
  function Setting(lines: seq<string>, key: string): (v: Option<string>)
    ensures v.Some? ==> exists i :: 0 <= i < |lines| && lines[i] == key + v.value
    ensures v.None? ==> forall i :: 0 <= i < |lines| ==> !StartsWith(lines[i], key)
    decreases |lines|
  {
    if |lines| == 0 then None
    else if StartsWith(lines[0], key) then
      assert lines[0] == key + lines[0][|key|..];
      Some(lines[0][|key|..])
    else
      match Setting(lines[1..], key)
      case Some(v) =>
        assert forall i :: 0 <= i < |lines| - 1 ==> lines[1..][i] == lines[i + 1];
        Some(v)
      case None => None
  }

  /** The reader skips lines that do not start with the key and returns the
      rest of the first one that does. */
  lemma {:induction false} SettingAt(lines: seq<string>, key: string, k: nat, rest: string)
    requires k < |lines| && lines[k] == key + rest
    requires forall i :: 0 <= i < k ==> !StartsWith(lines[i], key)
    ensures Setting(lines, key) == Some(rest)
    decreases k
  {
    if k == 0 {
      assert lines[0][..|key|] == key;
      assert lines[0][|key|..] == rest;
    } else {
      assert lines[1..][k - 1] == lines[k];
      SettingAt(lines[1..], key, k - 1, rest);
    }
  }

  /** Two texts that share a stem and then differ `j` characters later:
      the first does not start with the second. */
  lemma DivergeAt(stem: string, line: string, key: string, j: nat)
    requires j < |line| && j < |key| && line[j] != key[j]
    ensures !StartsWith(stem + line, stem + key)
  {
    var s := stem + line;
    var k := stem + key;
    assert s[|stem| + j] == line[j] && k[|stem| + j] == key[j];
    if |k| <= |s| {
      assert s[..|k|][|stem| + j] == s[|stem| + j];
    }
  }

  /** A line too short to hold the key. */
  lemma TooShort(line: string, key: string)
    requires |line| < |key|
    ensures !StartsWith(line, key)
  {
  }

  /** `"a/b"`: a network and its prefix length. */
  function VpnCidr(p: VpnSettings): string {
    p.networkSegment + "/" + NatToString(SubnetMaskToCidrPrefix(p.subnetMask))
  }

  lemma CidrIsOneLine(p: VpnSettings)
    requires '\n' !in p.networkSegment
    ensures '\n' !in VpnCidr(p)
  {
    NatToStringCanonical(SubnetMaskToCidrPrefix(p.subnetMask));
  }

  lemma IntIsOneLine(n: int)
    ensures '\n' !in IntToString(n)
  {
    NatToStringCanonical(if n < 0 then -n else n);
  }

  // ---------------------------------------------------------------------------
  // DD-WRT server settings
  // ---------------------------------------------------------------------------

  const DefaultPort := 1194
  const RouteKey := "push \"route "
  const ClassCMaskSuffix := " 255.255.255.0\""
  const RedirectGatewayLine := "push " + "\"redirect-gateway def1\""
  const ProtoUdp := "proto udp"
  const ProtoTcp := "proto tcp"
  const PortKey := "port "
  const TmpOpenVpn := "/tmp/openvpn"
  const DdWrtFooter := ["dh " + TmpOpenVpn + "/dh.pem", "ca " + TmpOpenVpn + "/ca.crt", "cert " + TmpOpenVpn + "/ca.crt", "key " + TmpOpenVpn + "/key.pem"]

  function RouteLine(p: VpnSettings): string {
    RouteKey + p.internalNetwork + ClassCMaskSuffix
  }

  function ServerLine(p: VpnSettings): string {
    "server " + p.networkSegment + " " + p.subnetMask
  }

  function PortLine(port: int): string {
    PortKey + IntToString(port)
  }

  /** The option lines before empty ones are dropped: a line switched off is `""`. */
  function DdWrtCandidates(p: VpnSettings): seq<string> {
    [RouteLine(p),
     "dev tun",
     if p.optSendLANTrafficOnly then "" else RedirectGatewayLine,
     ServerLine(p),
     if p.vpnPort == DefaultPort then "" else PortLine(p.vpnPort),
     if p.optUseUDP then ProtoUdp else ProtoTcp]
  }

  /** `filter(o => o !== '')`. */
  function DropEmpty(xs: seq<string>): (ys: seq<string>)
    ensures |ys| <= |xs|
    ensures forall i :: 0 <= i < |ys| ==> ys[i] != ""
    decreases |xs|
  {
    if |xs| == 0 then []
    else Keep(xs[0]) + DropEmpty(xs[1..])
  }

  function Keep(x: string): seq<string> {
    if x == "" then [] else [x]
  }

  /** A line survives the filter exactly when it is there and not empty. */
  lemma {:induction false} DropEmptyMembers(xs: seq<string>, x: string)
    ensures x in DropEmpty(xs) <==> x in xs && x != ""
    decreases |xs|
  {
    if |xs| > 0 {
      DropEmptyMembers(xs[1..], x);
      assert xs == [xs[0]] + xs[1..];
    }
  }

  /** Filtering keeps the head exactly when it is not empty. */
  lemma DropEmptyCons(x: string, xs: seq<string>)
    ensures DropEmpty([x] + xs) == Keep(x) + DropEmpty(xs)
  {
    assert ([x] + xs)[1..] == xs;
  }

  /** Filtering six entries keeps each non-empty one, in order. */
  lemma DropEmptySix(a: string, b: string, c: string, d: string, e: string, f: string)
    ensures DropEmpty([a, b, c, d, e, f]) == Keep(a) + (Keep(b) + (Keep(c) + (Keep(d) + (Keep(e) + Keep(f)))))
  {
    assert [a, b, c, d, e, f] == [a] + ([b] + ([c] + ([d] + ([e] + [f]))));
    DropEmptyCons(f, []);
    assert Keep(f) + [] == Keep(f);
    DropEmptyCons(e, [f]);
    DropEmptyCons(d, [e] + [f]);
    DropEmptyCons(c, [d] + ([e] + [f]));
    DropEmptyCons(b, [c] + ([d] + ([e] + [f])));
    DropEmptyCons(a, [b] + ([c] + ([d] + ([e] + [f]))));
  }

  /** Filtering keeps every line a line. */
  lemma DropEmptyOneLine(xs: seq<string>)
    requires AllOneLine(xs)
    ensures AllOneLine(DropEmpty(xs))
  {
    var ys := DropEmpty(xs);
    forall i | 0 <= i < |ys|
      ensures '\n' !in ys[i]
    {
      DropEmptyMembers(xs, ys[i]);
    }
  }

  /** Empty lines start with no key, so dropping them changes no setting. */
  lemma {:induction false} SettingDropEmpty(xs: seq<string>, key: string)
    requires |key| > 0
    ensures Setting(DropEmpty(xs), key) == Setting(xs, key)
    decreases |xs|
  {
    if |xs| > 0 {
      SettingDropEmpty(xs[1..], key);
      DropEmptyCons(xs[0], xs[1..]);
      assert [xs[0]] + xs[1..] == xs;
      var rest := DropEmpty(xs[1..]);
      if xs[0] != "" {
        assert ([xs[0]] + rest)[0] == xs[0];
        assert ([xs[0]] + rest)[1..] == rest;
      } else {
        assert [] + rest == rest;
        assert !StartsWith(xs[0], key);
      }
    }
  }

  /** A reader finds nothing when no line starts with the key. */
  lemma {:induction false} SettingNone(lines: seq<string>, key: string)
    requires forall i :: 0 <= i < |lines| ==> !StartsWith(lines[i], key)
    ensures Setting(lines, key) == None
    decreases |lines|
  {
    if |lines| > 0 {
      assert forall i :: 0 <= i < |lines| - 1 ==> lines[1..][i] == lines[i + 1];
      SettingNone(lines[1..], key);
    }
  }

  function OptionalLine(on: bool, line: string): seq<string> {
    if on then [line] else []
  }

  /** The option block written out: the two optional lines are present exactly
      when switched on, the others always, in the source's order. */
  lemma DdWrtOptionsShape(p: VpnSettings)
    ensures DropEmpty(DdWrtCandidates(p))
      == [RouteLine(p)] + (["dev tun"] + (OptionalLine(!p.optSendLANTrafficOnly, RedirectGatewayLine)
         + ([ServerLine(p)] + (OptionalLine(p.vpnPort != DefaultPort, PortLine(p.vpnPort))
         + [if p.optUseUDP then ProtoUdp else ProtoTcp]))))
  {
    var c := DdWrtCandidates(p);
    DropEmptySix(c[0], c[1], c[2], c[3], c[4], c[5]);
    assert c == [c[0], c[1], c[2], c[3], c[4], c[5]];
    NonEmptyLines(p);
    assert Keep(c[2]) == OptionalLine(!p.optSendLANTrafficOnly, RedirectGatewayLine);
    assert Keep(c[4]) == OptionalLine(p.vpnPort != DefaultPort, PortLine(p.vpnPort));
  }

  /** The option block of the DD-WRT server configuration, one entry per line. */
  function DdWrtOptions(p: VpnSettings): (lines: seq<string>)
    ensures |lines| >= 1 && lines[0] == RouteLine(p)
    ensures forall i :: 0 <= i < |lines| ==> lines[i] != ""
  {
    DdWrtOptionsShape(p);
    DropEmpty(DdWrtCandidates(p))
  }

  /** Membership in the written-out option block, entry by entry. */
  lemma MemberOfShape(x: string, route: string, redirect: seq<string>, server: string, port: seq<string>, proto: string)
    ensures x in [route] + (["dev tun"] + (redirect + ([server] + (port + [proto]))))
      <==> x == route || x == "dev tun" || x in redirect || x == server || x in port || x == proto
  {
  }

  /** Traffic for the whole internet is redirected through the tunnel exactly
      when the user did not ask for LAN traffic only. */
  lemma RedirectGatewayPresent(p: VpnSettings)
    ensures RedirectGatewayLine in DdWrtOptions(p) <==> !p.optSendLANTrafficOnly
  {
    DdWrtOptionsShape(p);
    RedirectDiffers(p);
    MemberOfShape(RedirectGatewayLine, RouteLine(p), OptionalLine(!p.optSendLANTrafficOnly, RedirectGatewayLine),
      ServerLine(p), OptionalLine(p.vpnPort != DefaultPort, PortLine(p.vpnPort)), if p.optUseUDP then ProtoUdp else ProtoTcp);
  }

  /** Exactly one protocol line, chosen by the UDP option. */
  lemma ProtocolPresent(p: VpnSettings)
    ensures ProtoUdp in DdWrtOptions(p) <==> p.optUseUDP
    ensures ProtoTcp in DdWrtOptions(p) <==> !p.optUseUDP
  {
    DdWrtOptionsShape(p);
    ProtoDiffers(p);
    var redirect := OptionalLine(!p.optSendLANTrafficOnly, RedirectGatewayLine);
    var port := OptionalLine(p.vpnPort != DefaultPort, PortLine(p.vpnPort));
    var proto := if p.optUseUDP then ProtoUdp else ProtoTcp;
    MemberOfShape(ProtoUdp, RouteLine(p), redirect, ServerLine(p), port, proto);
    MemberOfShape(ProtoTcp, RouteLine(p), redirect, ServerLine(p), port, proto);
    assert ProtoUdp !in redirect && ProtoTcp !in redirect by { RedirectDiffers(p); }
  }

  lemma NonEmptyLines(p: VpnSettings)
    ensures Keep(RouteLine(p)) == [RouteLine(p)] && Keep(ServerLine(p)) == [ServerLine(p)]
    ensures Keep(PortLine(p.vpnPort)) == [PortLine(p.vpnPort)] && Keep(RedirectGatewayLine) == [RedirectGatewayLine]
    ensures Keep(ProtoUdp) == [ProtoUdp] && Keep(ProtoTcp) == [ProtoTcp] && Keep("dev tun") == ["dev tun"]
    ensures Keep("") == []
  {
    assert |RouteLine(p)| > 0 && |ServerLine(p)| > 0 && |PortLine(p.vpnPort)| > 0;
    assert |RedirectGatewayLine| > 0 && |ProtoUdp| > 0 && |ProtoTcp| > 0;
  }

  lemma RedirectDiffers(p: VpnSettings)
    ensures RedirectGatewayLine != RouteLine(p) && RedirectGatewayLine != ServerLine(p)
    ensures RedirectGatewayLine != PortLine(p.vpnPort) && RedirectGatewayLine != "dev tun"
    ensures RedirectGatewayLine != ProtoUdp && RedirectGatewayLine != ProtoTcp
  {
    assert RouteLine(p)[7] == 'o' && RedirectGatewayLine[7] == 'e';
    assert ServerLine(p)[0] == 's' && PortLine(p.vpnPort)[1] == 'o' && RedirectGatewayLine[1] == 'u';
    assert ProtoUdp[1] == 'r';
  }

  lemma ProtoDiffers(p: VpnSettings)
    ensures ProtoUdp != ProtoTcp
    ensures ProtoUdp != RouteLine(p) && ProtoUdp != ServerLine(p) && ProtoUdp != PortLine(p.vpnPort)
    ensures ProtoTcp != RouteLine(p) && ProtoTcp != ServerLine(p) && ProtoTcp != PortLine(p.vpnPort)
  {
    assert RouteLine(p)[1] == 'u' && ServerLine(p)[0] == 's' && PortLine(p.vpnPort)[1] == 'o';
    assert ProtoUdp[1] == 'r' && ProtoTcp[1] == 'r' && ProtoUdp[6] != ProtoTcp[6];
  }

  /** Only the port entry starts with `port `. */
  lemma OnlyPortLine(p: VpnSettings)
    ensures !StartsWith(RouteLine(p), PortKey) && !StartsWith("dev tun", PortKey) && !StartsWith("", PortKey)
    ensures !StartsWith(RedirectGatewayLine, PortKey) && !StartsWith(ServerLine(p), PortKey)
    ensures !StartsWith(ProtoUdp, PortKey) && !StartsWith(ProtoTcp, PortKey)
    ensures PortLine(p.vpnPort) == PortKey + IntToString(p.vpnPort)
  {
    assert RouteLine(p)[1] == 'u' && RedirectGatewayLine[1] == 'u' && ServerLine(p)[0] == 's';
    assert ProtoUdp[1] == 'r' && ProtoTcp[1] == 'r' && PortKey[1] == 'o';
  }

  /** A reader of the option block finds a port exactly when it is not
      OpenVPN's default 1194, and then finds the configured one. */
  lemma PortSetting(p: VpnSettings)
    ensures Setting(DdWrtOptions(p), PortKey) == if p.vpnPort == DefaultPort then None else Some(IntToString(p.vpnPort))
  {
    SettingDropEmpty(DdWrtCandidates(p), PortKey);
    if p.vpnPort == DefaultPort {
      NoPortLine(p);
    } else {
      FoundPortLine(p);
    }
  }

  lemma NoPortLine(p: VpnSettings)
    requires p.vpnPort == DefaultPort
    ensures Setting(DdWrtCandidates(p), PortKey) == None
  {
    var c := DdWrtCandidates(p);
    OnlyPortLine(p);
    assert forall i :: 0 <= i < |c| ==> !StartsWith(c[i], PortKey);
    SettingNone(c, PortKey);
  }

  lemma FoundPortLine(p: VpnSettings)
    requires p.vpnPort != DefaultPort
    ensures Setting(DdWrtCandidates(p), PortKey) == Some(IntToString(p.vpnPort))
  {
    var c := DdWrtCandidates(p);
    OnlyPortLine(p);
    assert forall i :: 0 <= i < 4 ==> !StartsWith(c[i], PortKey);
    SettingAt(c, PortKey, 4, IntToString(p.vpnPort));
  }

  /** The DD-WRT server configuration: the option block, an empty line, then
      the fixed paths of the key material under /tmp/openvpn. */
  function DdWrtConfig(p: VpnSettings): string {
    Join(DdWrtOptions(p), '\n') + "\n\n" + Join(DdWrtFooter, '\n')
  }

  /** Read back line by line, the text is the option block, one empty line
      and the four footer lines. */
  lemma DdWrtConfigLines(p: VpnSettings)
    requires OneLineFields(p)
    ensures Split(DdWrtConfig(p), '\n') == DdWrtOptions(p) + [""] + DdWrtFooter
  {
    var opts := DdWrtOptions(p);
    DdWrtLinesAreLines(p);
    FooterLines();
    JoinAppend(opts, [""] + DdWrtFooter, '\n');
    JoinAppend([""], DdWrtFooter, '\n');
    assert Join([""], '\n') == "";
    assert opts + ([""] + DdWrtFooter) == opts + [""] + DdWrtFooter;
    assert Join(opts, '\n') + "\n\n" + Join(DdWrtFooter, '\n')
        == Join(opts, '\n') + ['\n'] + ("" + ['\n'] + Join(DdWrtFooter, '\n'));
    SplitJoin(opts + [""] + DdWrtFooter, '\n');
  }

  lemma FooterLines()
    ensures AllOneLine(DdWrtFooter)
  {
    assert '\n' !in TmpOpenVpn;
    assert '\n' !in "dh " && '\n' !in "/dh.pem" && '\n' !in "ca " && '\n' !in "/ca.crt";
    assert '\n' !in "cert " && '\n' !in "key " && '\n' !in "/key.pem";
  }

  lemma DdWrtLinesAreLines(p: VpnSettings)
    requires OneLineFields(p)
    ensures AllOneLine(DdWrtOptions(p))
  {
    CandidatesAreLines(p);
    DropEmptyOneLine(DdWrtCandidates(p));
  }

  lemma CandidatesAreLines(p: VpnSettings)
    requires OneLineFields(p)
    ensures AllOneLine(DdWrtCandidates(p))
  {
    IntIsOneLine(p.vpnPort);
    assert '\n' !in RouteKey && '\n' !in ClassCMaskSuffix;
    assert '\n' !in "push " && '\n' !in "\"redirect-gateway def1\"";
    assert '\n' !in PortKey && '\n' !in "server " && '\n' !in "dev tun";
    assert '\n' !in ProtoUdp && '\n' !in ProtoTcp;
  }

  // ---------------------------------------------------------------------------
  // EdgeRouter server settings
  // ---------------------------------------------------------------------------

  const DefaultConfigDir := "/config/auth"
  const Vtun0 := "set interfaces " + "openvpn vtun0 "
  const ServerCmd := Vtun0 + "server "
  const TlsCmd := Vtun0 + "tls "
  const SubnetKey := ServerCmd + "subnet "
  const PushRouteKey := ServerCmd + "push-route "
  const NameServerKey := ServerCmd + "name-server "
  const CaCertKey := TlsCmd + "ca-cert-file "
  const CertKey := TlsCmd + "cert-file "
  const KeyKey := TlsCmd + "key-file "
  const DhKey := TlsCmd + "dh-file "

  function EdgeRouterLines(p: VpnSettings, configDir: string): seq<string> {
    [Vtun0 + "mode server",
     SubnetKey + (VpnCidr(p) + " "),
     PushRouteKey + (p.internalNetwork + "/24"),
     NameServerKey + p.routerInternalIP,
     " ",
     CaCertKey + (configDir + "/ca.crt"),
     CertKey + (configDir + "/ca.crt"),
     KeyKey + (configDir + "/ca.key"),
     DhKey + (configDir + "/dh.pem")]
  }

  /** The EdgeRouter server commands; the key material lives under
      `configDir`, /config/auth when none is given. */
  function EdgeRouterConfig(p: VpnSettings, configDir: Option<string>): string {
    Join(EdgeRouterLines(p, configDir.GetOr(DefaultConfigDir)), '\n')
  }

  /** Regrouping a four-part concatenation to the right. */
  lemma Regroup(a: string, b: string, c: string, d: string)
    ensures (a + b) + c + d == a + (b + (c + d))
  {
  }

  /** The server lines, split where the keys part ways. */
  lemma ServerStems(p: VpnSettings, dir: string)
    ensures var l := EdgeRouterLines(p, dir);
      l[1] == Vtun0 + ("server " + ("subnet " + (VpnCidr(p) + " ")))
      && l[2] == Vtun0 + ("server " + ("push-route " + (p.internalNetwork + "/24")))
      && l[3] == Vtun0 + ("server " + ("name-server " + p.routerInternalIP))
  {
    var l := EdgeRouterLines(p, dir);
    assert l[1] == Vtun0 + ("server " + ("subnet " + (VpnCidr(p) + " "))) by {
      Regroup(Vtun0, "server ", "subnet ", VpnCidr(p) + " ");
    }
    assert l[2] == Vtun0 + ("server " + ("push-route " + (p.internalNetwork + "/24"))) by {
      Regroup(Vtun0, "server ", "push-route ", p.internalNetwork + "/24");
    }
    assert l[3] == Vtun0 + ("server " + ("name-server " + p.routerInternalIP)) by {
      Regroup(Vtun0, "server ", "name-server ", p.routerInternalIP);
    }
  }

  /** The TLS lines, split where the keys part ways. */
  lemma TlsStems(p: VpnSettings, dir: string)
    ensures var l := EdgeRouterLines(p, dir);
      l[5] == Vtun0 + ("tls " + ("ca-cert-file " + (dir + "/ca.crt")))
      && l[6] == Vtun0 + ("tls " + ("cert-file " + (dir + "/ca.crt")))
      && l[7] == Vtun0 + ("tls " + ("key-file " + (dir + "/ca.key")))
  {
    var l := EdgeRouterLines(p, dir);
    assert l[5] == Vtun0 + ("tls " + ("ca-cert-file " + (dir + "/ca.crt"))) by {
      Regroup(Vtun0, "tls ", "ca-cert-file ", dir + "/ca.crt");
    }
    assert l[6] == Vtun0 + ("tls " + ("cert-file " + (dir + "/ca.crt"))) by {
      Regroup(Vtun0, "tls ", "cert-file ", dir + "/ca.crt");
    }
    assert l[7] == Vtun0 + ("tls " + ("key-file " + (dir + "/ca.key"))) by {
      Regroup(Vtun0, "tls ", "key-file ", dir + "/ca.key");
    }
  }

  /** The VPN subnet the router serves is the network with its prefix length
      counted from the mask. */
  lemma EdgeSubnetSetting(p: VpnSettings, dir: string)
    ensures Setting(EdgeRouterLines(p, dir), SubnetKey) == Some(VpnCidr(p) + " ")
  {
    var l := EdgeRouterLines(p, dir);
    ServerStems(p, dir);
    assert SubnetKey == Vtun0 + ("server " + "subnet ");
    DivergeAt(Vtun0, "mode server", "server " + "subnet ", 0);
    SettingAt(l, SubnetKey, 1, VpnCidr(p) + " ");
  }

  /** The route pushed to clients is the internal network as a /24. */
  lemma EdgePushRouteSetting(p: VpnSettings, dir: string)
    ensures Setting(EdgeRouterLines(p, dir), PushRouteKey) == Some(p.internalNetwork + "/24")
  {
    var l := EdgeRouterLines(p, dir);
    ServerStems(p, dir);
    assert PushRouteKey == Vtun0 + ("server " + "push-route ");
    DivergeAt(Vtun0, "mode server", "server " + "push-route ", 0);
    DivergeAt(Vtun0, "server " + ("subnet " + (VpnCidr(p) + " ")), "server " + "push-route ", 7);
    SettingAt(l, PushRouteKey, 2, p.internalNetwork + "/24");
  }

  /** Clients resolve names through the router's internal address. */
  lemma EdgeNameServerSetting(p: VpnSettings, dir: string)
    ensures Setting(EdgeRouterLines(p, dir), NameServerKey) == Some(p.routerInternalIP)
  {
    var l := EdgeRouterLines(p, dir);
    ServerStems(p, dir);
    assert NameServerKey == Vtun0 + ("server " + "name-server ");
    DivergeAt(Vtun0, "mode server", "server " + "name-server ", 0);
    DivergeAt(Vtun0, "server " + ("subnet " + (VpnCidr(p) + " ")), "server " + "name-server ", 7);
    DivergeAt(Vtun0, "server " + ("push-route " + (p.internalNetwork + "/24")), "server " + "name-server ", 7);
    SettingAt(l, NameServerKey, 3, p.routerInternalIP);
  }

  /** The server lines are not TLS lines. */
  lemma ServerLinesNotTls(p: VpnSettings, dir: string, rest: string)
    ensures forall i :: 0 <= i < 5 ==> !StartsWith(EdgeRouterLines(p, dir)[i], Vtun0 + ("tls " + rest))
  {
    var l := EdgeRouterLines(p, dir);
    ServerStems(p, dir);
    DivergeAt(Vtun0, "mode server", "tls " + rest, 0);
    DivergeAt(Vtun0, "server " + ("subnet " + (VpnCidr(p) + " ")), "tls " + rest, 0);
    DivergeAt(Vtun0, "server " + ("push-route " + (p.internalNetwork + "/24")), "tls " + rest, 0);
    DivergeAt(Vtun0, "server " + ("name-server " + p.routerInternalIP), "tls " + rest, 0);
    TooShort(" ", Vtun0 + ("tls " + rest));
  }

  /** The CA certificate is read from `configDir`. */
  lemma EdgeCaCertSetting(p: VpnSettings, dir: string)
    ensures Setting(EdgeRouterLines(p, dir), CaCertKey) == Some(dir + "/ca.crt")
  {
    var l := EdgeRouterLines(p, dir);
    assert CaCertKey == Vtun0 + ("tls " + "ca-cert-file ");
    ServerLinesNotTls(p, dir, "ca-cert-file ");
    SettingAt(l, CaCertKey, 5, dir + "/ca.crt");
  }

  /** The server certificate is read from `configDir`, from the CA's file. */
  lemma EdgeCertSetting(p: VpnSettings, dir: string)
    ensures Setting(EdgeRouterLines(p, dir), CertKey) == Some(dir + "/ca.crt")
  {
    var l := EdgeRouterLines(p, dir);
    TlsStems(p, dir);
    assert CertKey == Vtun0 + ("tls " + "cert-file ");
    ServerLinesNotTls(p, dir, "cert-file ");
    DivergeAt(Vtun0, "tls " + ("ca-cert-file " + (dir + "/ca.crt")), "tls " + "cert-file ", 5);
    SettingAt(l, CertKey, 6, dir + "/ca.crt");
  }

  /** The private key is read from `configDir`, from the CA's key file. */
  lemma EdgeKeySetting(p: VpnSettings, dir: string)
    ensures Setting(EdgeRouterLines(p, dir), KeyKey) == Some(dir + "/ca.key")
  {
    var l := EdgeRouterLines(p, dir);
    TlsStems(p, dir);
    assert KeyKey == Vtun0 + ("tls " + "key-file ");
    ServerLinesNotTls(p, dir, "key-file ");
    DivergeAt(Vtun0, "tls " + ("ca-cert-file " + (dir + "/ca.crt")), "tls " + "key-file ", 4);
    DivergeAt(Vtun0, "tls " + ("cert-file " + (dir + "/ca.crt")), "tls " + "key-file ", 4);
    SettingAt(l, KeyKey, 7, dir + "/ca.key");
  }

  /** The Diffie-Hellman parameters are read from `configDir`. */
  lemma EdgeDhSetting(p: VpnSettings, dir: string)
    ensures Setting(EdgeRouterLines(p, dir), DhKey) == Some(dir + "/dh.pem")
  {
    var l := EdgeRouterLines(p, dir);
    TlsStems(p, dir);
    assert DhKey == Vtun0 + ("tls " + "dh-file ");
    ServerLinesNotTls(p, dir, "dh-file ");
    DivergeAt(Vtun0, "tls " + ("ca-cert-file " + (dir + "/ca.crt")), "tls " + "dh-file ", 4);
    DivergeAt(Vtun0, "tls " + ("cert-file " + (dir + "/ca.crt")), "tls " + "dh-file ", 4);
    DivergeAt(Vtun0, "tls " + ("key-file " + (dir + "/ca.key")), "tls " + "dh-file ", 4);
    SettingAt(l, DhKey, 8, dir + "/dh.pem");
  }

  /** Every file the TLS settings name lies in `configDir`. */
  lemma EdgeTlsFilesInConfigDir(p: VpnSettings, dir: string)
    ensures var l := EdgeRouterLines(p, dir);
      Setting(l, CaCertKey).Some? && StartsWith(Setting(l, CaCertKey).value, dir + "/")
      && Setting(l, CertKey).Some? && StartsWith(Setting(l, CertKey).value, dir + "/")
      && Setting(l, KeyKey).Some? && StartsWith(Setting(l, KeyKey).value, dir + "/")
      && Setting(l, DhKey).Some? && StartsWith(Setting(l, DhKey).value, dir + "/")
  {
    EdgeCaCertSetting(p, dir);
    EdgeCertSetting(p, dir);
    EdgeKeySetting(p, dir);
    EdgeDhSetting(p, dir);
    InDir(dir, "ca.crt");
    InDir(dir, "ca.key");
    InDir(dir, "dh.pem");
  }

  lemma InDir(dir: string, file: string)
    ensures StartsWith(dir + "/" + file, dir + "/")
  {
    assert (dir + "/" + file)[..|dir + "/"|] == dir + "/";
  }

  /** Read back line by line, the text is the nine command lines. */
  lemma EdgeRouterConfigLines(p: VpnSettings, configDir: Option<string>)
    requires OneLineFields(p) && '\n' !in configDir.GetOr(DefaultConfigDir)
    ensures Split(EdgeRouterConfig(p, configDir), '\n') == EdgeRouterLines(p, configDir.GetOr(DefaultConfigDir))
  {
    var dir := configDir.GetOr(DefaultConfigDir);
    EdgeLinesAreLines(p, dir);
    SplitJoin(EdgeRouterLines(p, dir), '\n');
  }

  lemma EdgeLinesAreLines(p: VpnSettings, dir: string)
    requires OneLineFields(p) && '\n' !in dir
    ensures AllOneLine(EdgeRouterLines(p, dir))
  {
    CidrIsOneLine(p);
    EdgeKeysAreLines();
    assert '\n' !in "mode server" && '\n' !in "/24" && '\n' !in " ";
    assert '\n' !in "/ca.crt" && '\n' !in "/ca.key" && '\n' !in "/dh.pem";
  }

  lemma EdgeKeysAreLines()
    ensures '\n' !in Vtun0 && '\n' !in SubnetKey && '\n' !in PushRouteKey && '\n' !in NameServerKey
    ensures '\n' !in CaCertKey && '\n' !in CertKey && '\n' !in KeyKey && '\n' !in DhKey
  {
    assert '\n' !in "set interfaces " && '\n' !in "openvpn vtun0 ";
    assert '\n' !in "server " && '\n' !in "tls ";
    assert '\n' !in "subnet " && '\n' !in "push-route " && '\n' !in "name-server ";
    assert '\n' !in "ca-cert-file " && '\n' !in "cert-file " && '\n' !in "key-file " && '\n' !in "dh-file ";
  }

  lemma DefaultConfigDirIsLine()
    ensures '\n' !in DefaultConfigDir
  {
  }

  // ---------------------------------------------------------------------------
  // Firewall rules
  // ---------------------------------------------------------------------------

  const Iptables := "iptables "
  const IptInsert := Iptables + "-I "
  const ForwardSourceKey := IptInsert + "FORWARD 1 " + "-source  "
  const MasqueradeKey := Iptables + "-t nat " + "-A POSTROUTING -s "

  /** The DD-WRT firewall rules: open the web port, let the VPN subnet and the
      tunnel through, and masquerade the VPN subnet. */
  function DdWrtIpTablesLines(p: VpnSettings): seq<string> {
    [IptInsert + "INPUT 1 -p tcp " + "-dport 443 -j ACCEPT",
     ForwardSourceKey + (VpnCidr(p) + " -j ACCEPT"),
     IptInsert + "FORWARD -i br0 " + "-o tun0 -j ACCEPT",
     IptInsert + "FORWARD -i tun0 " + "-o br0 -j ACCEPT",
     MasqueradeKey + (VpnCidr(p) + " -j MASQUERADE")]
  }

  function DdWrtIpTables(p: VpnSettings): string {
    Join(DdWrtIpTablesLines(p), '\n')
  }

  /** The forwarding rule and the masquerading rule name the same VPN subnet,
      the one the server settings use. */
  lemma DdWrtRulesShareCidr(p: VpnSettings)
    ensures Setting(DdWrtIpTablesLines(p), ForwardSourceKey) == Some(VpnCidr(p) + " -j ACCEPT")
    ensures Setting(DdWrtIpTablesLines(p), MasqueradeKey) == Some(VpnCidr(p) + " -j MASQUERADE")
  {
    ForwardRule(p);
    MasqueradeRule(p);
  }

  lemma ForwardRule(p: VpnSettings)
    ensures Setting(DdWrtIpTablesLines(p), ForwardSourceKey) == Some(VpnCidr(p) + " -j ACCEPT")
  {
    var l := DdWrtIpTablesLines(p);
    assert l[0] == IptInsert + ("INPUT 1 -p tcp " + "-dport 443 -j ACCEPT");
    assert ForwardSourceKey == IptInsert + ("FORWARD 1 " + "-source  ");
    DivergeAt(IptInsert, "INPUT 1 -p tcp " + "-dport 443 -j ACCEPT", "FORWARD 1 " + "-source  ", 0);
    SettingAt(l, ForwardSourceKey, 1, VpnCidr(p) + " -j ACCEPT");
  }

  lemma MasqueradeRule(p: VpnSettings)
    ensures Setting(DdWrtIpTablesLines(p), MasqueradeKey) == Some(VpnCidr(p) + " -j MASQUERADE")
  {
    var l := DdWrtIpTablesLines(p);
    var key := "-t nat " + "-A POSTROUTING -s ";
    assert MasqueradeKey == Iptables + key;
    assert l[0] == Iptables + ("-I " + ("INPUT 1 -p tcp " + "-dport 443 -j ACCEPT"));
    assert l[1] == Iptables + ("-I " + ("FORWARD 1 " + "-source  " + (VpnCidr(p) + " -j ACCEPT")));
    assert l[2] == Iptables + ("-I " + ("FORWARD -i br0 " + "-o tun0 -j ACCEPT"));
    assert l[3] == Iptables + ("-I " + ("FORWARD -i tun0 " + "-o br0 -j ACCEPT"));
    DivergeAt(Iptables, "-I " + ("INPUT 1 -p tcp " + "-dport 443 -j ACCEPT"), key, 1);
    DivergeAt(Iptables, "-I " + ("FORWARD 1 " + "-source  " + (VpnCidr(p) + " -j ACCEPT")), key, 1);
    DivergeAt(Iptables, "-I " + ("FORWARD -i br0 " + "-o tun0 -j ACCEPT"), key, 1);
    DivergeAt(Iptables, "-I " + ("FORWARD -i tun0 " + "-o br0 -j ACCEPT"), key, 1);
    SettingAt(l, MasqueradeKey, 4, VpnCidr(p) + " -j MASQUERADE");
  }

  const Rule30 := "set firewall " + "name WAN_LOCAL " + "rule 30 "
  const DestinationPortKey := Rule30 + "destination port "
  const ProtocolKey := Rule30 + "protocol "

  /** The EdgeRouter firewall rule 30 of WAN_LOCAL: accept the VPN port. */
  function EdgeRouterFirewallLines(p: VpnSettings): seq<string> {
    [Rule30 + "action accept",
     Rule30 + "description openvpn",
     DestinationPortKey + IntToString(p.vpnPort),
     ProtocolKey + "udp"]
  }

  function EdgeRouterFirewall(p: VpnSettings): string {
    Join(EdgeRouterFirewallLines(p), '\n')
  }

  /** Every line edits rule 30, and the rule accepts the configured port. */
  lemma EdgeFirewallPort(p: VpnSettings)
    ensures forall i :: 0 <= i < |EdgeRouterFirewallLines(p)| ==> StartsWith(EdgeRouterFirewallLines(p)[i], Rule30)
    ensures Setting(EdgeRouterFirewallLines(p), DestinationPortKey) == Some(IntToString(p.vpnPort))
  {
    var l := EdgeRouterFirewallLines(p);
    assert forall i :: 0 <= i < 4 ==> l[i][..|Rule30|] == Rule30;
    assert DestinationPortKey == Rule30 + "destination port ";
    DivergeAt(Rule30, "action accept", "destination port ", 0);
    DivergeAt(Rule30, "description openvpn", "destination port ", 3);
    SettingAt(l, DestinationPortKey, 2, IntToString(p.vpnPort));
  }

  /** The rule's protocol is always UDP, whatever the UDP option says. */
  lemma EdgeFirewallAlwaysUdp(p: VpnSettings)
    ensures Setting(EdgeRouterFirewallLines(p), ProtocolKey) == Some("udp")
    ensures EdgeRouterFirewall(p) == EdgeRouterFirewall(p.(optUseUDP := !p.optUseUDP))
  {
    var l := EdgeRouterFirewallLines(p);
    var port := "destination port " + IntToString(p.vpnPort);
    assert l[2] == Rule30 + port;
    assert ProtocolKey == Rule30 + "protocol ";
    DivergeAt(Rule30, "action accept", "protocol ", 0);
    DivergeAt(Rule30, "description openvpn", "protocol ", 0);
    DivergeAt(Rule30, port, "protocol ", 0);
    SettingAt(l, ProtocolKey, 3, "udp");
  }

  // ---------------------------------------------------------------------------
  // Dispatch on the router mode
  // ---------------------------------------------------------------------------

  /** `generateAdditionalConfig`: the server settings in the router's dialect,
      `undefined` (`None`) for any other mode. */
  function AdditionalConfig(p: VpnSettings): (r: Option<string>)
    ensures r.Some? <==> IsDdWrtMode(p.optRouterMode) || IsEdgeRouterMode(p.optRouterMode)
    ensures IsDdWrtMode(p.optRouterMode) ==> r == Some(DdWrtConfig(p))
    ensures IsEdgeRouterMode(p.optRouterMode) ==> r == Some(EdgeRouterConfig(p, None))
  {
    if IsDdWrtMode(p.optRouterMode) then Some(DdWrtConfig(p))
    else if IsEdgeRouterMode(p.optRouterMode) then Some(EdgeRouterConfig(p, None))
    else None
  }

  /** `generateIpTablesConfig`: the firewall rules in the router's dialect,
      `undefined` (`None`) for any other mode. */
  function IpTablesConfig(p: VpnSettings): (r: Option<string>)
    ensures r.Some? <==> IsDdWrtMode(p.optRouterMode) || IsEdgeRouterMode(p.optRouterMode)
    ensures IsDdWrtMode(p.optRouterMode) ==> r == Some(DdWrtIpTables(p))
    ensures IsEdgeRouterMode(p.optRouterMode) ==> r == Some(EdgeRouterFirewall(p))
  {
    if IsDdWrtMode(p.optRouterMode) then Some(DdWrtIpTables(p))
    else if IsEdgeRouterMode(p.optRouterMode) then Some(EdgeRouterFirewall(p))
    else None
  }

  /** An EdgeRouter reads its key material from /config/auth. */
  lemma EdgeRouterDefaultDir(p: VpnSettings)
    requires IsEdgeRouterMode(p.optRouterMode) && OneLineFields(p)
    ensures var lines := Split(AdditionalConfig(p).value, '\n');
      Setting(lines, CaCertKey) == Some(DefaultConfigDir + "/ca.crt")
      && Setting(lines, DhKey) == Some(DefaultConfigDir + "/dh.pem")
  {
    DefaultConfigDirIsLine();
    EdgeRouterConfigLines(p, None);
    EdgeCaCertSetting(p, DefaultConfigDir);
    EdgeDhSetting(p, DefaultConfigDir);
  }
}
