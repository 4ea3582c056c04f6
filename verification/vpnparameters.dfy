/** The change handlers of the VPN parameters page: a field edit stores the
    new value and keeps three derived fields in step with it, the router's
    internal address, the certificate common name and the flag recording
    that the common name was typed by hand. */
module VpnParameters {
  import opened Wrappers
  import opened Strings
  import opened Js
  import opened Subnet
  import opened Validation

  const InternalNetworkKey := "internalNetwork"
  const RouterInternalIpKey := "routerInternalIP"
  const PublicAddressKey := "networkPublicIpOrDDNSAddressOfRouter"
  const CommonNameKey := "commonName"
  const CommonNameSetKey := "commonNameHasBeenSet"
  const UserKeysDirKey := "userKeysDir"

  /** What one edit produces: the parameters handed to the page's listener,
      and the new key files directory when the edit was to that field. */
  datatype Change = Change(params: Form, keyfilesPath: Option<Value>)

  /** `.0` at the end of a network replaced by `.1`. */
  function RouterIpOf(network: string): (ip: string)
    requires EndsWith(network, ".0")
    ensures |ip| == |network| && ip[..|ip| - 1] == network[..|network| - 1] && ip[|ip| - 1] == '1'
  {
    network[..|network| - 2] + ".1"
  }

  /** `handleChange(field, value)`. An edit of the internal network with a
      value that is not text calls `endsWith` on a number and throws: `None`. */
  function HandleChange(params: Form, field: string, value: Value): (c: Option<Change>)
    ensures c.None? <==> field == InternalNetworkKey && !value.Text?
    ensures c.Some? ==> (c.value.keyfilesPath.Some? <==> field == UserKeysDirKey)
  {
    if field == InternalNetworkKey && !value.Text? then None
    else
      var stored := params[field := value];
      var routed :=
        if field == InternalNetworkKey && EndsWith(value.s, ".0")
        then stored[RouterInternalIpKey := Text(RouterIpOf(value.s))]
        else stored;
      var named :=
        if field == PublicAddressKey && !TruthyAt(routed, CommonNameSetKey)
        then routed[CommonNameKey := value]
        else routed;
      var flagged := if field == CommonNameKey then named[CommonNameSetKey := Flag(true)] else named;
      Some(Change(flagged, if field == UserKeysDirKey then Some(value) else None))
  }

  /** `handleNumericChange(field, value)`: the typed text read as a number. */
  function HandleNumericChange(params: Form, field: string, text: string): (c: Option<Change>)
    ensures c.Some? <==> field != InternalNetworkKey
    ensures c.Some? ==> field in c.value.params && c.value.params[field] == Num(ToNumber(text))
  {
    HandleChange(params, field, Num(ToNumber(text)))
  }

  /** The fields an edit of `field` may touch. */
  predicate Derived(field: string, key: string) {
    key == field || key == RouterInternalIpKey || key == CommonNameKey || key == CommonNameSetKey
  }

  /** The edited field holds the new value, unless it is itself derived
      from a later rule; every other field is left as it was. */
  lemma HandleChangeFrame(params: Form, field: string, value: Value)
    requires HandleChange(params, field, value).Some?
    ensures var p := HandleChange(params, field, value).value.params;
      (forall k :: !Derived(field, k) ==> (k in p <==> k in params))
      && (forall k :: !Derived(field, k) && k in params ==> p[k] == params[k])
      && field in p
      && (field != RouterInternalIpKey && field != CommonNameKey && field != CommonNameSetKey ==> p[field] == value)
  {
  }

  /** The router's address follows the internal network exactly when the
      network is text ending in ".0"; otherwise it is left as it was. */
  lemma RouterIpFollowsNetwork(params: Form, network: string)
    ensures var p := HandleChange(params, InternalNetworkKey, Text(network)).value.params;
      (EndsWith(network, ".0") ==> p[RouterInternalIpKey] == Text(RouterIpOf(network)))
      && (!EndsWith(network, ".0") ==>
            (RouterInternalIpKey in p <==> RouterInternalIpKey in params)
            && (RouterInternalIpKey in params ==> p[RouterInternalIpKey] == params[RouterInternalIpKey]))
  {
  }

  /** Once the common name is typed by hand, a later public address edit
      leaves it alone. */
  lemma CommonNameSticks(params: Form, name: Value, address: Value)
    ensures var p1 := HandleChange(params, CommonNameKey, name).value.params;
      var p2 := HandleChange(p1, PublicAddressKey, address).value.params;
      p2[CommonNameKey] == name && p2[CommonNameSetKey] == Flag(true)
  {
    var p1 := HandleChange(params, CommonNameKey, name).value.params;
    assert p1[CommonNameSetKey] == Flag(true);
    assert TruthyAt(p1, CommonNameSetKey);
  }

  /** Before that, the public address is copied into the common name. */
  lemma CommonNameFollowsAddress(params: Form, address: Value)
    requires !TruthyAt(params, CommonNameSetKey)
    ensures HandleChange(params, PublicAddressKey, address).value.params[CommonNameKey] == address
  {
  }

  /** No edit of another field clears the flag. */
  lemma CommonNameFlagKept(params: Form, field: string, value: Value)
    requires TruthyAt(params, CommonNameSetKey) && field != CommonNameSetKey
    requires HandleChange(params, field, value).Some?
    ensures TruthyAt(HandleChange(params, field, value).value.params, CommonNameSetKey)
  {
  }

  /** The router address derived from a network address ending in ".0" is
      the same dotted quad with last octet 1. */
  lemma RouterIpOfAddress(a: nat, b: nat, c: nat, d: nat)
    requires a < 256 && b < 256 && c < 256 && d < 256
    requires EndsWith(DottedQuadText(a, b, c, d), ".0")
    ensures d == 0 && RouterIpOf(DottedQuadText(a, b, c, d)) == DottedQuadText(a, b, c, 1)
  {
    var head := NatToString(a) + "." + NatToString(b) + "." + NatToString(c);
    var last := NatToString(d);
    var s := DottedQuadText(a, b, c, d);
    QuadText(NatToString(a), NatToString(b), NatToString(c), last);
    assert s == head + "." + last;
    NatToStringCanonical(d);
    assert s[|s| - 2..] == ".0";
    assert forall i :: |head| + 1 <= i < |s| ==> s[i] == last[i - |head| - 1];
    assert s[|s| - 2] == '.' && !IsDigit('.');
    assert last == [s[|s| - 1]];
    assert last == "0";
    assert d == DigitsValue("0");
    QuadText(NatToString(a), NatToString(b), NatToString(c), NatToString(1));
    assert |s| == |head| + 2;
    assert s[..|head|] == head;
    assert NatToString(1) == "1";
  }
}
