/** Input checking of the wizard's text fields: the ASCII test, the gate an
    edit passes before it reaches the form, the error text a field shows,
    and the checks the network fields use, among them the IPv4 address
    pattern. */
module Validation {
  import opened Wrappers
  import opened Strings
  import opened Js
  import opened Subnet

  // ---------------------------------------------------------------------------
  // isASCII
  // ---------------------------------------------------------------------------

  /** The top of the character class: `\x7F`, or `\xFF` when extended. */
  function MaxCode(extended: bool): nat {
    if extended then 0xFF else 0x7F
  }

  /** `/^[\x00-\x7F]*$/.test(s)` (or `\xFF`): the class is matched one
      character at a time up to the end. */
  predicate IsAscii(s: string, extended: bool)
    decreases |s|
  {
    |s| == 0 || (s[0] as int <= MaxCode(extended) && IsAscii(s[1..], extended))
  }

  /** Every character is at most the class's top code. */
  predicate AllCodesAtMost(s: string, max: nat) {
    forall i :: 0 <= i < |s| ==> s[i] as int <= max
  }

  /** The scan accepts exactly the strings whose every character is in the
      class, the empty string among them. */
  lemma {:induction false} IsAsciiMeaning(s: string, extended: bool)
    ensures IsAscii(s, extended) <==> AllCodesAtMost(s, MaxCode(extended))
    ensures IsAscii("", extended)
    decreases |s|
  {
    if |s| > 0 {
      IsAsciiMeaning(s[1..], extended);
      assert forall i :: 1 <= i < |s| ==> s[i] == s[1..][i - 1];
    }
  }

  /** Plain ASCII is also extended ASCII. */
  lemma AsciiIsExtended(s: string)
    requires IsAscii(s, false)
    ensures IsAscii(s, true)
  {
    IsAsciiMeaning(s, false);
    IsAsciiMeaning(s, true);
  }

  // ---------------------------------------------------------------------------
  // The edit gate and the error text of a field
  // ---------------------------------------------------------------------------

  /** The options of a text field that take part in checking. A validator
      vets an edit before it is stored; a pattern and a checker judge the
      stored value for display. */
  datatype FieldOptions = FieldOptions(
    required: bool,
    pattern: Option<Value -> bool>,
    checker: Option<Value -> Option<string>>,
    validator: Option<string -> bool>)

  /** What an edit does to the form: `onChange(fieldName, value)` runs only
      when the typed value is ASCII and the validator, if any, accepts it;
      otherwise the form stays as it was. */
  function EditField(form: Form, fieldName: string, value: string, validator: Option<string -> bool>,
                     onChange: (Form, string, string) -> Form): (r: Form)
    ensures r != form ==> AllCodesAtMost(value, 0x7F) && (validator.Some? ==> validator.value(value))
    ensures AllCodesAtMost(value, 0x7F) && validator.None? ==> r == onChange(form, fieldName, value)
  {
    IsAsciiMeaning(value, false);
    if IsAscii(value, false) && (validator.None? || validator.value(value)) then onChange(form, fieldName, value)
    else form
  }

  /** `object[fieldName] || ''`: a missing or falsy entry reads as the empty text. */
  function FieldValue(form: Form, fieldName: string): (v: Value)
    ensures Truthy(v) || v == Text("")
    ensures TruthyAt(form, fieldName) ==> v == form[fieldName]
  {
    if TruthyAt(form, fieldName) then form[fieldName] else Text("")
  }

  const RequiredText := "This field is required"
  const PatternText := "Input format is not valid"

  /** The first complaint a field has: a missing value before a pattern
      mismatch, a pattern mismatch before the checker's message. `None` when
      it has none. */
  function ErrorText(options: FieldOptions, value: Value): (e: Option<string>)
    ensures options.required && !Truthy(value) ==> e == Some(RequiredText)
    ensures !(options.required && !Truthy(value)) && options.pattern.Some? && !options.pattern.value(value) ==>
              e == Some(PatternText)
    ensures e.Some? && e != Some(RequiredText) && e != Some(PatternText) ==>
              options.checker.Some? && options.checker.value(value) == e
  {
    if options.required && !Truthy(value) then Some(RequiredText)
    else if options.pattern.Some? && !options.pattern.value(value) then Some(PatternText)
    else if options.checker.Some? then options.checker.value(value)
    else None
  }

  /** A field is silent exactly when it passes all three checks. */
  lemma ErrorTextSilent(options: FieldOptions, value: Value)
    ensures ErrorText(options, value).None? <==>
              && !(options.required && !Truthy(value))
              && (options.pattern.None? || options.pattern.value(value))
              && (options.checker.None? || options.checker.value(value).None?)
  {
  }

  // ---------------------------------------------------------------------------
  // The IPv4 address pattern
  // ---------------------------------------------------------------------------

  /** One octet of the pattern, `25[0-5]|2[0-4]\d|1\d\d|[1-9]?\d`, matching
      the whole of `s`. */
  predicate OctetText(s: string) {
    || (|s| == 3 && s[0] == '2' && s[1] == '5' && '0' <= s[2] <= '5')
    || (|s| == 3 && s[0] == '2' && '0' <= s[1] <= '4' && IsDigit(s[2]))
    || (|s| == 3 && s[0] == '1' && IsDigit(s[1]) && IsDigit(s[2]))
    || (|s| == 2 && '1' <= s[0] <= '9' && IsDigit(s[1]))
    || (|s| == 1 && IsDigit(s[0]))
  }

  /** `k` repetitions of `(^|\.)octet` spanning all of `w`; `atStart` says
      whether `w` begins at the start of the tested text, where `^` matches. */
  predicate Units(w: string, atStart: bool, k: nat)
    decreases k, 1
  {
    if k == 0 then w == ""
    else (atStart && OctetUnits(w, k)) || (|w| > 0 && w[0] == '.' && OctetUnits(w[1..], k))
  }

  /** An octet of one to three characters opens `w`, then `k - 1` units
      follow (no longer at the start of the text). */
  predicate OctetUnits(w: string, k: nat)
    requires k >= 1
    decreases k, 0
  {
    OctetThen(w, 1, k) || OctetThen(w, 2, k) || OctetThen(w, 3, k)
  }

  /** The first `n` characters of `w` are an octet, then `k - 1` units follow. */
  predicate OctetThen(w: string, n: nat, k: nat)
    requires k >= 1
    decreases k, 0, n
  {
    |w| >= n && OctetText(w[..n]) && Units(w[n..], false, k - 1)
  }

  /** A match of the pattern starting at offset `i` or later. */
  predicate MatchFrom(v: string, i: nat)
    requires i <= |v|
    decreases |v| - i
  {
    Units(v[i..], i == 0, 4) || (i < |v| && MatchFrom(v, i + 1))
  }

  /** `new RegExp(IP_ADDRESS_PATTERN).test(v)` for the pattern as written,
      `((^|\.)octet){4}$`: only the end is anchored, so the match may start
      at any offset. */
  predicate IpPatternTest(v: string) {
    MatchFrom(v, 0)
  }

  /** The evidently intended test, `^octet(\.octet){3}$`: the whole text is
      four octets joined by dots. */
  predicate IsIpAddress(v: string) {
    OctetUnits(v, 4)
  }

  /** A dotted quad of octets 0..255 written without leading zeros. */
  ghost predicate IsDottedQuad(v: string) {
    exists a: nat, b: nat, c: nat, d: nat :: a < 256 && b < 256 && c < 256 && d < 256 && v == DottedQuadText(a, b, c, d)
  }

  /** Every number 0..255, written in decimal, is an octet of the pattern. */
  lemma OctetOfNumber(a: nat)
    requires a < 256
    ensures OctetText(NatToString(a))
  {
    if a >= 100 {
      assert NatToString(a) == NatToString(a / 10) + [DigitChar(a % 10)];
      assert NatToString(a / 10) == [DigitChar(a / 100)] + [DigitChar(a / 10 % 10)];
    } else if a >= 10 {
      assert NatToString(a) == [DigitChar(a / 10)] + [DigitChar(a % 10)];
    }
  }

  /** Appending a digit to a numeral multiplies by ten and adds the digit. */
  lemma NumeralStep(q: nat, r: nat)
    requires 1 <= q && r < 10
    ensures NatToString(10 * q + r) == NatToString(q) + [DigitChar(r)]
  {
    var v := 10 * q + r;
    assert v / 10 == q && v % 10 == r;
  }

  lemma NumberOfTwoDigits(s: string)
    requires |s| == 2 && AllDigits(s) && s[0] != '0'
    ensures DigitsValue(s) == 10 * DigitValue(s[0]) + DigitValue(s[1])
    ensures NatToString(DigitsValue(s)) == s
  {
    assert DigitsValue(s[..1]) == DigitValue(s[0]);
    NumeralStep(DigitValue(s[0]), DigitValue(s[1]));
    assert NatToString(DigitValue(s[0])) == [s[0]];
    assert s == [s[0]] + [s[1]];
  }

  lemma ValueOfThree(s: string)
    requires |s| == 3 && AllDigits(s)
    ensures DigitsValue(s) == 100 * DigitValue(s[0]) + 10 * DigitValue(s[1]) + DigitValue(s[2])
  {
    assert s[..2][..1] == s[..1];
    assert s[..1][..0] == "";
    assert DigitsValue(s[..1]) == DigitValue(s[0]);
    assert DigitsValue(s[..2]) == 10 * DigitValue(s[0]) + DigitValue(s[1]);
  }

  lemma NumberOfThreeDigits(s: string)
    requires |s| == 3 && AllDigits(s) && s[0] != '0'
    ensures NatToString(DigitsValue(s)) == s
  {
    var head := s[..2];
    NumberOfTwoDigits(head);
    assert DigitsValue(s) == 10 * DigitsValue(head) + DigitValue(s[2]);
    NumeralStep(DigitsValue(head), DigitValue(s[2]));
    assert head + [s[2]] == s;
  }

  /** An octet of the pattern is the decimal numeral of a number 0..255. */
  lemma NumberOfOctet(s: string)
    requires OctetText(s)
    ensures AllDigits(s) && DigitsValue(s) < 256 && NatToString(DigitsValue(s)) == s
  {
    assert AllDigits(s);
    if |s| == 3 {
      ValueOfThree(s);
      NumberOfThreeDigits(s);
    } else if |s| == 2 {
      NumberOfTwoDigits(s);
    } else {
      assert s[..0] == "";
      assert s == [s[0]];
    }
  }

  /** Octets joined by dots satisfy the anchored test. */
  lemma {:induction false} JoinedOctets(parts: seq<string>)
    requires |parts| >= 1
    requires forall i :: 0 <= i < |parts| ==> OctetText(parts[i])
    ensures OctetUnits(Join(parts, '.'), |parts|)
    decreases |parts|
  {
    var w := Join(parts, '.');
    var n := |parts[0]|;
    if |parts| == 1 {
      assert w[..n] == w && w[n..] == "";
      assert OctetThen(w, n, 1);
    } else {
      JoinedOctets(parts[1..]);
      var rest := Join(parts[1..], '.');
      assert w == parts[0] + ("." + rest);
      assert w[..n] == parts[0];
      assert w[n..] == "." + rest;
      assert ("." + rest)[1..] == rest;
      assert OctetThen(w, n, |parts|);
    }
  }

  /** And what the anchored test accepts is octets joined by dots. */
  lemma {:induction false} OctetsOfUnits(w: string, k: nat) returns (parts: seq<string>)
    requires k >= 1 && OctetUnits(w, k)
    ensures |parts| == k
    ensures forall i :: 0 <= i < |parts| ==> OctetText(parts[i])
    ensures w == Join(parts, '.')
    decreases k
  {
    var n: nat := if OctetThen(w, 1, k) then 1 else if OctetThen(w, 2, k) then 2 else 3;
    assert OctetThen(w, n, k);
    var rest := w[n..];
    if k == 1 {
      assert w == w[..n] + rest;
      parts := [w[..n]];
    } else {
      assert Units(rest, false, k - 1);
      assert |rest| > 0 && rest[0] == '.' && OctetUnits(rest[1..], k - 1);
      var more := OctetsOfUnits(rest[1..], k - 1);
      parts := [w[..n]] + more;
      assert parts[1..] == more;
      assert rest == "." + rest[1..];
      assert w == w[..n] + rest;
    }
  }

  lemma AddressIsDottedQuad(v: string)
    requires IsIpAddress(v)
    ensures IsDottedQuad(v)
  {
    var parts := OctetsOfUnits(v, 4);
    NumberOfOctet(parts[0]);
    NumberOfOctet(parts[1]);
    NumberOfOctet(parts[2]);
    NumberOfOctet(parts[3]);
    var a, b, c, d := DigitsValue(parts[0]), DigitsValue(parts[1]), DigitsValue(parts[2]), DigitsValue(parts[3]);
    assert parts == [NatToString(a), NatToString(b), NatToString(c), NatToString(d)];
    assert v == DottedQuadText(a, b, c, d);
  }

  lemma DottedQuadIsAddress(a: nat, b: nat, c: nat, d: nat)
    requires a < 256 && b < 256 && c < 256 && d < 256
    ensures IsIpAddress(DottedQuadText(a, b, c, d))
  {
    OctetOfNumber(a);
    OctetOfNumber(b);
    OctetOfNumber(c);
    OctetOfNumber(d);
    JoinedOctets([NatToString(a), NatToString(b), NatToString(c), NatToString(d)]);
  }

  /** The intended test accepts exactly the dotted quads, and the pattern as
      written accepts all of them too. */
  lemma IsIpAddressIffDottedQuad(v: string)
    ensures IsIpAddress(v) <==> IsDottedQuad(v)
    ensures IsIpAddress(v) ==> IpPatternTest(v)
  {
    if IsIpAddress(v) {
      AddressIsDottedQuad(v);
      assert Units(v, true, 4);
    }
    if IsDottedQuad(v) {
      var a: nat, b: nat, c: nat, d: nat :| a < 256 && b < 256 && c < 256 && d < 256 && v == DottedQuadText(a, b, c, d);
      DottedQuadIsAddress(a, b, c, d);
    }
  }

  /** Octets are digits only, so octets joined by dots hold one dot fewer
      than octets. */
  lemma {:induction false} JoinedOctetDots(parts: seq<string>)
    requires |parts| >= 1
    requires forall i :: 0 <= i < |parts| ==> '.' !in parts[i]
    ensures CountChar(Join(parts, '.'), '.') == |parts| - 1
    decreases |parts|
  {
    if |parts| > 1 {
      JoinedOctetDots(parts[1..]);
      CountCharAppend(parts[0], "." + Join(parts[1..], '.'), '.');
      assert Join(parts, '.') == parts[0] + ("." + Join(parts[1..], '.'));
    }
  }

  /** The last four octets of "10.0.0.0.1", each after a dot, are four
      units of the pattern. */
  lemma FourDottedUnits()
    ensures Units(".0.0.0.1", false, 4)
  {
    assert OctetText("1") && OctetText("0");
    assert OctetThen("1", 1, 1) by { assert "1"[..1] == "1" && "1"[1..] == ""; }
    assert Units(".1", false, 1) by { assert ".1"[1..] == "1"; }
    assert OctetThen("0.1", 1, 2) by { assert "0.1"[..1] == "0" && "0.1"[1..] == ".1"; }
    assert Units(".0.1", false, 2) by { assert ".0.1"[1..] == "0.1"; }
    assert OctetThen("0.0.1", 1, 3) by { assert "0.0.1"[..1] == "0" && "0.0.1"[1..] == ".0.1"; }
    assert Units(".0.0.1", false, 3) by { assert ".0.0.1"[1..] == "0.0.1"; }
    assert OctetThen("0.0.0.1", 1, 4) by { assert "0.0.0.1"[..1] == "0" && "0.0.0.1"[1..] == ".0.0.1"; }
    assert ".0.0.0.1"[1..] == "0.0.0.1";
  }

  /** The pattern as written lets five octets through: its match may start at
      the dot before the second one. The intended test rejects them. */
  lemma AsWrittenAcceptsFiveOctets()
    ensures IpPatternTest("10.0.0.0.1")
    ensures !IsIpAddress("10.0.0.0.1")
  {
    var v := "10.0.0.0.1";
    MatchesFromTwo();
    assert MatchFrom(v, 1);
    AddressDots(v);
    FiveOctetDots();
  }

  lemma MatchesFromTwo()
    ensures MatchFrom("10.0.0.0.1", 2)
  {
    var v := "10.0.0.0.1";
    assert v[2..] == ".0.0.0.1";
    FourDottedUnits();
  }

  lemma FiveOctetsJoined()
    ensures Join(["10", "0", "0", "0", "1"], '.') == "10.0.0.0.1"
  {
    var parts := ["10", "0", "0", "0", "1"];
    assert Join(parts[4..], '.') == "1";
    assert Join(parts[3..], '.') == "0" + "." + "1";
    assert parts[2..][1..] == parts[3..];
    assert Join(parts[2..], '.') == "0" + "." + "0.1";
    assert parts[1..][1..] == parts[2..];
    assert Join(parts[1..], '.') == "0" + "." + "0.0.1";
  }

  lemma FiveOctetDots()
    ensures CountChar("10.0.0.0.1", '.') == 4
  {
    var parts := ["10", "0", "0", "0", "1"];
    FiveOctetsJoined();
    assert '.' !in parts[0] && '.' !in parts[1] && '.' !in parts[4];
    JoinedOctetDots(parts);
  }

  /** An address holds exactly three dots. */
  lemma AddressDots(v: string)
    ensures IsIpAddress(v) ==> CountChar(v, '.') == 3
  {
    if IsIpAddress(v) {
      var parts := OctetsOfUnits(v, 4);
      forall i | 0 <= i < 4 ensures '.' !in parts[i] {
        assert AllDigits(parts[i]);
      }
      JoinedOctetDots(parts);
    }
  }

  // ---------------------------------------------------------------------------
  // The checks of the network fields
  // ---------------------------------------------------------------------------

  /** The VPN port validator: the typed text read as a number lies in
      1..65535 (NaN fails both comparisons). */
  function PortValidator(value: string): (ok: bool)
    ensures ok ==> ToNumber(value).Finite?
  {
    Within(ToNumber(value), 1.0, 65535.0)
  }

  /** On plain decimal digits the validator is the port range check. */
  lemma PortValidatorDigits(value: string)
    requires |value| > 0 && AllDigits(value)
    ensures PortValidator(value) <==> 1 <= DigitsValue(value) <= 65535
  {
    assert !IsDigit('x') && !IsDigit('X') && !IsDigit('o') && !IsDigit('O') && !IsDigit('b') && !IsDigit('B');
    DigitsToNumber(value);
    var n := DigitsValue(value);
    assert PortValidator(value) == Within(Finite(n as real), 1.0, 65535.0);
  }

  const NetworkAddressWarning := "network addresses usually end in \".0\", but this entry doesn't"

  /** The internal network checker: a warning for a non-empty text that does
      not end in ".0". */
  function InternalNetworkChecker(value: Value): (warning: Option<string>)
    ensures warning.Some? ==> warning.value == NetworkAddressWarning && Truthy(value)
    ensures value.Text? && value.s != "" && !EndsWith(value.s, ".0") ==> warning.Some?
    ensures value.Text? && EndsWith(value.s, ".0") ==> warning.None?
  {
    if Truthy(value) && value.Text? && !EndsWith(value.s, ".0") then Some(NetworkAddressWarning) else None
  }

  /** The address pattern as the page applies it, `new RegExp(pattern).test`
      on the value's text: the unanchored search of the pattern as written
      (a number's text never has three dots). */
  function AddressPattern(value: Value): bool {
    value.Text? && IpPatternTest(value.s)
  }

  /** The field options of the network properties. */
  function PortField(): (o: FieldOptions)
    ensures o.required && o.validator.Some?
  {
    FieldOptions(true, None, None, Some(PortValidator))
  }

  function InternalNetworkField(): (o: FieldOptions)
    ensures o.required && o.pattern.Some? && o.checker.Some? && o.validator.None?
  {
    FieldOptions(true, Some(AddressPattern), Some(InternalNetworkChecker), None)
  }

  function AddressField(): (o: FieldOptions)
    ensures o.required && o.pattern.Some? && o.checker.None? && o.validator.None?
  {
    FieldOptions(true, Some(AddressPattern), None, None)
  }

  /** An address field is silent exactly when its text is non-empty and the
      pattern as written finds a match in it. */
  lemma AddressFieldSilent(s: string)
    ensures ErrorText(AddressField(), Text(s)).None? <==> s != "" && IpPatternTest(s)
  {
    ErrorTextSilent(AddressField(), Text(s));
  }

  /** The page takes five octets as an address: the field shows no error. */
  lemma AddressFieldAcceptsFiveOctets()
    ensures ErrorText(AddressField(), Text("10.0.0.0.1")).None?
    ensures !IsIpAddress("10.0.0.0.1")
  {
    AsWrittenAcceptsFiveOctets();
    AddressFieldSilent("10.0.0.0.1");
  }

  /** A network address ending in ".0" shows no complaint at all; one that
      is an address but does not end in ".0" shows only the warning. */
  lemma InternalNetworkErrors(s: string)
    requires IsIpAddress(s)
    ensures EndsWith(s, ".0") ==> ErrorText(InternalNetworkField(), Text(s)).None?
    ensures !EndsWith(s, ".0") ==> ErrorText(InternalNetworkField(), Text(s)) == Some(NetworkAddressWarning)
  {
    assert |s| > 0;
    IsIpAddressIffDottedQuad(s);
    assert AddressPattern(Text(s));
  }
}
