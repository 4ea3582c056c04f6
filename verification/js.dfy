/** The JavaScript values the wizard keeps in its state objects, their
    truthiness, and `Number(string)` (ECMAScript StringToNumber) over exact
    reals. */
module Js {
  import opened Wrappers
  import opened Strings

  /** A JavaScript number, kept exact: a finite real, one of the two
      infinities, or NaN. */
  datatype JsNum = Finite(r: real) | PosInf | NegInf | NaN

  /** A value stored in a state object: text, a number or a boolean. A missing
      key of a `Form` plays the part of `undefined`. */
  datatype Value = Text(s: string) | Num(n: JsNum) | Flag(b: bool)

  /** A plain JavaScript object with string keys. */
  type Form = map<string, Value>

  /** JavaScript truthiness: empty text, zero, NaN and false are falsy. */
  predicate Truthy(v: Value) {
    match v
    case Text(s) => s != ""
    case Num(n) => !n.NaN? && !(n.Finite? && n.r == 0.0)
    case Flag(b) => b
  }

  /** Truthiness of `object[key]`; an absent key is `undefined`, which is falsy. */
  predicate TruthyAt(f: Form, key: string) {
    key in f && Truthy(f[key])
  }

  /** `x < c` for a number literal `c`; NaN compares false. */
  predicate Below(x: JsNum, c: real) {
    match x
    case Finite(r) => r < c
    case NegInf => true
    case PosInf => false
    case NaN => false
  }

  /** `x >= lo && x <= hi` for number literals; NaN compares false. */
  predicate Within(x: JsNum, lo: real, hi: real) {
    x.Finite? && lo <= x.r <= hi
  }

  // ---------------------------------------------------------------------------
  // Number(string)
  // ---------------------------------------------------------------------------

  function Pow10(n: nat): (r: real)
    ensures r >= 1.0
  {
    if n == 0 then 1.0 else 10.0 * Pow10(n - 1)
  }

  /** The number of leading decimal digits of `s`. */
  function DigitRunLength(s: string): (k: nat)
    ensures k <= |s|
    ensures AllDigits(s[..k])
    ensures k < |s| ==> !IsDigit(s[k])
    decreases |s|
  {
    if |s| > 0 && IsDigit(s[0]) then
      var k := 1 + DigitRunLength(s[1..]);
      assert s[..k] == [s[0]] + s[1..][..k - 1];
      k
    else 0
  }

  /** An exponent: an optional sign and at least one digit, nothing else. */
  function ParseExponent(s: string): Option<int> {
    var negative := |s| > 0 && s[0] == '-';
    var digits := if |s| > 0 && (s[0] == '-' || s[0] == '+') then s[1..] else s;
    if |digits| > 0 && AllDigits(digits) then
      var v: int := DigitsValue(digits);
      Some(if negative then -v else v)
    else None
  }

  function Scale(m: real, e: int): real {
    if e >= 0 then m * Pow10(e) else m / Pow10(-e)
  }

  /** A decimal literal cut into its integer digits, fraction digits and
      whatever follows them. */
  datatype DecimalParts = DecimalParts(intDigits: string, fracDigits: string, rest: string)

  function SplitDecimal(u: string): (p: DecimalParts)
    ensures AllDigits(p.intDigits) && AllDigits(p.fracDigits)
  {
    var i := DigitRunLength(u);
    var afterInt := u[i..];
    if |afterInt| > 0 && afterInt[0] == '.' then
      var afterDot := afterInt[1..];
      var f := DigitRunLength(afterDot);
      DecimalParts(u[..i], afterDot[..f], afterDot[f..])
    else DecimalParts(u[..i], "", afterInt)
  }

  function Mantissa(intDigits: string, fracDigits: string): real
    requires AllDigits(intDigits) && AllDigits(fracDigits)
  {
    DigitsValue(intDigits) as real + DigitsValue(fracDigits) as real / Pow10(|fracDigits|)
  }

  /** StrUnsignedDecimalLiteral without `Infinity`: digits, an optional
      fraction and an optional exponent, with at least one digit before the
      exponent. */
  function ParseUnsignedDecimal(u: string): Option<real> {
    var p := SplitDecimal(u);
    if |p.intDigits| + |p.fracDigits| == 0 then None
    else
      var m := Mantissa(p.intDigits, p.fracDigits);
      if p.rest == "" then Some(m)
      else if p.rest[0] == 'e' || p.rest[0] == 'E' then
        match ParseExponent(p.rest[1..])
        case Some(e) => Some(Scale(m, e))
        case None => None
      else None
  }

  function RadixOf(c: char): nat {
    if c == 'x' || c == 'X' then 16 else if c == 'o' || c == 'O' then 8 else 2
  }

  function RadixDigit(c: char): Option<nat> {
    if '0' <= c <= '9' then Some(c as int - '0' as int)
    else if 'a' <= c <= 'f' then Some(c as int - 'a' as int + 10)
    else if 'A' <= c <= 'F' then Some(c as int - 'A' as int + 10)
    else None
  }

  /** The value of a non-empty digit string in the given radix. */
  function ParseRadix(s: string, radix: nat): Option<nat>
    decreases |s|
  {
    if |s| == 0 then None
    else
      var d := RadixDigit(s[|s| - 1]);
      if d.None? || d.value >= radix then None
      else if |s| == 1 then Some(d.value)
      else
        match ParseRadix(s[..|s| - 1], radix)
        case Some(v) => Some(radix * v + d.value)
        case None => None
  }

  /** `Number(s)` for a string `s`: surrounding white space is ignored, the
      empty string is 0, `0x`/`0o`/`0b` literals are read in their radix,
      `Infinity` with an optional sign is infinite, decimal literals are read
      exactly, and anything else is NaN. */
  function ToNumber(s: string): (n: JsNum)
    ensures Trim(s) == "" ==> n == Finite(0.0)
  {
    NumberOfTrimmed(Trim(s))
  }

  /** StringNumericLiteral once the surrounding white space is gone. */
  function NumberOfTrimmed(t: string): JsNum {
    if t == "" then Finite(0.0)
    else if |t| >= 2 && t[0] == '0' && t[1] in "xXoObB" then
      match ParseRadix(t[2..], RadixOf(t[1]))
      case Some(v) => Finite(v as real)
      case None => NaN
    else
      var negative := t[0] == '-';
      var u := if t[0] == '-' || t[0] == '+' then t[1..] else t;
      if u == "Infinity" then (if negative then NegInf else PosInf)
      else
        match ParseUnsignedDecimal(u)
        case Some(r) => Finite(if negative then -r else r)
        case None => NaN
  }

  /** `Number(x)` for a value that is a string or `null`; `Number(null)` is 0. */
  function ToNumberOrNull(x: Option<string>): JsNum {
    match x
    case Some(s) => ToNumber(s)
    case None => Finite(0.0)
  }

  const TwoTo32: nat := 0x1_0000_0000

  /** `x >>> 0`: ToUint32 of section 7.1.7 of ECMA-262. NaN and the
      infinities become 0; a finite number is truncated toward zero and
      reduced modulo 2^32. */
  function ToUint32(x: JsNum): (u: nat)
    ensures u < TwoTo32
    ensures x.Finite? && x.r == x.r.Floor as real && 0 <= x.r.Floor < TwoTo32 ==> u == x.r.Floor
  {
    match x
    case Finite(r) =>
      var truncated := if r >= 0.0 then r.Floor else -((-r).Floor);
      truncated % TwoTo32
    case _ => 0
  }

  /** A whole non-negative number reduces modulo 2^32. */
  lemma ToUint32OfNat(n: nat)
    ensures ToUint32(Finite(n as real)) == n % TwoTo32
  {
    assert (n as real).Floor == n;
  }

  lemma {:induction false} DigitRunOfDigits(s: string)
    requires AllDigits(s)
    ensures DigitRunLength(s) == |s|
    decreases |s|
  {
    if |s| > 0 {
      assert IsDigit(s[0]);
      DigitRunOfDigits(s[1..]);
    }
  }

  /** A run of digits is a decimal literal worth its decimal value. */
  lemma ParseDigits(s: string)
    requires |s| > 0 && AllDigits(s)
    ensures ParseUnsignedDecimal(s) == Some(DigitsValue(s) as real)
  {
    DigitRunOfDigits(s);
    assert s[..|s|] == s;
    assert SplitDecimal(s) == DecimalParts(s, "", "");
    assert Mantissa(s, "") == DigitsValue(s) as real;
  }

  /** A string without surrounding white space is its own trim. */
  lemma TrimUnpadded(s: string)
    requires |s| > 0 && !IsJsSpace(s[0]) && !IsJsSpace(s[|s| - 1])
    ensures Trim(s) == s
  {
    assert TrimStart(s) == s;
  }

  /** A numeral of plain digits reads back as its decimal value. */
  lemma DigitsToNumber(s: string)
    requires |s| > 0 && AllDigits(s)
    requires !(|s| >= 2 && s[0] == '0' && s[1] in "xXoObB")
    ensures ToNumber(s) == Finite(DigitsValue(s) as real)
  {
    TrimUnpadded(s);
    ParseDigits(s);
    assert s != "Infinity" by {
      assert !IsDigit('I');
    }
  }
}
