/** `subnetMaskToCidrPrefix`: the prefix length of a subnet mask, taken as the
    total number of one bits in the numbers the mask text spells. */
module Subnet {
  import opened Strings
  import opened Js
  import opened Der

  /** `s.match(/(\d+)/g)`: the maximal runs of decimal digits, left to
      right; the empty sequence stands for the `null` no match gives. */
  function DigitRuns(s: string): (runs: seq<string>)
    ensures forall i :: 0 <= i < |runs| ==> |runs[i]| > 0 && AllDigits(runs[i])
    decreases |s|
  {
    if |s| == 0 then []
    else if !IsDigit(s[0]) then DigitRuns(s[1..])
    else
      var k := DigitRunLength(s);
      [s[..k]] + DigitRuns(s[k..])
  }

  /** `n.toString(2)`: binary digits, most significant first, "0" for 0. */
  function BinaryString(n: nat): (b: string)
    ensures |b| >= 1
    decreases n
  {
    if n < 2 then [DigitChar(n)] else BinaryString(n / 2) + [DigitChar(n % 2)]
  }

  /** The number of one bits of `n`. */
  function Popcount(n: nat): nat
    decreases n
  {
    if n == 0 then 0 else n % 2 + Popcount(n / 2)
  }

  /** The count of the character '1' in a run's binary rendering, as
      `(x.toString(2).match(/1/g) || []).length` takes it. */
  function RunBits(run: string): nat {
    CountChar(BinaryString(ToUint32(ToNumber(run))), '1')
  }

  function SumRunBits(runs: seq<string>): nat
    decreases |runs|
  {
    if |runs| == 0 then 0 else RunBits(runs[0]) + SumRunBits(runs[1..])
  }

  /** The sum of the one bits of the numbers `runs` spell, each reduced to
      32 bits: the reference meaning of the prefix length. */
  function RunPopcount(run: string): nat
    requires AllDigits(run)
  {
    Popcount(DigitsValue(run) % TwoTo32)
  }

  function SumPopcounts(runs: seq<string>): nat
    requires forall i :: 0 <= i < |runs| ==> AllDigits(runs[i])
    decreases |runs|
  {
    if |runs| == 0 then 0 else RunPopcount(runs[0]) + SumPopcounts(runs[1..])
  }

  /** The prefix length of a mask: the one bits of every digit run added up.
      No digits at all gives 0, since the loop then has nothing to visit. */
  function SubnetMaskToCidrPrefix(mask: string): (prefix: nat)
    ensures prefix == SumPopcounts(DigitRuns(mask))
  {
    var runs := DigitRuns(mask);
    RunsBits(runs);
    SumRunBits(runs)
  }

  // ---------------------------------------------------------------------------
  // From the library's string counting to bits
  // ---------------------------------------------------------------------------

  /** The ones in the binary rendering are the one bits of the number. */
  lemma {:induction false} BinaryOnes(n: nat)
    ensures CountChar(BinaryString(n), '1') == Popcount(n)
    decreases n
  {
    if n >= 2 {
      BinaryOnes(n / 2);
      CountCharAppend(BinaryString(n / 2), [DigitChar(n % 2)], '1');
    }
  }

  /** A digit run reads as its decimal value, reduced to 32 bits. */
  lemma RunValue(run: string)
    requires |run| > 0 && AllDigits(run)
    ensures ToUint32(ToNumber(run)) == DigitsValue(run) % TwoTo32
  {
    assert !(|run| >= 2 && run[0] == '0' && run[1] in "xXoObB") by {
      if |run| >= 2 {
        assert IsDigit(run[1]);
      }
    }
    DigitsToNumber(run);
    ToUint32OfNat(DigitsValue(run));
  }

  lemma {:induction false} RunsBits(runs: seq<string>)
    requires forall i :: 0 <= i < |runs| ==> |runs[i]| > 0 && AllDigits(runs[i])
    ensures SumRunBits(runs) == SumPopcounts(runs)
    decreases |runs|
  {
    if |runs| > 0 {
      RunValue(runs[0]);
      BinaryOnes(DigitsValue(runs[0]) % TwoTo32);
      RunsBits(runs[1..]);
    }
  }

  // ---------------------------------------------------------------------------
  // Properties
  // ---------------------------------------------------------------------------

  /** A number below 2^k has at most k one bits. */
  lemma {:induction false} PopcountBelow(n: nat, k: nat)
    requires n < Pow2(k)
    ensures Popcount(n) <= k
    decreases k
  {
    if k > 0 && n > 0 {
      PopcountBelow(n / 2, k - 1);
    }
  }

  /** Text without digits has no runs, so its prefix length is 0. */
  lemma {:induction false} NoDigitsNoRuns(mask: string)
    requires forall i :: 0 <= i < |mask| ==> !IsDigit(mask[i])
    ensures DigitRuns(mask) == []
    ensures SubnetMaskToCidrPrefix(mask) == 0
    decreases |mask|
  {
    if |mask| > 0 {
      NoDigitsNoRuns(mask[1..]);
    }
  }

  /** A leading non-digit is skipped. */
  lemma DigitRunsSkip(sep: char, rest: string)
    requires !IsDigit(sep)
    ensures DigitRuns([sep] + rest) == DigitRuns(rest)
  {
    assert ([sep] + rest)[1..] == rest;
  }

  /** A run followed by a non-digit is split off whole. */
  lemma DigitRunsCons(run: string, sep: char, rest: string)
    requires |run| > 0 && AllDigits(run) && !IsDigit(sep)
    ensures DigitRuns(run + [sep] + rest) == [run] + DigitRuns(rest)
  {
    var s := run + [sep] + rest;
    var tail := [sep] + rest;
    assert s == run + tail;
    DigitRunPrefix(run, tail);
    assert s[0] == run[0];
    assert s[..|run|] == run;
    assert s[|run|..] == tail;
    DigitRunsSkip(sep, rest);
  }

  /** A whole-digit text followed by a non-digit has a run of exactly its length. */
  lemma {:induction false} DigitRunPrefix(run: string, rest: string)
    requires AllDigits(run) && |rest| > 0 && !IsDigit(rest[0])
    ensures DigitRunLength(run + rest) == |run|
    decreases |run|
  {
    if |run| > 0 {
      assert (run + rest)[1..] == run[1..] + rest;
      DigitRunPrefix(run[1..], rest);
    } else {
      assert run + rest == rest;
    }
  }

  /** Digits alone are one run. */
  lemma DigitRunsWhole(run: string)
    requires |run| > 0 && AllDigits(run)
    ensures DigitRuns(run) == [run]
  {
    DigitRunOfDigits(run);
    assert run[..|run|] == run;
    assert run[|run|..] == "";
  }

  /** Digit runs joined by a non-digit are exactly the runs of the text. */
  lemma {:induction false} JoinedRuns(parts: seq<string>, sep: char)
    requires |parts| >= 1 && !IsDigit(sep)
    requires forall i :: 0 <= i < |parts| ==> |parts[i]| > 0 && AllDigits(parts[i])
    ensures DigitRuns(Join(parts, sep)) == parts
    decreases |parts|
  {
    if |parts| == 1 {
      DigitRunsWhole(parts[0]);
    } else {
      JoinedRuns(parts[1..], sep);
      DigitRunsCons(parts[0], sep, Join(parts[1..], sep));
      assert [parts[0]] + parts[1..] == parts;
    }
  }

  lemma SumOfFour(runs: seq<string>)
    requires |runs| == 4 && forall i :: 0 <= i < 4 ==> AllDigits(runs[i])
    ensures SumPopcounts(runs) == RunPopcount(runs[0]) + RunPopcount(runs[1]) + RunPopcount(runs[2]) + RunPopcount(runs[3])
  {
    var r := runs;
    assert SumPopcounts(r[3..]) == RunPopcount(r[3]) + SumPopcounts(r[3..][1..]);
    assert r[3..][1..] == [];
    assert r[2..][1..] == r[3..];
    assert SumPopcounts(r[2..]) == RunPopcount(r[2]) + SumPopcounts(r[3..]);
    assert r[1..][1..] == r[2..];
    assert SumPopcounts(r[1..]) == RunPopcount(r[1]) + SumPopcounts(r[2..]);
  }
  /** The text of a dotted quad `a.b.c.d`. */
  function DottedQuadText(a: nat, b: nat, c: nat, d: nat): string {
    Join([NatToString(a), NatToString(b), NatToString(c), NatToString(d)], '.')
  }

  lemma QuadRunsOf(a: nat, b: nat, c: nat, d: nat)
    ensures DigitRuns(DottedQuadText(a, b, c, d)) == [NatToString(a), NatToString(b), NatToString(c), NatToString(d)]
  {
    NatToStringCanonical(a);
    NatToStringCanonical(b);
    NatToStringCanonical(c);
    NatToStringCanonical(d);
    assert !IsDigit('.');
    JoinedRuns([NatToString(a), NatToString(b), NatToString(c), NatToString(d)], '.');
  }

  lemma NumeralPopcount(a: nat)
    requires a < TwoTo32
    ensures AllDigits(NatToString(a)) && RunPopcount(NatToString(a)) == Popcount(a)
  {
    NatToStringCanonical(a);
    SmallMod(DigitsValue(NatToString(a)), TwoTo32);
  }

  lemma SmallMod(x: nat, m: nat)
    requires x < m
    ensures x % m == x
  {
  }

  lemma QuadSum(a: nat, b: nat, c: nat, d: nat)
    requires a < 256 && b < 256 && c < 256 && d < 256
    ensures SubnetMaskToCidrPrefix(DottedQuadText(a, b, c, d)) == Popcount(a) + Popcount(b) + Popcount(c) + Popcount(d)
  {
    QuadRunsOf(a, b, c, d);
    NatToStringCanonical(a);
    NatToStringCanonical(b);
    NatToStringCanonical(c);
    NatToStringCanonical(d);
    SumOfFour([NatToString(a), NatToString(b), NatToString(c), NatToString(d)]);
    NumeralPopcount(a);
    NumeralPopcount(b);
    NumeralPopcount(c);
    NumeralPopcount(d);
  }

  lemma DottedQuad(a: nat, b: nat, c: nat, d: nat)
    requires a < 256 && b < 256 && c < 256 && d < 256
    ensures SubnetMaskToCidrPrefix(DottedQuadText(a, b, c, d)) == Popcount(a) + Popcount(b) + Popcount(c) + Popcount(d) <= 32
  {
    QuadSum(a, b, c, d);
    assert Pow2(8) == 256;
    PopcountBelow(a, 8);
    PopcountBelow(b, 8);
    PopcountBelow(c, 8);
    PopcountBelow(d, 8);
  }

  lemma OctetTexts()
    ensures NatToString(255) == "255" && NatToString(0) == "0"
    ensures Popcount(255) == 8 && Popcount(0) == 0
  {
  }

  lemma QuadText(w: string, x: string, y: string, z: string)
    ensures Join([w, x, y, z], '.') == w + "." + x + "." + y + "." + z
  {
    var l := [w, x, y, z];
    assert l[1..] == [x, y, z] && l[1..][1..] == [y, z] && l[1..][1..][1..] == [z];
    assert Join([y, z], '.') == y + "." + z;
    assert Join([x, y, z], '.') == x + "." + (y + "." + z);
  }

  lemma MaskTexts()
    ensures DottedQuadText(255, 255, 255, 0) == "255.255.255.0"
    ensures DottedQuadText(255, 0, 255, 0) == "255.0.255.0"
  {
    OctetTexts();
    QuadText("255", "255", "255", "0");
    QuadText("255", "0", "255", "0");
  }

  /** The usual class C mask gives 24. */
  lemma ClassCMask()
    ensures SubnetMaskToCidrPrefix("255.255.255.0") == 24
  {
    MaskTexts();
    DottedQuad(255, 255, 255, 0);
    OctetTexts();
  }

  /** Contiguity is not checked: a mask with a gap still counts its bits. */
  lemma GappedMask()
    ensures SubnetMaskToCidrPrefix("255.0.255.0") == 16
  {
    MaskTexts();
    DottedQuad(255, 0, 255, 0);
    OctetTexts();
  }
}
