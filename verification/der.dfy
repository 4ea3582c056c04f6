/** The slice of ASN.1 DER (ITU-T X.690) the DH parameters need: big-endian
    byte strings, INTEGER contents in two's complement, definite lengths,
    and the TLV framing of a SEQUENCE of two INTEGERs. */
module Der {
  import opened Wrappers

  type byte = b: int | 0 <= b < 256

  function Pow256(k: nat): (r: nat)
    ensures r >= 1
  {
    if k == 0 then 1 else 256 * Pow256(k - 1)
  }

  function Pow2(k: nat): (r: nat)
    ensures r >= 1
  {
    if k == 0 then 1 else 2 * Pow2(k - 1)
  }

  // ---------------------------------------------------------------------------
  // Unsigned big-endian byte strings
  // ---------------------------------------------------------------------------

  /** The number a big-endian byte string spells. */
  function UnsignedValue(c: seq<byte>): (n: nat)
    decreases |c|
  {
    if |c| == 0 then 0 else 256 * UnsignedValue(c[..|c| - 1]) + c[|c| - 1]
  }

  /** The shortest big-endian bytes of `n` (one zero byte for 0): what
      `hexToBytes(n.toString(16))` produces, an odd hex digit count giving a
      leading half byte. */
  function UnsignedBytes(n: nat): (c: seq<byte>)
    ensures |c| >= 1
    ensures |c| > 1 ==> c[0] != 0
    decreases n
  {
    if n < 256 then [n] else UnsignedBytes(n / 256) + [n % 256]
  }

  lemma {:induction false} UnsignedRoundTrip(n: nat)
    ensures UnsignedValue(UnsignedBytes(n)) == n
    decreases n
  {
    if n >= 256 {
      UnsignedRoundTrip(n / 256);
      var c := UnsignedBytes(n);
      assert c[..|c| - 1] == UnsignedBytes(n / 256);
    }
  }

  lemma {:induction false} UnsignedValueBounds(c: seq<byte>)
    requires |c| >= 1
    ensures UnsignedValue(c) < Pow256(|c|)
    ensures UnsignedValue(c) >= c[0] * Pow256(|c| - 1)
    decreases |c|
  {
    if |c| > 1 {
      var init := c[..|c| - 1];
      UnsignedValueBounds(init);
      assert init[0] == c[0];
      assert UnsignedValue(c) == 256 * UnsignedValue(init) + c[|c| - 1];
      assert UnsignedValue(init) + 1 <= Pow256(|init|);
      assert 256 * UnsignedValue(init) + 256 <= 256 * Pow256(|init|);
      assert 256 * UnsignedValue(init) >= 256 * (c[0] * Pow256(|init| - 1));
    }
  }

  /** A leading zero byte does not change the number spelled. */
  lemma {:induction false} LeadingZero(c: seq<byte>)
    ensures UnsignedValue([0] + c) == UnsignedValue(c)
    decreases |c|
  {
    if |c| > 0 {
      var d := [0] + c;
      assert d[..|d| - 1] == [0] + c[..|c| - 1];
      LeadingZero(c[..|c| - 1]);
    }
  }

  /** Bounds on a number carry over to its quotient by 256. */
  lemma DivideBy256(n: nat, lo: nat, hi: nat)
    requires 256 * lo <= n < 256 * hi
    ensures lo <= n / 256 < hi
  {
    var q := n / 256;
    assert n == 256 * q + n % 256;
    assert 256 * lo < 256 * (q + 1);
    assert 256 * q < 256 * hi;
  }

  /** Numbers of exactly `k` bytes whose top bit is set get `k` bytes with a
      first byte of 0x80 or more. */
  lemma {:induction false} TopBitSet(n: nat, k: nat)
    requires k >= 1 && 128 * Pow256(k - 1) <= n < Pow256(k)
    ensures |UnsignedBytes(n)| == k && UnsignedBytes(n)[0] >= 128
    decreases k
  {
    if k > 1 {
      var q := n / 256;
      assert 256 * q <= n < 256 * q + 256;
      DivideBy256(n, 128 * Pow256(k - 2), Pow256(k - 1));
      assert n >= 256 by {
        assert Pow256(k - 1) >= 256 * Pow256(k - 2);
      }
      TopBitSet(q, k - 1);
    }
  }

  lemma {:induction false} Pow2Add(a: nat, b: nat)
    ensures Pow2(a + b) == Pow2(a) * Pow2(b)
    decreases a
  {
    if a > 0 {
      Pow2Add(a - 1, b);
    }
  }

  lemma {:induction false} Pow2Bytes(k: nat)
    ensures Pow2(8 * k) == Pow256(k)
    decreases k
  {
    if k > 0 {
      Pow2Bytes(k - 1);
      Pow2Add(8, 8 * (k - 1));
      assert Pow2(8) == 256;
    }
  }

  // ---------------------------------------------------------------------------
  // INTEGER contents (section 8.3 of X.690)
  // ---------------------------------------------------------------------------

  /** The value of INTEGER contents: two's complement, so a first byte of
      0x80 or more makes the value negative. */
  function SignedValue(c: seq<byte>): (v: int)
    requires |c| >= 1
    ensures c[0] < 128 ==> v == UnsignedValue(c)
    ensures c[0] >= 128 ==> v == UnsignedValue(c) - Pow256(|c|) && v < 0
  {
    UnsignedValueBounds(c);
    if c[0] >= 128 then UnsignedValue(c) - Pow256(|c|) else UnsignedValue(c)
  }

  /** Section 8.3.2 of X.690: at least one byte, and the first nine bits are
      neither all zeros nor all ones. */
  predicate MinimalInteger(c: seq<byte>) {
    |c| >= 1 && (|c| > 1 ==> !(c[0] == 0 && c[1] < 128) && !(c[0] == 255 && c[1] >= 128))
  }

  /** The contents of an INTEGER holding a non-negative number: its shortest
      bytes, with a zero byte in front when the first would read as a sign. */
  function EncodeInteger(n: nat): (c: seq<byte>)
    ensures MinimalInteger(c) && SignedValue(c) == n
  {
    var u := UnsignedBytes(n);
    UnsignedRoundTrip(n);
    if u[0] >= 128 then
      LeadingZero(u);
      [0] + u
    else u
  }

  /** A leading byte adds its weight to the number the rest spells. */
  lemma {:induction false} LeadingByte(b: byte, c: seq<byte>)
    ensures UnsignedValue([b] + c) == b * Pow256(|c|) + UnsignedValue(c)
    decreases |c|
  {
    if |c| > 0 {
      var d := [b] + c;
      assert d[..|d| - 1] == [b] + c[..|c| - 1];
      LeadingByte(b, c[..|c| - 1]);
    }
  }

  /** The library's DER writer for INTEGER contents: one leading 0x00 before
      a byte below 0x80, or one leading 0xFF before a byte of 0x80 or more,
      is dropped; a single drop keeps the value but need not reach the
      shortest form. */
  function WrittenInteger(c: seq<byte>): (r: seq<byte>)
    requires |c| >= 1
    ensures |r| >= 1 && SignedValue(r) == SignedValue(c)
    ensures r == c || r == c[1..]
    ensures MinimalInteger(c) ==> r == c
  {
    if |c| > 1 && ((c[0] == 0 && c[1] < 0x80) || (c[0] == 0xFF && c[1] >= 0x80)) then
      SignByteDropped(c);
      c[1..]
    else c
  }

  /** Dropping a redundant sign byte keeps the two's complement value. */
  lemma SignByteDropped(c: seq<byte>)
    requires |c| > 1 && ((c[0] == 0 && c[1] < 0x80) || (c[0] == 0xFF && c[1] >= 0x80))
    ensures SignedValue(c[1..]) == SignedValue(c)
  {
    var t := c[1..];
    assert [c[0]] + t == c;
    LeadingByte(c[0], t);
    assert t[0] == c[1];
    if c[0] == 0xFF {
      assert Pow256(|c|) == 256 * Pow256(|t|);
    }
  }

  /** Four big-endian bytes of a 32-bit two's complement integer, as the
      library's `int32ToBytes` writes them. */
  function Int32Bytes(x: int): (c: seq<byte>)
    ensures |c| == 4
  {
    var v := x % 0x1_0000_0000;
    [v / 0x100_0000 % 256, v / 0x1_0000 % 256, v / 0x100 % 256, v % 256]
  }

  // ---------------------------------------------------------------------------
  // Lengths and TLVs (sections 8.1.3 and 10.1 of X.690)
  // ---------------------------------------------------------------------------

  /** The library computes long-form lengths with 32-bit shifts, so contents
      stay below 2^32 bytes. */
  const MaxContentLength: nat := 0x1_0000_0000

  lemma {:induction false} UnsignedBytesShort(n: nat, k: nat)
    requires n < Pow256(k)
    ensures |UnsignedBytes(n)| <= if k == 0 then 1 else k
    decreases k
  {
    if n >= 256 && k > 1 {
      DivideBy256(n, 0, Pow256(k - 1));
      UnsignedBytesShort(n / 256, k - 1);
    }
  }

  /** A definite length: one byte below 128, else 0x80 plus the count of the
      length's own shortest bytes, followed by those bytes. */
  function EncodeLength(n: nat): (c: seq<byte>)
    requires n < MaxContentLength
    ensures 1 <= |c| <= 5
  {
    if n < 128 then [n]
    else
      assert Pow256(4) == MaxContentLength;
      UnsignedBytesShort(n, 4);
      [0x80 + |UnsignedBytes(n)|] + UnsignedBytes(n)
  }

  /** Reads a definite length at the front of `b`: the length and the number
      of bytes it took. */
  function ParseLength(b: seq<byte>): Option<(nat, nat)> {
    if |b| == 0 then None
    else if b[0] < 128 then Some((b[0], 1))
    else
      var k := b[0] - 0x80;
      if k == 0 || k > 4 || |b| < 1 + k then None
      else Some((UnsignedValue(b[1..1 + k]), 1 + k))
  }

  lemma LengthRoundTrip(n: nat, rest: seq<byte>)
    requires n < MaxContentLength
    ensures ParseLength(EncodeLength(n) + rest) == Some((n, |EncodeLength(n)|))
  {
    if n >= 128 {
      var b := EncodeLength(n) + rest;
      assert b[1..1 + |UnsignedBytes(n)|] == UnsignedBytes(n);
      UnsignedRoundTrip(n);
    }
  }

  const IntegerTag: byte := 0x02
  const SequenceTag: byte := 0x30

  function Tlv(tag: byte, contents: seq<byte>): seq<byte>
    requires |contents| < MaxContentLength
  {
    [tag] + EncodeLength(|contents|) + contents
  }

  /** Reads one TLV with the given tag at the front of `b`: its contents and
      whatever follows. */
  function ParseTlv(tag: byte, b: seq<byte>): (r: Option<(seq<byte>, seq<byte>)>)
    ensures r.Some? ==> |r.value.1| < |b|
  {
    if |b| == 0 || b[0] != tag then None
    else
      match ParseLength(b[1..])
      case None => None
      case Some((len, used)) =>
        if |b| < 1 + used + len then None
        else Some((b[1 + used..1 + used + len], b[1 + used + len..]))
  }

  lemma TlvRoundTrip(tag: byte, contents: seq<byte>, rest: seq<byte>)
    requires |contents| < MaxContentLength
    ensures ParseTlv(tag, Tlv(tag, contents) + rest) == Some((contents, rest))
  {
    var len := EncodeLength(|contents|);
    var b := Tlv(tag, contents) + rest;
    assert b[1..] == len + (contents + rest);
    LengthRoundTrip(|contents|, contents + rest);
    assert b[1 + |len|..1 + |len| + |contents|] == contents;
    assert b[1 + |len| + |contents|..] == rest;
  }
}
