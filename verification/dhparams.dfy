/** The Diffie-Hellman parameters file `dh.pem`: a DHParameter (section 9 of
    PKCS #3, a SEQUENCE of the prime and the base as INTEGERs) in DER, under
    the PEM type "DH PARAMETERS". The prime search and the base64 encoder
    belong to the crypto library and are parameters here. */
module DhParams {
  import opened Wrappers
  import opened Certificates
  import opened Der
  import opened Pem

  const PrimeBits: nat := 2048
  const Generator: nat := 2
  const DhPemType: string := "DH PARAMETERS"

  /** The contents of the two INTEGERs of a DHParameter. */
  datatype DhParameter = DhParameter(prime: seq<byte>, base: seq<byte>)

  /** A number of exactly `PrimeBits` bits, as the prime search delivers. */
  predicate FullWidth(p: nat) {
    Pow2(PrimeBits - 1) <= p < Pow2(PrimeBits)
  }

  /** Contents short enough for the library's 32-bit DER lengths. */
  predicate Encodable(d: DhParameter) {
    |d.prime| + |d.base| + 12 < MaxContentLength
  }

  function ToDer(d: DhParameter): seq<byte>
    requires Encodable(d)
  {
    Tlv(SequenceTag, Tlv(IntegerTag, d.prime) + Tlv(IntegerTag, d.base))
  }

  /** Reads DER holding exactly one SEQUENCE of exactly two INTEGERs. */
  function ParseDhParameter(der: seq<byte>): Option<DhParameter> {
    match ParseTlv(SequenceTag, der)
    case None => None
    case Some((body, rest)) =>
      if rest != [] then None
      else
        match ParseTlv(IntegerTag, body)
        case None => None
        case Some((prime, afterPrime)) =>
          match ParseTlv(IntegerTag, afterPrime)
          case None => None
          case Some((base, afterBase)) =>
            if afterBase != [] then None else Some(DhParameter(prime, base))
  }

  /** Parsing undoes DER encoding. */
  lemma DerRoundTrip(d: DhParameter)
    requires Encodable(d)
    ensures ParseDhParameter(ToDer(d)) == Some(d)
  {
    var p := Tlv(IntegerTag, d.prime);
    var b := Tlv(IntegerTag, d.base);
    TlvRoundTrip(SequenceTag, p + b, []);
    assert ToDer(d) + [] == ToDer(d);
    TlvRoundTrip(IntegerTag, d.prime, b);
    TlvRoundTrip(IntegerTag, d.base, []);
    assert b + [] == b;
  }

  /** A full-width number takes 256 bytes, the first with its top bit set. */
  lemma FullWidthBytes(p: nat)
    requires FullWidth(p)
    ensures |UnsignedBytes(p)| == 256 && UnsignedBytes(p)[0] >= 128
    ensures Pow2(PrimeBits) == Pow256(256)
  {
    Pow2Bytes(255);
    Pow2Bytes(256);
    Pow2Add(7, 2040);
    assert Pow2(7) == 128;
    assert Pow2(2047) == 128 * Pow256(255);
    TopBitSet(p, 256);
  }

  // ---------------------------------------------------------------------------
  // As written: unsigned prime bytes and a four-byte base
  // ---------------------------------------------------------------------------

  /** The INTEGER values `dhParamsToAsn1` builds: the prime's bare bytes and
      the base as four bytes. */
  function DhParameterAsWritten(prime: nat): (d: DhParameter)
    ensures |d.prime| >= 1 && UnsignedValue(d.prime) == prime
    ensures d.base == [0, 0, 0, 2]
  {
    UnsignedRoundTrip(prime);
    DhParameter(UnsignedBytes(prime), Int32Bytes(Generator))
  }

  /** The INTEGER contents the library's DER writer emits for those values:
      each may lose one redundant sign byte, keeping its value. */
  function WrittenDhParameter(prime: nat): (d: DhParameter)
    ensures |d.prime| >= 1 && SignedValue(d.prime) == SignedValue(DhParameterAsWritten(prime).prime)
    ensures |d.base| >= 1 && SignedValue(d.base) == SignedValue(DhParameterAsWritten(prime).base)
    ensures |d.prime| <= |DhParameterAsWritten(prime).prime| && |d.base| <= 4
  {
    var a := DhParameterAsWritten(prime);
    DhParameter(WrittenInteger(a.prime), WrittenInteger(a.base))
  }

  /** The bare bytes of a full-width prime start with the sign bit set, so
      the prime INTEGER the program writes reads as the negative number
      `prime - 2^2048`. */
  lemma AsWrittenPrimeIsNegative(prime: nat)
    requires FullWidth(prime)
    ensures SignedValue(WrittenDhParameter(prime).prime) == prime - Pow2(PrimeBits) < 0
  {
    FullWidthBytes(prime);
    UnsignedRoundTrip(prime);
  }

  /** The four-byte base loses one zero byte on its way to DER, leaving
      `00 00 02`: the value 2, still against the shortest-form rule of
      section 8.3.2 of X.690 (it starts with nine zero bits). */
  lemma AsWrittenBaseIsNotMinimal(prime: nat)
    ensures WrittenDhParameter(prime).base == [0, 0, 2]
    ensures SignedValue(WrittenDhParameter(prime).base) == Generator
    ensures !MinimalInteger(WrittenDhParameter(prime).base)
  {
    var c: seq<byte> := [0, 0, 2];
    assert DhParameterAsWritten(prime).base[1..] == c;
    assert c[..2] == [0, 0] && c[..2][..1] == [0] && c[..2][..1][..0] == [];
    assert UnsignedValue(c[..2][..1]) == 0;
    assert UnsignedValue(c[..2]) == 0;
    assert UnsignedValue(c) == 2;
  }

  /** The DER the program writes for a full-width prime. */
  function DhParamsDerAsWritten(prime: nat): (der: seq<byte>)
    requires FullWidth(prime)
    ensures ParseDhParameter(der) == Some(WrittenDhParameter(prime))
  {
    FullWidthBytes(prime);
    DerRoundTrip(WrittenDhParameter(prime));
    ToDer(WrittenDhParameter(prime))
  }

  /** Unless the prime's first byte is 0xFF, the program's DER opens with a
      SEQUENCE of 265 bytes and a prime INTEGER of 256, the header of the
      fixed development parameters, and closes with the base INTEGER
      `02 03 00 00 02`. */
  lemma AsWrittenDerShape(prime: nat)
    requires FullWidth(prime) && UnsignedBytes(prime)[0] != 0xFF
    ensures var der := DhParamsDerAsWritten(prime);
      && |der| == 269
      && der[..8] == [0x30, 0x82, 0x01, 0x09, 0x02, 0x82, 0x01, 0x00]
      && der[264..] == [0x02, 0x03, 0x00, 0x00, 0x02]
  {
    FullWidthBytes(prime);
    AsWrittenBaseIsNotMinimal(prime);
    var d := WrittenDhParameter(prime);
    assert d.prime == UnsignedBytes(prime);
    DerShape(d.prime);
  }

  /** The DER of a 256-byte prime and the base `00 00 02`. */
  lemma DerShape(p: seq<byte>)
    requires |p| == 256
    ensures var der := ToDer(DhParameter(p, [0, 0, 2]));
      && |der| == 269
      && der[..8] == [0x30, 0x82, 0x01, 0x09, 0x02, 0x82, 0x01, 0x00]
      && der[264..] == [0x02, 0x03, 0x00, 0x00, 0x02]
  {
    LongLengths();
    var tp := Tlv(IntegerTag, p);
    var tb := Tlv(IntegerTag, [0, 0, 2]);
    assert tp == [0x02, 0x82, 0x01, 0x00] + p;
    assert tb == [0x02, 0x03, 0x00, 0x00, 0x02];
    var der := Tlv(SequenceTag, tp + tb);
    assert der == [0x30, 0x82, 0x01, 0x09] + (tp + tb);
    assert der[264..] == tb;
    assert der[..8] == [0x30, 0x82, 0x01, 0x09] + tp[..4];
  }

  lemma LongLengths()
    ensures EncodeLength(256) == [0x82, 1, 0]
    ensures EncodeLength(265) == [0x82, 1, 9]
  {
    assert UnsignedBytes(1) == [1];
    assert UnsignedBytes(256) == [1, 0];
    assert UnsignedBytes(265) == [1, 9];
  }

  /** `generateDHParams()` as written: the PEM under "DH PARAMETERS" of the
      base64 of the program's DER, which parses to a negative prime and the
      three-byte base; `None` when the prime search reports an error (the
      callback then throws reading the missing prime, and the promise never
      settles). */
  function GenerateDhParamsAsWritten(primeSearch: Option<nat>, encode64: seq<byte> -> string): (pem: Option<string>)
    requires primeSearch.Some? ==> FullWidth(primeSearch.value)
    ensures pem.Some? <==> primeSearch.Some?
    ensures pem.Some? ==>
      var der := DhParamsDerAsWritten(primeSearch.value);
      var d := ParseDhParameter(der);
      && d.Some?
      && SignedValue(d.value.prime) == primeSearch.value - Pow2(PrimeBits) < 0
      && d.value.base == [0, 0, 2]
      && pem.value == PemEncode(DhPemType, encode64(der))
  {
    match primeSearch
    case None => None
    case Some(p) =>
      AsWrittenPrimeIsNegative(p);
      AsWrittenBaseIsNotMinimal(p);
      Some(PemEncode(DhPemType, encode64(DhParamsDerAsWritten(p))))
  }

  // ---------------------------------------------------------------------------
  // Corrected: DER INTEGERs in shortest two's complement form
  // ---------------------------------------------------------------------------

  /** The DHParameter with both numbers as proper DER INTEGERs. */
  function DhParameterOf(prime: nat): (d: DhParameter)
    ensures MinimalInteger(d.prime) && SignedValue(d.prime) == prime
    ensures MinimalInteger(d.base) && SignedValue(d.base) == Generator
  {
    DhParameter(EncodeInteger(prime), EncodeInteger(Generator))
  }

  /** A full-width prime gets 257 content bytes: a zero byte, then its own. */
  lemma DhParameterSize(prime: nat)
    requires FullWidth(prime)
    ensures |DhParameterOf(prime).prime| == 257 && |DhParameterOf(prime).base| == 1
    ensures Encodable(DhParameterOf(prime))
  {
    FullWidthBytes(prime);
  }

  /** The DER a `dh.pem` carries for the given prime. */
  function DhParamsDer(prime: nat): (der: seq<byte>)
    requires FullWidth(prime)
    ensures ParseDhParameter(der) == Some(DhParameterOf(prime))
  {
    DhParameterSize(prime);
    DerRoundTrip(DhParameterOf(prime));
    ToDer(DhParameterOf(prime))
  }

  /** `generateDHParams()` with the INTEGERs encoded as DER requires: the
      PEM of the DHParameter whose DER parses back to the prime and the
      base 2. `None` when the prime search reports an error. */
  function GenerateDhParams(primeSearch: Option<nat>, encode64: seq<byte> -> string): (pem: Option<string>)
    requires primeSearch.Some? ==> FullWidth(primeSearch.value)
    ensures pem.Some? <==> primeSearch.Some?
    ensures pem.Some? ==>
      var der := DhParamsDer(primeSearch.value);
      var d := ParseDhParameter(der);
      && d.Some?
      && SignedValue(d.value.prime) == primeSearch.value
      && SignedValue(d.value.base) == Generator
      && pem.value == PemEncode(DhPemType, encode64(der))
  {
    match primeSearch
    case None => None
    case Some(p) => Some(PemEncode(DhPemType, encode64(DhParamsDer(p))))
  }

  /** Whatever body the encoder gives, the PEM the program writes is the
      BEGIN line, the body cut into lines of 64 characters and the END line,
      each ended by CRLF; dos2unix would turn it into the same framing with
      LF line ends. */
  lemma GeneratedPemFraming(prime: nat, encode64: seq<byte> -> string)
    requires FullWidth(prime)
    requires var body := encode64(DhParamsDerAsWritten(prime)); |body| > 0 && NoLineBreaks(body)
    ensures var body := encode64(DhParamsDerAsWritten(prime));
      var pem := GenerateDhParamsAsWritten(Some(prime), encode64).value;
      && FilledLines(Chunks(body, MaxLine), MaxLine)
      && Concat(Chunks(body, MaxLine)) == body
      && pem == Frame(DhPemType, Chunks(body, MaxLine), "\r\n") + "\r\n"
      && RemoveCarriageReturns(pem) == Frame(DhPemType, Chunks(body, MaxLine), "\n") + "\n"
  {
    var body := encode64(DhParamsDerAsWritten(prime));
    ChunksFill(body, MaxLine);
    ChunksKeepNoLineBreaks(body, MaxLine);
    DhPemTypeOneLine();
    RemoveCarriageReturnsFrame(DhPemType, Chunks(body, MaxLine));
  }

  lemma ChunksKeepNoLineBreaks(s: string, w: nat)
    requires w > 0 && NoLineBreaks(s)
    ensures forall i :: 0 <= i < |Chunks(s, w)| ==> NoLineBreaks(Chunks(s, w)[i])
  {
    forall i | 0 <= i < |Chunks(s, w)| ensures NoLineBreaks(Chunks(s, w)[i]) {
      ChunkInside(s, w, i);
    }
  }

  lemma DhPemTypeOneLine()
    ensures NoLineBreaks(DhPemType)
  {
    forall i | 0 <= i < |DhPemType|
      ensures DhPemType[i] != '\r' && DhPemType[i] != '\n'
    {
      assert 'A' <= DhPemType[i] <= 'Z' || DhPemType[i] == ' ';
    }
  }

  /** Each piece of a cut text holds only characters of the text. */
  lemma {:induction false} ChunkInside(s: string, w: nat, i: nat)
    requires w > 0 && i < |Chunks(s, w)|
    ensures forall c :: c in Chunks(s, w)[i] ==> c in s
    decreases |s|
  {
    if |s| > w && i > 0 {
      ChunkInside(s[w..], w, i - 1);
    }
  }

  // ---------------------------------------------------------------------------
  // The fixed parameters used in development mode
  // ---------------------------------------------------------------------------

  // The base64 body lines of the fixed parameters, each written as pieces
  // of 16 characters.
  const DhLine0: string := "MIIBCQKCAQCKgoa/" + "NBgUDSFrEE/6twb/" + "EDLAfMllfdU/w8/G" + "y/lEXxEiAApWgjuF"
  const DhLine1: string := "RuHHQ2PaharGPODF" + "yAxxUMfGcMdCuwzA" + "UZYEYtSRfnQsvA4v" + "7m+/2LEz9Yhx5eLo"
  const DhLine2: string := "997a+hvGbLBBpf8V" + "ZjUTNSjnQvpYzZrO" + "94ACUmCk+DQv7tvh" + "/qe4GRJPp8MwK4DQ"
  const DhLine3: string := "nJLGAQeXa1WgaRtG" + "IU3x1SRp2B4zZsj2" + "BrGUUHaz7j4Pi+dT" + "McwABfHLlbnYR1QE"
  const DhLine4: string := "DkzXrybrGDSv1E48" + "RiBuNOON02RoUrz1" + "ERNcoF2C+MWjzbJ9" + "e5iryrIB4l5ev4Wr"
  const DhLine5: string := "e7zH50OiQfDtv4of" + "D/KUPQdx38F+jz51" + "AgMAAAI="

  const StaticDhLines: seq<string> := [DhLine0, DhLine1, DhLine2, DhLine3, DhLine4, DhLine5]

  /** `staticDhPem`: LF line ends and no newline after the END line. */
  const StaticDhPem: string :=
    "-----BEGIN DH PARAMETERS-----" + ("\n"
    + ((DhLine0 + ("\n" + (DhLine1 + ("\n" + (DhLine2 + ("\n"
    + (DhLine3 + ("\n" + (DhLine4 + ("\n" + DhLine5))))))))))
    + ("\n" + "-----END DH PARAMETERS-----")))

  /** Four 16-character pieces without line breaks make a full line. */
  lemma FourPieces(a: string, b: string, c: string, d: string)
    requires |a| == |b| == |c| == |d| == 16
    requires NoLineBreaks(a) && NoLineBreaks(b) && NoLineBreaks(c) && NoLineBreaks(d)
    ensures FullLine(a + b + c + d)
  {
  }

  predicate FullLine(l: string) {
    |l| == MaxLine && NoLineBreaks(l)
  }

  lemma DhLine0Full()
    ensures FullLine(DhLine0)
  {
    FourPieces("MIIBCQKCAQCKgoa/", "NBgUDSFrEE/6twb/", "EDLAfMllfdU/w8/G", "y/lEXxEiAApWgjuF");
  }

  lemma DhLine1Full()
    ensures FullLine(DhLine1)
  {
    FourPieces("RuHHQ2PaharGPODF", "yAxxUMfGcMdCuwzA", "UZYEYtSRfnQsvA4v", "7m+/2LEz9Yhx5eLo");
  }

  lemma DhLine2Full()
    ensures FullLine(DhLine2)
  {
    FourPieces("997a+hvGbLBBpf8V", "ZjUTNSjnQvpYzZrO", "94ACUmCk+DQv7tvh", "/qe4GRJPp8MwK4DQ");
  }

  lemma DhLine3Full()
    ensures FullLine(DhLine3)
  {
    FourPieces("nJLGAQeXa1WgaRtG", "IU3x1SRp2B4zZsj2", "BrGUUHaz7j4Pi+dT", "McwABfHLlbnYR1QE");
  }

  lemma DhLine4Full()
    ensures FullLine(DhLine4)
  {
    FourPieces("DkzXrybrGDSv1E48", "RiBuNOON02RoUrz1", "ERNcoF2C+MWjzbJ9", "e5iryrIB4l5ev4Wr");
  }

  lemma DhLine5Short()
    ensures |DhLine5| == 40 && NoLineBreaks(DhLine5)
  {
  }

  lemma StaticDhLinesFilled()
    ensures FilledLines(StaticDhLines, MaxLine)
    ensures forall i :: 0 <= i < |StaticDhLines| ==> NoLineBreaks(StaticDhLines[i])
  {
    DhLine0Full();
    DhLine1Full();
    DhLine2Full();
    DhLine3Full();
    DhLine4Full();
    DhLine5Short();
  }

  /** A frame around six lines, written out. */
  lemma FrameOfSix(t: string, a: string, b: string, c: string, d: string, e: string, f: string)
    ensures Frame(t, [a, b, c, d, e, f], "\n")
         == Boundary("BEGIN", t) + ("\n" + ((a + ("\n" + (b + ("\n" + (c + ("\n" + (d + ("\n" + (e + ("\n" + f))))))))))
            + ("\n" + Boundary("END", t))))
  {
    var l := [a, b, c, d, e, f];
    assert l[1..] == [b, c, d, e, f] && l[1..][1..] == [c, d, e, f];
    assert l[1..][1..][1..] == [d, e, f] && l[1..][1..][1..][1..] == [e, f] && l[1..][1..][1..][1..][1..] == [f];
    var nl := "\n";
    assert JoinWith([f], nl) == f;
    assert JoinWith([e, f], nl) == e + (nl + f);
    assert JoinWith([d, e, f], nl) == d + (nl + JoinWith([e, f], nl));
    assert JoinWith([c, d, e, f], nl) == c + (nl + JoinWith([d, e, f], nl));
    assert JoinWith([b, c, d, e, f], nl) == b + (nl + JoinWith([c, d, e, f], nl));
    assert JoinWith(l, nl) == a + (nl + JoinWith([b, c, d, e, f], nl));
  }

  lemma StaticDhPemIsFrame()
    ensures StaticDhPem == Frame(DhPemType, StaticDhLines, "\n")
  {
    FrameOfSix(DhPemType, DhLine0, DhLine1, DhLine2, DhLine3, DhLine4, DhLine5);
    BeginDhBoundary();
    EndDhBoundary();
  }

  lemma BeginDhBoundary()
    ensures Boundary("BEGIN", DhPemType) == "-----BEGIN DH PARAMETERS-----"
  {
  }

  lemma EndDhBoundary()
    ensures Boundary("END", DhPemType) == "-----END DH PARAMETERS-----"
  {
  }

  /** The fixed text is the library's PEM for its own body, normalised to LF
      and without the final line end: 64-column lines under the type
      "DH PARAMETERS". */
  lemma StaticDhPemFraming()
    ensures FilledLines(StaticDhLines, MaxLine)
    ensures StaticDhPem + "\n" == RemoveCarriageReturns(PemEncode(DhPemType, Concat(StaticDhLines)))
  {
    StaticDhLinesFilled();
    StaticDhPemIsFrame();
    ChunksOfFilled(StaticDhLines, MaxLine);
    DhPemTypeOneLine();
    RemoveCarriageReturnsFrame(DhPemType, StaticDhLines);
  }

  /** Decoding a text is decoding its first full group, then the rest. */
  lemma DecodeFirstGroup(s: string, head: seq<byte>, tail: seq<byte>)
    requires |s| >= 4 && |s| % 4 == 0
    requires DecodeGroup(s[..4]) == Some(head) && |head| == 3
    requires Base64Decode(s[4..]) == Some(tail)
    ensures Base64Decode(s) == Some(head + tail)
  {
  }

  lemma DecodeLastGroup(s: string, head: seq<byte>)
    requires |s| == 4 && DecodeGroup(s) == Some(head)
    ensures Base64Decode(s) == Some(head)
  {
    assert s[..4] == s;
    assert s[4..] == "";
    assert head + [] == head;
  }

  lemma DecodePrimeGroups()
    ensures DecodeGroup("MIIB") == Some([0x30, 0x82, 0x01])
    ensures DecodeGroup("CQKC") == Some([0x09, 0x02, 0x82])
    ensures DecodeGroup("AQCK") == Some([0x01, 0x00, 0x8A])
  {
    DecodeSequenceHeader();
    DecodeLengthGroup();
    DecodePrimeStart();
  }

  lemma DecodeSequenceHeader()
    ensures DecodeGroup("MIIB") == Some([0x30, 0x82, 0x01])
  {
  }

  lemma DecodeLengthGroup()
    ensures DecodeGroup("CQKC") == Some([0x09, 0x02, 0x82])
  {
  }

  lemma DecodePrimeStart()
    ensures DecodeGroup("AQCK") == Some([0x01, 0x00, 0x8A])
  {
  }

  lemma DecodeBaseGroups()
    ensures DecodeGroup("AgMA") == Some([0x02, 0x03, 0x00])
    ensures DecodeGroup("AAI=") == Some([0x00, 0x02])
  {
    var g := "AAI=";
    assert g[0] == 'A' && g[1] == 'A' && g[2] == 'I' && g[3] == '=';
    assert Base64Digit('A') == Some(0) && Base64Digit('I') == Some(8);
    var bytes: seq<byte> := [0, 2, 0];
    assert bytes[..2] == [0x00, 0x02];
  }

  /** The first twelve characters of the fixed body decode to a SEQUENCE of
      265 bytes opening with an INTEGER of 256 bytes whose first byte is
      0x8A: the fixed prime reads as a negative number. */
  lemma StaticDhPrimeIsNegative()
    ensures DhLine0[..12] == "MIIBCQKCAQCK"
    ensures Base64Decode("MIIBCQKCAQCK") == Some([0x30, 0x82, 0x01, 0x09, 0x02, 0x82, 0x01, 0x00, 0x8A])
    ensures ParseLength([0x82, 0x01, 0x09]) == Some((265, 3))
    ensures ParseLength([0x82, 0x01, 0x00]) == Some((256, 3))
  {
    PrimeHeaderDecodes();
    LengthBytes(0x09);
    LengthBytes(0x00);
  }

  lemma PrimeHeaderDecodes()
    ensures Base64Decode("MIIBCQKCAQCK") == Some([0x30, 0x82, 0x01, 0x09, 0x02, 0x82, 0x01, 0x00, 0x8A])
  {
    var tail: seq<byte> := [0x09, 0x02, 0x82, 0x01, 0x00, 0x8A];
    PrimeTailDecodes();
    var s := "MIIBCQKCAQCK";
    PrimeHeaderSplits();
    DecodePrimeGroups();
    DecodeFirstGroup(s, [0x30, 0x82, 0x01], tail);
    assert [0x30, 0x82, 0x01] + tail == [0x30, 0x82, 0x01, 0x09, 0x02, 0x82, 0x01, 0x00, 0x8A];
  }

  lemma PrimeHeaderSplits()
    ensures "MIIBCQKCAQCK"[..4] == "MIIB" && "MIIBCQKCAQCK"[4..] == "CQKCAQCK"
  {
  }

  lemma PrimeTailDecodes()
    ensures Base64Decode("CQKCAQCK") == Some([0x09, 0x02, 0x82, 0x01, 0x00, 0x8A])
  {
    DecodePrimeGroups();
    var t := "CQKCAQCK";
    assert t[..4] == "CQKC" && t[4..] == "AQCK";
    DecodeLastGroup("AQCK", [0x01, 0x00, 0x8A]);
    DecodeFirstGroup(t, [0x09, 0x02, 0x82], [0x01, 0x00, 0x8A]);
    assert [0x09, 0x02, 0x82] + [0x01, 0x00, 0x8A] == [0x09, 0x02, 0x82, 0x01, 0x00, 0x8A];
  }

  lemma LengthBytes(lo: byte)
    ensures ParseLength([0x82, 0x01, lo]) == Some((256 + lo, 3))
  {
    var l: seq<byte> := [0x82, 0x01, lo];
    assert l[1..3] == [0x01, lo];
    var hi: seq<byte> := [0x01, lo];
    assert hi[..1] == [0x01];
    var one: seq<byte> := [0x01];
    assert one[..0] == [];
    assert UnsignedValue(one) == 256 * UnsignedValue([]) + 1 == 1;
    assert UnsignedValue(hi) == 256 * UnsignedValue(one) + lo;
  }

  /** The last eight characters of the fixed body decode to the base
      INTEGER: three content bytes 00 00 02, again not in shortest form. */
  lemma StaticDhBaseIsNotMinimal()
    ensures DhLine5[32..] == "AgMAAAI="
    ensures Base64Decode("AgMAAAI=") == Some([0x02, 0x03, 0x00, 0x00, 0x02])
    ensures !MinimalInteger([0x00, 0x00, 0x02])
  {
    DecodeBaseGroups();
    var s := "AgMAAAI=";
    assert s[..4] == "AgMA" && s[4..] == "AAI=";
    DecodeLastGroup("AAI=", [0x00, 0x02]);
    DecodeFirstGroup(s, [0x02, 0x03, 0x00], [0x00, 0x02]);
    var whole: seq<byte> := [0x02, 0x03, 0x00] + [0x00, 0x02];
    assert whole == [0x02, 0x03, 0x00, 0x00, 0x02];
  }
}
