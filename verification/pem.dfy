/** PEM text as the crypto library writes it (section 2 of RFC 7468): a
    BEGIN line, the base64 body cut into lines of 64 characters, an END
    line, every line ended by CRLF. Also the base64 alphabet (section 4 of
    RFC 4648), used to read back the bytes of a PEM body. */
module Pem {
  import opened Wrappers
  import opened Certificates
  import opened Der

  /** `s` cut into pieces of `w` characters; the last piece holds the rest
      and is empty only when `s` is. */
  function Chunks(s: string, w: nat): (lines: seq<string>)
    requires w > 0
    ensures |lines| >= 1
    decreases |s|
  {
    if |s| <= w then [s] else [s[..w]] + Chunks(s[w..], w)
  }

  function Concat(lines: seq<string>): string
    decreases |lines|
  {
    if |lines| == 0 then "" else lines[0] + Concat(lines[1..])
  }

  /** Lines of exactly `w` characters, except the last, which has 1 to `w`. */
  predicate FilledLines(lines: seq<string>, w: nat) {
    |lines| >= 1
    && (forall i :: 0 <= i < |lines| - 1 ==> |lines[i]| == w)
    && 1 <= |lines[|lines| - 1]| <= w
  }

  /** Cutting a non-empty text into lines of `w` gives filled lines that put
      back together give the text. */
  lemma ChunksFill(s: string, w: nat)
    requires w > 0 && |s| > 0
    ensures FilledLines(Chunks(s, w), w)
    ensures Concat(Chunks(s, w)) == s
  {
    ChunksFilled(s, w);
    ChunksConcat(s, w);
  }

  lemma {:induction false} ChunksFilled(s: string, w: nat)
    requires w > 0 && |s| > 0
    ensures FilledLines(Chunks(s, w), w)
    decreases |s|
  {
    if |s| > w {
      var rest := Chunks(s[w..], w);
      ChunksFilled(s[w..], w);
      var lines := Chunks(s, w);
      assert lines == [s[..w]] + rest;
      forall i | 0 <= i < |lines| - 1
        ensures |lines[i]| == w
      {
        if i > 0 {
          assert lines[i] == rest[i - 1];
        }
      }
      assert |lines| == |rest| + 1;
      assert lines[|rest|] == rest[|rest| - 1];
    }
  }

  lemma {:induction false} ChunksConcat(s: string, w: nat)
    requires w > 0
    ensures Concat(Chunks(s, w)) == s
    decreases |s|
  {
    if |s| > w {
      var rest := Chunks(s[w..], w);
      ChunksConcat(s[w..], w);
      var lines := Chunks(s, w);
      assert lines == [s[..w]] + rest;
      assert lines[1..] == rest;
      assert Concat(lines) == s[..w] + s[w..];
      assert s[..w] + s[w..] == s;
    } else {
      assert Chunks(s, w) == [s];
      assert Concat([s]) == s + Concat([]);
      assert s + "" == s;
    }
  }

  /** And filled lines are exactly what cutting their concatenation gives. */
  lemma {:induction false} ChunksOfFilled(lines: seq<string>, w: nat)
    requires w > 0 && FilledLines(lines, w)
    ensures Chunks(Concat(lines), w) == lines
    decreases |lines|
  {
    if |lines| == 1 {
      assert Concat(lines) == lines[0] + "" == lines[0];
    } else {
      var rest := lines[1..];
      assert FilledLines(rest, w) by {
        assert forall i :: 0 <= i < |rest| - 1 ==> rest[i] == lines[i + 1];
      }
      ChunksOfFilled(rest, w);
      var s := Concat(lines);
      assert s == lines[0] + Concat(rest);
      ConcatCoversLine(rest, |rest| - 1);
      assert s[..w] == lines[0];
      assert s[w..] == Concat(rest);
      assert [lines[0]] + rest == lines;
    }
  }

  lemma {:induction false} ConcatCoversLine(lines: seq<string>, i: nat)
    requires i < |lines|
    ensures |Concat(lines)| >= |lines[i]|
    decreases |lines|
  {
    if i > 0 {
      ConcatCoversLine(lines[1..], i - 1);
    }
  }

  /** `parts` joined with the separator string `sep`. */
  function JoinWith(parts: seq<string>, sep: string): string
    decreases |parts|
  {
    if |parts| == 0 then ""
    else if |parts| == 1 then parts[0]
    else parts[0] + (sep + JoinWith(parts[1..], sep))
  }

  /** An encapsulation boundary, section 2 of RFC 7468. */
  function Boundary(kind: string, pemType: string): string {
    "-----" + kind + " " + pemType + "-----"
  }

  /** The BEGIN line, the body lines and the END line joined by `eol`. */
  function Frame(pemType: string, body: seq<string>, eol: string): string {
    Boundary("BEGIN", pemType) + (eol + (JoinWith(body, eol) + (eol + Boundary("END", pemType))))
  }

  /** The library's PEM writer with 64-character lines and no headers. */
  const MaxLine: nat := 64

  function PemEncode(pemType: string, base64: string): string {
    Frame(pemType, Chunks(base64, MaxLine), "\r\n") + "\r\n"
  }

  // ---------------------------------------------------------------------------
  // From CRLF to LF framing
  // ---------------------------------------------------------------------------

  predicate EndsInCr(s: string) {
    |s| > 0 && s[|s| - 1] == '\r'
  }

  lemma {:induction false} RemoveCarriageReturnsNoCr(s: string)
    requires '\r' !in s
    ensures RemoveCarriageReturns(s) == s
    decreases |s|
  {
    if |s| > 0 {
      RemoveCarriageReturnsNoCr(s[1..]);
      assert [s[0]] + s[1..] == s;
    }
  }

  /** dos2unix splits at any point not just after a carriage return. */
  lemma {:induction false} RemoveCarriageReturnsAppend(a: string, b: string)
    requires !EndsInCr(a)
    ensures RemoveCarriageReturns(a + b) == RemoveCarriageReturns(a) + RemoveCarriageReturns(b)
    decreases |a|
  {
    if |a| == 0 {
      assert a + b == b;
    } else if |a| >= 2 && a[0] == '\r' && a[1] == '\n' {
      assert !EndsInCr(a[2..]) by {
        if |a| > 2 {
          assert a[2..][|a| - 3] == a[|a| - 1];
        }
      }
      RemoveCarriageReturnsAppend(a[2..], b);
      AppendAfterCrlf(a, b);
    } else {
      assert !EndsInCr(a[1..]) by {
        if |a| > 1 {
          assert a[1..][|a| - 2] == a[|a| - 1];
        }
      }
      RemoveCarriageReturnsAppend(a[1..], b);
      AppendAfterPlain(a, b);
    }
  }

  lemma AppendAfterCrlf(a: string, b: string)
    requires |a| >= 2 && a[0] == '\r' && a[1] == '\n'
    requires RemoveCarriageReturns(a[2..] + b) == RemoveCarriageReturns(a[2..]) + RemoveCarriageReturns(b)
    ensures RemoveCarriageReturns(a + b) == RemoveCarriageReturns(a) + RemoveCarriageReturns(b)
  {
    CrlfStepAppend(a, b);
    CrlfStep(a);
    Assoc("\n", RemoveCarriageReturns(a[2..]), RemoveCarriageReturns(b));
  }

  lemma CrlfStepAppend(a: string, b: string)
    requires |a| >= 2 && a[0] == '\r' && a[1] == '\n'
    ensures RemoveCarriageReturns(a + b) == "\n" + RemoveCarriageReturns(a[2..] + b)
  {
    var ab := a + b;
    assert ab[2..] == a[2..] + b;
    CrlfStep(ab);
  }

  lemma AppendAfterPlain(a: string, b: string)
    requires |a| >= 1 && !EndsInCr(a) && !(|a| >= 2 && a[0] == '\r' && a[1] == '\n')
    requires RemoveCarriageReturns(a[1..] + b) == RemoveCarriageReturns(a[1..]) + RemoveCarriageReturns(b)
    ensures RemoveCarriageReturns(a + b) == RemoveCarriageReturns(a) + RemoveCarriageReturns(b)
  {
    PlainStepAppend(a, b);
    PlainStep(a);
    Assoc([a[0]], RemoveCarriageReturns(a[1..]), RemoveCarriageReturns(b));
  }

  lemma PlainStepAppend(a: string, b: string)
    requires |a| >= 1 && !EndsInCr(a) && !(|a| >= 2 && a[0] == '\r' && a[1] == '\n')
    ensures RemoveCarriageReturns(a + b) == [a[0]] + RemoveCarriageReturns(a[1..] + b)
  {
    var ab := a + b;
    assert ab[1..] == a[1..] + b;
    assert !(|ab| >= 2 && ab[0] == '\r' && ab[1] == '\n') by {
      if |a| == 1 {
        assert a[0] != '\r';
      } else {
        assert ab[1] == a[1];
      }
    }
    PlainStep(ab);
  }

  lemma Assoc(x: string, p: string, q: string)
    ensures x + (p + q) == (x + p) + q
  {
  }

  lemma CrlfStep(s: string)
    requires |s| >= 2 && s[0] == '\r' && s[1] == '\n'
    ensures RemoveCarriageReturns(s) == "\n" + RemoveCarriageReturns(s[2..])
  {
  }

  lemma PlainStep(s: string)
    requires |s| >= 1 && !(|s| >= 2 && s[0] == '\r' && s[1] == '\n')
    ensures RemoveCarriageReturns(s) == [s[0]] + RemoveCarriageReturns(s[1..])
  {
  }

  lemma RemoveCarriageReturnsCrlf(b: string)
    ensures RemoveCarriageReturns("\r\n" + b) == "\n" + RemoveCarriageReturns(b)
  {
    assert ("\r\n" + b)[2..] == b;
  }

  predicate NoLineBreaks(s: string) {
    '\r' !in s && '\n' !in s
  }

  lemma {:induction false} RemoveCarriageReturnsJoin(lines: seq<string>)
    requires forall i :: 0 <= i < |lines| ==> NoLineBreaks(lines[i])
    ensures RemoveCarriageReturns(JoinWith(lines, "\r\n")) == JoinWith(lines, "\n")
    ensures !EndsInCr(JoinWith(lines, "\r\n"))
    decreases |lines|
  {
    if |lines| == 1 {
      RemoveCarriageReturnsNoCr(lines[0]);
    } else if |lines| > 1 {
      var rest := JoinWith(lines[1..], "\r\n");
      RemoveCarriageReturnsJoin(lines[1..]);
      RemoveCarriageReturnsNoCr(lines[0]);
      assert !EndsInCr(lines[0]) by {
        if |lines[0]| > 0 {
          assert lines[0][|lines[0]| - 1] in lines[0];
        }
      }
      RemoveCarriageReturnsAppend(lines[0], "\r\n" + rest);
      RemoveCarriageReturnsCrlf(rest);
      var whole := lines[0] + ("\r\n" + rest);
      assert whole[|whole| - 1] == ("\r\n" + rest)[|"\r\n" + rest| - 1];
      if |rest| == 0 {
        assert whole[|whole| - 1] == '\n';
      }
    }
  }

  /** The library's CRLF framing, normalised to LF line ends, is the same
      framing written with LF. */
  lemma RemoveCarriageReturnsFrame(pemType: string, lines: seq<string>)
    requires NoLineBreaks(pemType)
    requires forall i :: 0 <= i < |lines| ==> NoLineBreaks(lines[i])
    ensures RemoveCarriageReturns(Frame(pemType, lines, "\r\n") + "\r\n") == Frame(pemType, lines, "\n") + "\n"
  {
    var begin := Boundary("BEGIN", pemType);
    var end := Boundary("END", pemType);
    var body := JoinWith(lines, "\r\n");
    var tail := "\r\n" + (end + "\r\n");
    BoundaryHasNoCr("BEGIN", pemType);
    BoundaryHasNoCr("END", pemType);
    assert Frame(pemType, lines, "\r\n") + "\r\n" == begin + ("\r\n" + (body + tail));
    NoCrThenCrlf(begin, body + tail);
    RemoveCarriageReturnsJoin(lines);
    RemoveCarriageReturnsAppend(body, tail);
    assert end + "\r\n" == end + ("\r\n" + "");
    NoCrThenCrlf(end, "");
    assert end + ("\n" + "") == end + "\n";
    RemoveCarriageReturnsCrlf(end + "\r\n");
    var joined := JoinWith(lines, "\n");
    assert RemoveCarriageReturns(body + tail) == joined + ("\n" + (end + "\n"));
    Assoc(begin, "\n" + (joined + ("\n" + end)), "\n");
    Assoc("\n", joined + ("\n" + end), "\n");
    Assoc(joined, "\n" + end, "\n");
    Assoc("\n", end, "\n");
  }

  lemma BoundaryHasNoCr(kind: string, pemType: string)
    requires NoLineBreaks(kind) && NoLineBreaks(pemType)
    ensures '\r' !in Boundary(kind, pemType)
  {
    var t := Boundary(kind, pemType);
    assert forall i :: 0 <= i < |t| ==> t[i] == '-' || t[i] == ' ' || t[i] in kind || t[i] in pemType;
  }

  /** Text without carriage returns followed by CRLF reads as the text and LF. */
  lemma NoCrThenCrlf(x: string, rest: string)
    requires '\r' !in x
    ensures RemoveCarriageReturns(x + ("\r\n" + rest)) == x + ("\n" + RemoveCarriageReturns(rest))
  {
    assert !EndsInCr(x) by {
      if |x| > 0 {
        assert x[|x| - 1] in x;
      }
    }
    RemoveCarriageReturnsAppend(x, "\r\n" + rest);
    RemoveCarriageReturnsNoCr(x);
    RemoveCarriageReturnsCrlf(rest);
  }

  // ---------------------------------------------------------------------------
  // Base64 (section 4 of RFC 4648)
  // ---------------------------------------------------------------------------

  /** The value of a base64 alphabet character. */
  function Base64Digit(c: char): Option<nat> {
    if 'A' <= c <= 'Z' then Some(c as int - 'A' as int)
    else if 'a' <= c <= 'z' then Some(c as int - 'a' as int + 26)
    else if '0' <= c <= '9' then Some(c as int - '0' as int + 52)
    else if c == '+' then Some(62)
    else if c == '/' then Some(63)
    else None
  }

  /** One four-character group: three bytes, or two or one when the group
      ends in one or two `=` pad characters. */
  function DecodeGroup(g: string): (r: Option<seq<byte>>)
    requires |g| == 4
    ensures r.Some? ==> 1 <= |r.value| <= 3
    ensures r.Some? && g[3] != '=' ==> |r.value| == 3
  {
    var a := Base64Digit(g[0]);
    var b := Base64Digit(g[1]);
    var c := if g[2] == '=' then Some(0) else Base64Digit(g[2]);
    var d := if g[3] == '=' then Some(0) else Base64Digit(g[3]);
    if a.None? || b.None? || c.None? || d.None? || (g[2] == '=' && g[3] != '=') then None
    else
      var n := ((a.value * 64 + b.value) * 64 + c.value) * 64 + d.value;
      var bytes: seq<byte> := [n / 0x1_0000 % 256, n / 0x100 % 256, n % 256];
      if g[2] == '=' then Some(bytes[..1])
      else if g[3] == '=' then Some(bytes[..2])
      else Some(bytes)
  }

  /** A whole number of groups, padding allowed only in the last one. */
  function Base64Decode(s: string): (r: Option<seq<byte>>)
    requires |s| % 4 == 0
    ensures r.Some? ==> |r.value| <= 3 * |s| / 4
    ensures r.Some? && '=' !in s ==> |r.value| == 3 * |s| / 4
    decreases |s|
  {
    if |s| == 0 then Some([])
    else
      match DecodeGroup(s[..4])
      case None => None
      case Some(head) =>
        if |s| > 4 && |head| < 3 then None
        else
          match Base64Decode(s[4..])
          case None => None
          case Some(tail) =>
            assert '=' !in s ==> s[3] != '=' && '=' !in s[4..] by {
              if '=' !in s {
                assert s[3] in s;
                assert forall c :: c in s[4..] ==> c in s;
              }
            }
            Some(head + tail)
  }
}
