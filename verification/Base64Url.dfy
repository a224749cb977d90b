// base64.RawURLEncoding, the unpadded URL-safe alphabet of section 5 of RFC 4648, with the
// decoder's leniencies: carriage returns and line feeds are skipped, and the unused low bits
// of the last digit are not checked.
module Base64Url {
  import opened Basics

  type Byte = x: int | 0 <= x < 256
  type Bytes = seq<Byte>
  type Sextet = x: int | 0 <= x < 64

  const LF: Byte := 10
  const CR: Byte := 13

  function Digit(v: Sextet): Byte {
    if v < 26 then 65 + v          // A-Z
    else if v < 52 then 71 + v     // a-z
    else if v < 62 then v - 4      // 0-9
    else if v == 62 then 45        // -
    else 95                        // _
  }

  function Value(b: Byte): Option<Sextet> {
    if 65 <= b <= 90 then Some(b - 65)
    else if 97 <= b <= 122 then Some(b - 71)
    else if 48 <= b <= 57 then Some(b + 4)
    else if b == 45 then Some(62)
    else if b == 95 then Some(63)
    else None
  }

  function Encode(s: Bytes): Bytes {
    if |s| == 0 then []
    else if |s| == 1 then [Digit(s[0] / 4), Digit(s[0] % 4 * 16)]
    else if |s| == 2 then [Digit(s[0] / 4), Digit(s[0] % 4 * 16 + s[1] / 16), Digit(s[1] % 16 * 4)]
    else
      [Digit(s[0] / 4), Digit(s[0] % 4 * 16 + s[1] / 16), Digit(s[1] % 16 * 4 + s[2] / 64), Digit(s[2] % 64)]
      + Encode(s[3..])
  }

  function SkipNewlines(s: Bytes): Bytes {
    if s == [] then []
    else if s[0] == LF || s[0] == CR then SkipNewlines(s[1..])
    else [s[0]] + SkipNewlines(s[1..])
  }

  function DecodeQuanta(s: Bytes): Option<Bytes> {
    if |s| == 0 then Some([])
    else if |s| == 1 then None
    else
      match (Value(s[0]), Value(s[1]))
      case (Some(a), Some(b)) =>
        var first: Byte := a * 4 + b / 16;
        if |s| == 2 then Some([first])
        else (
          match Value(s[2])
          case None => None
          case Some(c) =>
            var second: Byte := b % 16 * 16 + c / 4;
            if |s| == 3 then Some([first, second])
            else
              match (Value(s[3]), DecodeQuanta(s[4..]))
              case (Some(d), Some(rest)) => Some([first, second, c % 4 * 64 + d] + rest)
              case _ => None
        )
      case _ => None
  }

  function Decode(s: Bytes): Option<Bytes> {
    DecodeQuanta(SkipNewlines(s))
  }

  predicate InAlphabet(s: Bytes) {
    forall b :: b in s ==> Value(b).Some?
  }

  /** The alphabet, in the order of table 2 of RFC 4648. */
  lemma AlphabetIsUrlSafe(v: Sextet)
    ensures v < 26 ==> Digit(v) == 'A' as int + v
    ensures 26 <= v < 52 ==> Digit(v) == 'a' as int + (v - 26)
    ensures 52 <= v < 62 ==> Digit(v) == '0' as int + (v - 52)
    ensures Digit(62) == '-' as int && Digit(63) == '_' as int
  {
  }

  lemma ValueOfDigit(v: Sextet)
    ensures Value(Digit(v)) == Some(v)
  {
  }

  lemma {:induction false} EncodedIsInAlphabet(s: Bytes)
    ensures InAlphabet(Encode(s))
  {
    if |s| >= 3 {
      EncodedIsInAlphabet(s[3..]);
    }
  }

  lemma {:induction false} NothingToSkip(s: Bytes)
    requires InAlphabet(s)
    ensures SkipNewlines(s) == s
  {
    if s != [] {
      assert s[0] in s;
      NothingToSkip(s[1..]);
    }
  }

  lemma ThreeBytes(a: Byte, b: Byte, c: Byte)
    ensures a / 4 * 4 + (a % 4 * 16 + b / 16) / 16 == a
    ensures (a % 4 * 16 + b / 16) % 16 * 16 + (b % 16 * 4 + c / 64) / 4 == b
    ensures (b % 16 * 4 + c / 64) % 4 * 64 + c % 64 == c
  {
    assert (a % 4 * 16 + b / 16) / 16 == a % 4;
    assert (b % 16 * 4 + c / 64) / 4 == b % 16;
  }

  lemma {:induction false} DecodeTwo(x: Sextet, y: Sextet)
    ensures DecodeQuanta([Digit(x), Digit(y)]) == Some([x * 4 + y / 16])
  {
    ValueOfDigit(x);
    ValueOfDigit(y);
  }

  lemma {:induction false} DecodeThree(x: Sextet, y: Sextet, z: Sextet)
    ensures DecodeQuanta([Digit(x), Digit(y), Digit(z)]) == Some([x * 4 + y / 16, y % 16 * 16 + z / 4])
  {
    ValueOfDigit(x);
    ValueOfDigit(y);
    ValueOfDigit(z);
  }

  lemma {:induction false} DecodeFour(x: Sextet, y: Sextet, z: Sextet, w: Sextet, rest: Bytes)
    requires DecodeQuanta(rest).Some?
    ensures DecodeQuanta([Digit(x), Digit(y), Digit(z), Digit(w)] + rest)
            == Some([x * 4 + y / 16, y % 16 * 16 + z / 4, z % 4 * 64 + w] + DecodeQuanta(rest).value)
  {
    hide Digit, Value;
    ValueOfDigit(x);
    ValueOfDigit(y);
    ValueOfDigit(z);
    ValueOfDigit(w);
    assert ([Digit(x), Digit(y), Digit(z), Digit(w)] + rest)[4..] == rest;
  }

  lemma {:induction false} OneByteRoundTrip(a: Byte)
    ensures DecodeQuanta(Encode([a])) == Some([a])
  {
    ThreeBytes(a, 0, 0);
    DecodeTwo(a / 4, a % 4 * 16);
  }

  lemma {:induction false} TwoByteRoundTrip(a: Byte, b: Byte)
    ensures DecodeQuanta(Encode([a, b])) == Some([a, b])
  {
    ThreeBytes(a, b, 0);
    DecodeThree(a / 4, a % 4 * 16 + b / 16, b % 16 * 4);
  }

  lemma {:induction false} QuantumMore(a: Byte, b: Byte, c: Byte, rest: Bytes)
    requires DecodeQuanta(Encode(rest)) == Some(rest)
    ensures DecodeQuanta(Encode([a, b, c] + rest)) == Some([a, b, c] + rest)
  {
    hide DecodeQuanta, Digit, Value;
    ThreeBytes(a, b, c);
    DecodeFour(a / 4, a % 4 * 16 + b / 16, b % 16 * 4 + c / 64, c % 64, Encode(rest));
    assert ([a, b, c] + rest)[3..] == rest;
  }

  lemma NoBytesRoundTrip()
    ensures DecodeQuanta(Encode([])) == Some([])
  {
  }

  lemma {:induction false} QuantaRoundTrip(s: Bytes)
    ensures DecodeQuanta(Encode(s)) == Some(s)
  {
    hide DecodeQuanta, Encode;
    NoBytesRoundTrip();
    if |s| == 1 {
      OneByteRoundTrip(s[0]);
      assert s == [s[0]];
    } else if |s| == 2 {
      TwoByteRoundTrip(s[0], s[1]);
      assert s == [s[0], s[1]];
    } else if |s| >= 3 {
      QuantaRoundTrip(s[3..]);
      QuantumMore(s[0], s[1], s[2], s[3..]);
      assert s == [s[0], s[1], s[2]] + s[3..];
    }
  }

  /** Decoding inverts encoding, so encoding is injective. */
  lemma RoundTrip(s: Bytes)
    ensures Decode(Encode(s)) == Some(s)
  {
    EncodedIsInAlphabet(s);
    NothingToSkip(Encode(s));
    QuantaRoundTrip(s);
  }

  // --- what the digits say --------------------------------------------------------------------------

  function ByteAt(s: Bytes, i: nat): nat {
    if i < |s| then s[i] else 0
  }

  function SextetAt(e: Bytes, i: nat): nat {
    if i < |e| && Value(e[i]).Some? then Value(e[i]).value else 0
  }

  /** Up to three bytes, padded with zeros to 24 bits, are written big-endian in base 64. */
  lemma {:induction false} QuantumIsBigEndian(s: Bytes)
    requires 1 <= |s| <= 3
    ensures |Encode(s)| == |s| + 1
    ensures ByteAt(s, 0) * 65536 + ByteAt(s, 1) * 256 + ByteAt(s, 2)
            == SextetAt(Encode(s), 0) * 262144 + SextetAt(Encode(s), 1) * 4096
               + SextetAt(Encode(s), 2) * 64 + SextetAt(Encode(s), 3)
  {
    QuantumDigits(s);
    SameNumber(ByteAt(s, 0), ByteAt(s, 1), ByteAt(s, 2));
  }

  lemma SameNumber(a: Byte, b: Byte, c: Byte)
    ensures a * 65536 + b * 256 + c
            == a / 4 * 262144 + (a % 4 * 16 + b / 16) * 4096 + (b % 16 * 4 + c / 64) * 64 + c % 64
  {
  }

  lemma {:induction false} QuantumDigits(s: Bytes)
    requires 1 <= |s| <= 3
    ensures var a, b, c, e := ByteAt(s, 0), ByteAt(s, 1), ByteAt(s, 2), Encode(s);
      && |e| == |s| + 1
      && SextetAt(e, 0) == a / 4 && SextetAt(e, 1) == a % 4 * 16 + b / 16
      && SextetAt(e, 2) == b % 16 * 4 + c / 64 && SextetAt(e, 3) == c % 64
  {
    var a, b, c := ByteAt(s, 0), ByteAt(s, 1), ByteAt(s, 2);
    hide Digit, Value;
    ValueOfDigit(a / 4);
    ValueOfDigit(a % 4 * 16 + b / 16);
    ValueOfDigit(b % 16 * 4 + c / 64);
    ValueOfDigit(c % 64);
    assert Encode(s[|s|..]) == [];
  }

  function Quantum(a: Byte, b: Byte, c: Byte): Bytes {
    [Digit(a / 4), Digit(a % 4 * 16 + b / 16), Digit(b % 16 * 4 + c / 64), Digit(c % 64)]
  }

  lemma {:induction false} FirstQuantum(s: Bytes)
    requires |s| >= 3
    ensures Encode(s) == Quantum(s[0], s[1], s[2]) + Encode(s[3..])
  {
    hide Digit;
  }

  lemma NothingEncoded()
    ensures Encode([]) == []
  {
  }

  lemma {:induction false} EncodesByQuanta(s: Bytes)
    requires |s| >= 3
    ensures Encode(s) == Encode(s[..3]) + Encode(s[3..])
  {
    hide Encode, Quantum;
    FirstQuantum(s);
    FirstQuantum(s[..3]);
    NothingEncoded();
    assert s[..3][3..] == [];
    assert Quantum(s[0], s[1], s[2]) + [] == Quantum(s[0], s[1], s[2]);
  }

  lemma {:induction false} SkippedInside(a: Bytes, c: Byte, b: Bytes)
    requires c == LF || c == CR
    ensures SkipNewlines(a + [c] + b) == SkipNewlines(a + b)
  {
    if a == [] {
      assert ([c] + b)[1..] == b && [] + [c] + b == [c] + b && [] + b == b;
    } else {
      assert (a + [c] + b)[1..] == a[1..] + [c] + b && (a + b)[1..] == a[1..] + b;
      SkippedInside(a[1..], c, b);
    }
  }

  /** A line break anywhere in the text makes no difference. */
  lemma LineBreaksAreSkipped(a: Bytes, c: Byte, b: Bytes)
    requires c == 10 || c == 13
    ensures Decode(a + [c] + b) == Decode(a + b)
  {
    SkippedInside(a, c, b);
  }

  /** The bits the last digit leaves over are not checked: it may be any with the same high bits. */
  lemma LowBitsAreIgnored(x: Sextet, y: Sextet, z: Sextet)
    requires y / 16 == z / 16
    ensures Decode([Digit(x), Digit(y)]) == Decode([Digit(x), Digit(z)]) == Some([x * 4 + z / 16])
  {
    hide Digit, Value;
    DecodeTwo(x, y);
    DecodeTwo(x, z);
    PairHasNoBreaks(x, y);
    PairHasNoBreaks(x, z);
  }

  lemma PairHasNoBreaks(x: Sextet, y: Sextet)
    ensures SkipNewlines([Digit(x), Digit(y)]) == [Digit(x), Digit(y)]
  {
    ValueOfDigit(x);
    ValueOfDigit(y);
    NothingToSkip([Digit(x), Digit(y)]);
  }
}
