/**
 * Base64 as QByteArray applies it to stored credentials (RFC 4648,
 * section 4, with `=` padding). Encoding works three bytes at a time.
 * Decoding is Qt's lenient accumulator: it shifts six bits in per alphabet
 * character, emits a byte whenever eight or more bits are pending, and skips
 * every other character, the padding included.
 */
module Base64 {

  type Byte = x: int | 0 <= x < 0x100

  /** ASCII `=`. */
  const Pad: Byte := 61

  function Pow2(n: nat): (r: nat)
    ensures r >= 1
  {
    if n == 0 then 1 else 2 * Pow2(n - 1)
  }

  /** The character for a six-bit digit: `A`-`Z`, `a`-`z`, `0`-`9`, `+`, `/`. */
  function EncodeDigit(d: int): (c: Byte)
    requires 0 <= d < 64
    ensures c != Pad
  {
    if d < 26 then 65 + d
    else if d < 52 then 97 + (d - 26)
    else if d < 62 then 48 + (d - 52)
    else if d == 62 then 43
    else 47
  }

  /** The six-bit digit a character stands for, or -1 for a character outside the alphabet. */
  function DigitOf(c: Byte): (d: int)
    ensures -1 <= d < 64
    ensures d != -1 ==> EncodeDigit(d) == c
  {
    if 65 <= c <= 90 then c - 65
    else if 97 <= c <= 122 then c - 97 + 26
    else if 48 <= c <= 57 then c - 48 + 52
    else if c == 43 then 62
    else if c == 47 then 63
    else -1
  }

  lemma DigitOfEncode(d: int)
    requires 0 <= d < 64
    ensures DigitOf(EncodeDigit(d)) == d
  {
  }

  /** `QByteArray::toBase64`. */
  function Encode(b: seq<Byte>): (r: seq<Byte>)
    ensures |r| == (|b| + 2) / 3 * 4
    decreases |b|
  {
    if |b| == 0 then []
    else if |b| == 1 then
      [EncodeDigit(b[0] / 4), EncodeDigit(b[0] % 4 * 16), Pad, Pad]
    else if |b| == 2 then
      [EncodeDigit(b[0] / 4), EncodeDigit(b[0] % 4 * 16 + b[1] / 16), EncodeDigit(b[1] % 16 * 4), Pad]
    else
      [EncodeDigit(b[0] / 4), EncodeDigit(b[0] % 4 * 16 + b[1] / 16),
       EncodeDigit(b[1] % 16 * 4 + b[2] / 64), EncodeDigit(b[2] % 64)] + Encode(b[3..])
  }

  lemma {:induction false} Pow2Add(n: nat, k: nat)
    ensures Pow2(n + k) == Pow2(n) * Pow2(k)
  {
    if k > 0 {
      Pow2Add(n, k - 1);
    }
  }

  /** A byte leaves the accumulator once eight bits are pending. */
  lemma EmitBound(x: nat, n: nat)
    requires x < Pow2(n + 8)
    ensures x / Pow2(n) < 0x100
  {
    var p := Pow2(n);
    Pow2Add(n, 8);
    assert Pow2(8) == 0x100;
    assert (x / p) * p <= x < 0x100 * p;
    MultiplyCancel(x / p, 0x100, p);
  }

  lemma MultiplyCancel(a: int, b: int, p: int)
    requires p > 0 && a * p < b * p
    ensures a < b
  {
    if a >= b {
      MultiplyMonotonic(a, b, p);
    }
  }

  lemma MultiplyMonotonic(a: int, b: int, p: int)
    requires a >= b && p > 0
    ensures a * p >= b * p
  {
  }

  /** The byte that leaves an accumulator `acc` holding `left + 8` bits. */
  function EmittedByte(acc: nat, left: nat): (r: Byte)
    requires acc < Pow2(left + 8)
  {
    EmitBound(acc, left);
    acc / Pow2(left)
  }

  /** The `left` bits that stay in the accumulator after a byte leaves it. */
  function Remainder(acc: nat, left: nat): (r: nat)
    ensures r < Pow2(left)
  {
    acc % Pow2(left)
  }

  /** Shifting one digit in keeps the accumulator within its pending bits. */
  lemma ShiftIn(buf: nat, nbits: nat, d: int)
    requires nbits < 8 && buf < Pow2(nbits) && 0 <= d < 64
    ensures buf * 64 + d < Pow2(nbits + 6)
  {
    Pow2Add(nbits, 6);
    assert buf * 64 + d < Pow2(nbits) * 64;
  }

  /**
   * The decoder from a state holding `nbits` pending bits in `buf`.
   */
  function DecodeFrom(s: seq<Byte>, buf: nat, nbits: nat): (r: seq<Byte>)
    requires nbits < 8 && buf < Pow2(nbits)
    ensures |r| <= |s|
    decreases |s|
  {
    if s == [] then []
    else
      var d := DigitOf(s[0]);
      if d == -1 then DecodeFrom(s[1..], buf, nbits)
      else
        var acc := buf * 64 + d;
        ShiftIn(buf, nbits, d);
        if nbits + 6 >= 8 then
          var left := nbits - 2;
          [EmittedByte(acc, left)] + DecodeFrom(s[1..], Remainder(acc, left), left)
        else
          DecodeFrom(s[1..], acc, nbits + 6)
  }

  /** `QByteArray::fromBase64`. */
  function Decode(s: seq<Byte>): (r: seq<Byte>)
    ensures |r| <= |s|
  {
    DecodeFrom(s, 0, 0)
  }

  /** A pad character is skipped, whatever is pending. */
  lemma SkipPad(rest: seq<Byte>, buf: nat, nbits: nat)
    requires nbits < 8 && buf < Pow2(nbits)
    ensures DecodeFrom([Pad] + rest, buf, nbits) == DecodeFrom(rest, buf, nbits)
  {
    assert ([Pad] + rest)[1..] == rest;
  }

  /** One alphabet character that completes no byte. */
  lemma StepShift(c: Byte, rest: seq<Byte>, buf: nat, nbits: nat)
    requires nbits < 2 && buf < Pow2(nbits) && DigitOf(c) != -1
    ensures buf * 64 + DigitOf(c) < Pow2(nbits + 6)
    ensures DecodeFrom([c] + rest, buf, nbits) == DecodeFrom(rest, buf * 64 + DigitOf(c), nbits + 6)
  {
    ShiftIn(buf, nbits, DigitOf(c));
    assert ([c] + rest)[1..] == rest;
  }

  /** One alphabet character that completes a byte. */
  lemma StepEmit(c: Byte, rest: seq<Byte>, buf: nat, nbits: nat)
    requires 2 <= nbits < 8 && buf < Pow2(nbits) && DigitOf(c) != -1
    ensures buf * 64 + DigitOf(c) < Pow2(nbits - 2 + 8)
    ensures DecodeFrom([c] + rest, buf, nbits)
      == [EmittedByte(buf * 64 + DigitOf(c), nbits - 2)]
         + DecodeFrom(rest, Remainder(buf * 64 + DigitOf(c), nbits - 2), nbits - 2)
  {
    ShiftIn(buf, nbits, DigitOf(c));
    assert ([c] + rest)[1..] == rest;
  }

  /** Euclidean division has one answer. */
  lemma DivModUnique(acc: int, p: int, q: int, r: int)
    requires p > 0 && 0 <= r < p && acc == q * p + r
    ensures acc / p == q && acc % p == r
  {
    var q', r' := acc / p, acc % p;
    assert (q - q') * p == r' - r;
    if q > q' {
      MultiplyMonotonic(q - q', 1, p);
    } else if q < q' {
      MultiplyMonotonic(q' - q, 1, p);
    }
  }

  /** A completed byte whose value and remainder are already known. */
  lemma StepEmitKnown(c: Byte, rest: seq<Byte>, buf: nat, nbits: nat, q: Byte, r: nat)
    requires 2 <= nbits < 8 && buf < Pow2(nbits) && DigitOf(c) != -1
    requires r < Pow2(nbits - 2) && buf * 64 + DigitOf(c) == q * Pow2(nbits - 2) + r
    ensures DecodeFrom([c] + rest, buf, nbits) == [q] + DecodeFrom(rest, r, nbits - 2)
  {
    StepEmit(c, rest, buf, nbits);
    DivModUnique(buf * 64 + DigitOf(c), Pow2(nbits - 2), q, r);
  }

  /** The accumulator after each character of a group, as a byte and what stays pending. */
  lemma GroupArithmetic(b0: int, b1: int, b2: int)
    requires 0 <= b0 < 0x100 && 0 <= b1 < 0x100 && 0 <= b2 < 0x100
    ensures b0 / 4 * 64 + (b0 % 4 * 16 + b1 / 16) == b0 * 16 + b1 / 16
    ensures b1 / 16 * 64 + (b1 % 16 * 4 + b2 / 64) == b1 * 4 + b2 / 64
    ensures b2 / 64 * 64 + b2 % 64 == b2 * 1 + 0
    ensures b1 / 16 < 16 && b2 / 64 < 4
  {
  }

  /** Four characters of a full group decode to its three bytes and leave nothing pending. */
  lemma DecodeGroup(b0: Byte, b1: Byte, b2: Byte, rest: seq<Byte>)
    ensures DecodeFrom([EncodeDigit(b0 / 4), EncodeDigit(b0 % 4 * 16 + b1 / 16),
                        EncodeDigit(b1 % 16 * 4 + b2 / 64), EncodeDigit(b2 % 64)] + rest, 0, 0)
      == [b0, b1, b2] + DecodeFrom(rest, 0, 0)
  {
    var c0: int, c1: int, c2: int, c3: int := b0 / 4, b0 % 4 * 16 + b1 / 16, b1 % 16 * 4 + b2 / 64, b2 % 64;
    var e0, e1, e2, e3 := EncodeDigit(c0), EncodeDigit(c1), EncodeDigit(c2), EncodeDigit(c3);
    DigitOfEncode(c0);
    DigitOfEncode(c1);
    DigitOfEncode(c2);
    DigitOfEncode(c3);
    assert [e0, e1, e2, e3] + rest == [e0] + ([e1] + ([e2] + ([e3] + rest)));
    assert Pow2(6) == 64 && Pow2(4) == 16 && Pow2(2) == 4 && Pow2(0) == 1;
    GroupArithmetic(b0, b1, b2);
    StepShift(e0, [e1] + ([e2] + ([e3] + rest)), 0, 0);
    StepEmitKnown(e1, [e2] + ([e3] + rest), c0, 6, b0, b1 / 16);
    StepEmitKnown(e2, [e3] + rest, b1 / 16, 4, b1, b2 / 64);
    StepEmitKnown(e3, rest, b2 / 64, 2, b2, 0);
    PrependThree(b0, b1, b2, DecodeFrom(rest, 0, 0));
  }

  lemma PrependThree(x: Byte, y: Byte, z: Byte, tail: seq<Byte>)
    ensures [x] + ([y] + ([z] + tail)) == [x, y, z] + tail
  {
  }

  /** A final group of one byte: two characters and two pad characters. */
  lemma DecodeLastOne(b0: Byte)
    ensures Decode(Encode([b0])) == [b0]
  {
    var c0: int, c1: int := b0 / 4, b0 % 4 * 16;
    var e0, e1 := EncodeDigit(c0), EncodeDigit(c1);
    DigitOfEncode(c0);
    DigitOfEncode(c1);
    assert Encode([b0]) == [e0] + ([e1] + ([Pad] + [Pad]));
    assert Pow2(6) == 64 && Pow2(4) == 16;
    GroupArithmetic(b0, 0, 0);
    StepShift(e0, [e1] + ([Pad] + [Pad]), 0, 0);
    StepEmitKnown(e1, [Pad] + [Pad], c0, 6, b0, 0);
    SkipPad([Pad], 0, 4);
    SkipPad([], 0, 4);
  }

  /** A final group of two bytes: three characters and one pad character. */
  lemma DecodeLastTwo(b0: Byte, b1: Byte)
    ensures Decode(Encode([b0, b1])) == [b0, b1]
  {
    var c0: int, c1: int, c2: int := b0 / 4, b0 % 4 * 16 + b1 / 16, b1 % 16 * 4;
    assert Encode([b0, b1]) == [EncodeDigit(c0)] + ([EncodeDigit(c1)] + ([EncodeDigit(c2)] + [Pad]));
    DecodeTwoDigits(b0, b1);
  }

  /** Three characters and a pad character decode to the two bytes they encode. */
  lemma DecodeTwoDigits(b0: Byte, b1: Byte)
    ensures DecodeFrom([EncodeDigit(b0 / 4)] + ([EncodeDigit(b0 % 4 * 16 + b1 / 16)] + ([EncodeDigit(b1 % 16 * 4)] + [Pad])), 0, 0)
      == [b0, b1]
  {
    var c0: int, c1: int, c2: int := b0 / 4, b0 % 4 * 16 + b1 / 16, b1 % 16 * 4;
    var e0, e1, e2 := EncodeDigit(c0), EncodeDigit(c1), EncodeDigit(c2);
    DigitOfEncode(c0);
    DigitOfEncode(c1);
    DigitOfEncode(c2);
    assert Pow2(6) == 64 && Pow2(4) == 16 && Pow2(2) == 4;
    GroupArithmetic(b0, b1, 0);
    calc {
      DecodeFrom([e0] + ([e1] + ([e2] + [Pad])), 0, 0);
    == { StepShift(e0, [e1] + ([e2] + [Pad]), 0, 0); }
      DecodeFrom([e1] + ([e2] + [Pad]), c0, 6);
    == { StepEmitKnown(e1, [e2] + [Pad], c0, 6, b0, b1 / 16); }
      [b0] + DecodeFrom([e2] + [Pad], b1 / 16, 4);
    == { StepEmitKnown(e2, [Pad], b1 / 16, 4, b1, 0); }
      [b0] + ([b1] + DecodeFrom([Pad], 0, 2));
    == { SkipPad([], 0, 2); }
      [b0] + ([b1] + DecodeFrom([], 0, 2));
    }
  }

  /** Decoding undoes encoding. */
  lemma {:induction false} DecodeEncode(b: seq<Byte>)
    ensures Decode(Encode(b)) == b
    decreases |b|
  {
    if |b| == 1 {
      DecodeLastOne(b[0]);
      assert b == [b[0]];
    } else if |b| == 2 {
      DecodeLastTwo(b[0], b[1]);
      assert b == [b[0], b[1]];
    } else if |b| >= 3 {
      DecodeGroup(b[0], b[1], b[2], Encode(b[3..]));
      DecodeEncode(b[3..]);
      assert b == [b[0], b[1], b[2]] + b[3..];
    }
  }
}
