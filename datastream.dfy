/**
 * The part of QDataStream (format Qt_5_6, big-endian) that stored credentials
 * use: 32-bit unsigned integers and QStrings. A QString is written as its
 * length in bytes followed by its UTF-16 code units, or as 0xFFFFFFFF when it
 * is null. Reading is lenient: a read that runs past the end consumes what is
 * left and yields zero or an empty string, and later reads carry on.
 */
module DataStream {
  import opened Base64
  import opened QStrings
  import opened Variants

  /** The length field of a null QString. */
  const NullMarker: nat := 0xFFFF_FFFF

  const Two32: nat := 0x1_0000_0000

  /** A number below 2^32 survives truncation to 32 bits. */
  lemma Truncate32Small(n: nat)
    requires n < Two32
    ensures n % Two32 == n
  {
  }

  function Pow256(k: nat): (r: nat)
    ensures r >= 1
  {
    if k == 0 then 1 else 0x100 * Pow256(k - 1)
  }

  /** The low `k` bytes of `n`, most significant first. */
  function BigEndian(n: nat, k: nat): (r: seq<Byte>)
    ensures |r| == k
  {
    if k == 0 then [] else BigEndian(n / 0x100, k - 1) + [n % 0x100]
  }

  /** The number a run of bytes stands for, most significant first. */
  function BigEndianValue(b: seq<Byte>): (n: nat)
    ensures n < Pow256(|b|)
  {
    if b == [] then 0 else BigEndianValue(b[..|b| - 1]) * 0x100 + b[|b| - 1]
  }

  lemma {:induction false} BigEndianRoundTrip(n: nat, k: nat)
    requires n < Pow256(k)
    ensures BigEndianValue(BigEndian(n, k)) == n
  {
    if k > 0 {
      var b := BigEndian(n, k);
      assert b[..k - 1] == BigEndian(n / 0x100, k - 1);
      BigEndianRoundTrip(n / 0x100, k - 1);
    }
  }

  /** A `quint32`, most significant byte first. */
  function U32(n: nat): (r: seq<Byte>)
    requires n < Two32
    ensures |r| == 4
  {
    BigEndian(n, 4)
  }

  lemma U32RoundTrip(n: nat)
    requires n < Two32
    ensures BigEndianValue(U32(n)) == n
  {
    assert Pow256(4) == Two32;
    BigEndianRoundTrip(n, 4);
  }

  /** `stream >> quint32`: zero, and the input used up, when fewer than four bytes remain. */
  function ReadU32(b: seq<Byte>): (r: (nat, seq<Byte>))
    ensures r.0 < Two32
    ensures |b| < 4 ==> r == (0, [])
    ensures |b| >= 4 ==> r.1 == b[4..]
  {
    assert Pow256(4) == Two32;
    if |b| >= 4 then (BigEndianValue(b[..4]), b[4..]) else (0, [])
  }

  lemma ReadU32_U32(n: nat, rest: seq<Byte>)
    requires n < Two32
    ensures ReadU32(U32(n) + rest) == (n, rest)
  {
    assert (U32(n) + rest)[..4] == U32(n);
    U32RoundTrip(n);
    assert (U32(n) + rest)[4..] == rest;
  }

  /** Code units as bytes, high byte first. */
  function UnitBytes(u: seq<Unit>): (r: seq<Byte>)
    ensures |r| == 2 * |u|
  {
    if u == [] then [] else [u[0] / 0x100, u[0] % 0x100] + UnitBytes(u[1..])
  }

  /** Bytes read back as code units, two at a time. */
  function BytesUnits(b: seq<Byte>): (u: seq<Unit>)
    requires |b| % 2 == 0
    ensures 2 * |u| == |b|
  {
    if b == [] then [] else [b[0] as int * 0x100 + b[1]] + BytesUnits(b[2..])
  }

  lemma {:induction false} BytesUnits_UnitBytes(u: seq<Unit>)
    ensures BytesUnits(UnitBytes(u)) == u
  {
    if u != [] {
      var b := UnitBytes(u);
      assert b[2..] == UnitBytes(u[1..]);
      BytesUnits_UnitBytes(u[1..]);
    }
  }

  /** The byte length field of a non-null string, truncated to 32 bits as `quint32` stores it. */
  function ByteLength(s: string): nat {
    2 * |Utf16(s)| % Two32
  }

  /** `stream << QString`; `None` is the null QString. */
  function WriteString(s: Option<string>): (r: seq<Byte>)
    ensures s.None? ==> r == U32(NullMarker)
    ensures s.Some? ==> |r| == 4 + 2 * |Utf16(s.value)| && r[..4] == U32(ByteLength(s.value))
  {
    match s
    case None => U32(NullMarker)
    case Some(t) => U32(ByteLength(t)) + UnitBytes(Utf16(t))
  }

  /**
   * `stream >> QString`. A null or empty string reads as "". An odd length
   * marks corrupt data: the string is empty and only the length field is
   * consumed. A string cut short is empty and consumes the rest.
   */
  function ReadString(b: seq<Byte>): (r: (string, seq<Byte>))
    ensures |r.1| <= |b|
  {
    var (n, rest) := ReadU32(b);
    if n == NullMarker || n == 0 || n % 2 == 1 then ("", rest)
    else if |rest| < n then ("", [])
    else (Utf16Decode(BytesUnits(rest[..n])), rest[n..])
  }

  /** The byte length of `s` fits its 32-bit field and cannot be mistaken for the null marker. */
  predicate Fits(s: string) {
    2 * |Utf16(s)| < NullMarker
  }

  /** Reading a written string gives it back, a null string as "". */
  lemma ReadString_WriteString(s: Option<string>, rest: seq<Byte>)
    requires s.Some? ==> Fits(s.value)
    ensures ReadString(WriteString(s) + rest) == (s.GetOr(""), rest)
  {
    match s
    case None =>
      ReadU32_U32(NullMarker, rest);
    case Some(t) =>
      var u := Utf16(t);
      var n := 2 * |u|;
      assert ByteLength(t) == n;
      var b := U32(n) + UnitBytes(u) + rest;
      assert b == U32(n) + (UnitBytes(u) + rest);
      ReadU32_U32(n, UnitBytes(u) + rest);
      if n == 0 {
        Utf16RoundTrip(t);
      } else {
        assert (UnitBytes(u) + rest)[..n] == UnitBytes(u);
        assert (UnitBytes(u) + rest)[n..] == rest;
        BytesUnits_UnitBytes(u);
        Utf16RoundTrip(t);
      }
  }
}
