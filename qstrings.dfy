/**
 * A QString is a sequence of UTF-16 code units. The model keeps strings as
 * sequences of Unicode scalar values and converts to code units where the
 * representation shows: in the byte layout written by a data stream and in
 * string comparison, which QString performs code unit by code unit.
 */
module QStrings {

  /** A UTF-16 code unit. */
  type Unit = x: int | 0 <= x < 0x1_0000

  predicate IsSurrogate(u: int) { 0xD800 <= u <= 0xDFFF }
  predicate IsHighSurrogate(u: int) { 0xD800 <= u <= 0xDBFF }
  predicate IsLowSurrogate(u: int) { 0xDC00 <= u <= 0xDFFF }

  /** The code units of one character: itself inside the basic plane, a surrogate pair above it. */
  function UnitsOf(c: char): (r: seq<Unit>)
    ensures |r| == 1 || |r| == 2
    ensures |r| == 1 <==> (c as int) < 0x1_0000
    ensures |r| == 1 ==> r[0] == c as int && !IsSurrogate(r[0])
    ensures |r| == 2 ==> IsHighSurrogate(r[0]) && IsLowSurrogate(r[1])
  {
    var n := c as int;
    if n < 0x1_0000 then [n]
    else
      var m := n - 0x1_0000;
      [0xD800 + m / 0x400, 0xDC00 + m % 0x400]
  }

  /** UTF-16 form of a string. */
  function Utf16(s: string): (r: seq<Unit>)
    ensures |s| <= |r| <= 2 * |s|
  {
    if s == [] then [] else UnitsOf(s[0]) + Utf16(s[1..])
  }

  /**
   * Code units back to characters. A surrogate that is not part of a
   * well-formed pair has no scalar value and becomes U+FFFD.
   */
  function Utf16Decode(u: seq<Unit>): string
    decreases |u|
  {
    if u == [] then ""
    else if IsHighSurrogate(u[0]) && |u| >= 2 && IsLowSurrogate(u[1]) then
      var n: int := 0x1_0000 + (u[0] as int - 0xD800) * 0x400 + (u[1] as int - 0xDC00);
      [n as char] + Utf16Decode(u[2..])
    else if IsSurrogate(u[0]) then
      ['\U{FFFD}'] + Utf16Decode(u[1..])
    else
      [u[0] as char] + Utf16Decode(u[1..])
  }

  lemma UnitsOfDecode(c: char, rest: seq<Unit>)
    ensures Utf16Decode(UnitsOf(c) + rest) == [c] + Utf16Decode(rest)
  {
    var u := UnitsOf(c) + rest;
    var n := c as int;
    if n >= 0x1_0000 {
      var m := n - 0x1_0000;
      assert u[0] == 0xD800 + m / 0x400 && u[1] == 0xDC00 + m % 0x400;
      assert 0x1_0000 + (u[0] as int - 0xD800) * 0x400 + (u[1] as int - 0xDC00) == n;
      assert u[2..] == rest;
    } else {
      assert u[1..] == rest;
    }
  }

  /** Decoding the UTF-16 form of a string gives the string back. */
  lemma {:induction false} Utf16RoundTrip(s: string)
    ensures Utf16Decode(Utf16(s)) == s
  {
    if s != [] {
      UnitsOfDecode(s[0], Utf16(s[1..]));
      Utf16RoundTrip(s[1..]);
    }
  }

  lemma Utf16Injective(a: string, b: string)
    requires Utf16(a) == Utf16(b)
    ensures a == b
  {
    Utf16RoundTrip(a);
    Utf16RoundTrip(b);
  }

  lemma {:induction false} Utf16Append(a: string, b: string)
    ensures Utf16(a + b) == Utf16(a) + Utf16(b)
  {
    if a != [] {
      assert (a + b)[1..] == a[1..] + b;
      Utf16Append(a[1..], b);
    } else {
      assert a + b == b;
    }
  }

  /** Lexicographic order on code-unit sequences; a proper prefix comes first. */
  predicate LexLess(a: seq<int>, b: seq<int>)
    decreases |a|
  {
    if a == [] then b != []
    else if b == [] then false
    else a[0] < b[0] || (a[0] == b[0] && LexLess(a[1..], b[1..]))
  }

  lemma {:induction false} LexIrreflexive(a: seq<int>)
    ensures !LexLess(a, a)
    decreases |a|
  {
    if a != [] { LexIrreflexive(a[1..]); }
  }

  lemma {:induction false} LexTransitive(a: seq<int>, b: seq<int>, c: seq<int>)
    requires LexLess(a, b) && LexLess(b, c)
    ensures LexLess(a, c)
    decreases |a|
  {
    if a != [] && b != [] && c != [] && a[0] == b[0] == c[0] {
      LexTransitive(a[1..], b[1..], c[1..]);
    }
  }

  lemma {:induction false} LexTotal(a: seq<int>, b: seq<int>)
    requires a != b
    ensures LexLess(a, b) || LexLess(b, a)
    decreases |a|
  {
    if a != [] && b != [] && a[0] == b[0] {
      assert a == [a[0]] + a[1..] && b == [b[0]] + b[1..];
      LexTotal(a[1..], b[1..]);
    }
  }

  lemma {:induction false} LexAsymmetric(a: seq<int>, b: seq<int>)
    requires LexLess(a, b)
    ensures !LexLess(b, a)
    decreases |a|
  {
    if a != [] && b != [] && a[0] == b[0] {
      LexAsymmetric(a[1..], b[1..]);
    }
  }

  /** QString's `operator<`: comparison of the UTF-16 code units. */
  predicate Less(a: string, b: string) {
    LexLess(Utf16(a), Utf16(b))
  }

  /** `Less` is a strict total order on strings. */
  lemma LessIsStrictTotalOrder()
    ensures forall a :: !Less(a, a)
    ensures forall a, b :: Less(a, b) ==> !Less(b, a)
    ensures forall a, b, c :: Less(a, b) && Less(b, c) ==> Less(a, c)
    ensures forall a, b :: a != b ==> Less(a, b) || Less(b, a)
  {
    forall a { LexIrreflexive(Utf16(a)); }
    forall a, b | Less(a, b) { LexAsymmetric(Utf16(a), Utf16(b)); }
    forall a, b, c | Less(a, b) && Less(b, c) { LexTransitive(Utf16(a), Utf16(b), Utf16(c)); }
    forall a, b | a != b ensures Less(a, b) || Less(b, a) {
      if Utf16(a) == Utf16(b) { Utf16Injective(a, b); }
      LexTotal(Utf16(a), Utf16(b));
    }
  }

  /** Ascending order, duplicates allowed (QString's `<=`). */
  predicate LessOrEqual(a: string, b: string) {
    a == b || Less(a, b)
  }
}
