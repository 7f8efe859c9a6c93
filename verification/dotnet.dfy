/** The few .NET primitives the options extension relies on: the 32-bit `int`
    that every `GetHashCode` returns, its implicit widening to a 64-bit `long`
    (whose arithmetic wraps in an unchecked C# context), and the invariant-culture
    decimal rendering `int.ToString(CultureInfo.InvariantCulture)`. */
module DotNet {
  import opened Wrappers

  /** A .NET `int` (System.Int32). */
  type int32 = x: int | -0x8000_0000 <= x < 0x8000_0000

  const TwoTo64: int := 0x1_0000_0000_0000_0000
  const TwoTo63: int := 0x8000_0000_0000_0000

  /** The 64-bit pattern of a .NET `long`, read as an unsigned number. */
  type uint64 = x: int | 0 <= x < 0x1_0000_0000_0000_0000

  /** The `long` a 64-bit pattern denotes. */
  function Signed(b: uint64): int {
    if b < TwoTo63 then b else b - TwoTo64
  }

  /** The implicit conversion of an `int` to a `long`: two's-complement sign
      extension, so that the `long` denotes the same number. */
  function Widen(x: int32): (r: uint64)
    ensures Signed(r) == x
  {
    if x < 0 then x + TwoTo64 else x
  }

  /** Widening never merges two distinct `int`s. */
  lemma WidenInjective(x: int32, y: int32)
    ensures Widen(x) == Widen(y) <==> x == y
  {
    if Widen(x) == Widen(y) {
      assert Signed(Widen(x)) == Signed(Widen(y));
    }
  }

  /** `Int32.GetHashCode`, and `GetHashCode` of an enum whose underlying type is
      `int`: the value itself. */
  function IntHash(x: int32): int32 { x }

  /** `Boolean.GetHashCode`: 1 for `true`, 0 for `false`. */
  function BoolHash(b: bool): (r: int32)
    ensures r == 0 <==> !b
  {
    if b then 1 else 0
  }

  // ---------------------------------------------------------------------------
  // Wrapping multiplication and bitwise exclusive or on 64-bit patterns
  // ---------------------------------------------------------------------------

  function Pow2(n: nat): nat {
    if n == 0 then 1 else 2 * Pow2(n - 1)
  }

  /** `a * c` in an unchecked C# context: the product modulo 2^64. */
  function MulWrap(a: uint64, c: nat): uint64 {
    (a * c) % TwoTo64
  }

  lemma ModAddMultiple(r: int, t: int)
    ensures (r + t * TwoTo64) % TwoTo64 == r % TwoTo64
  {
  }

  /** Reducing a factor before multiplying does not change the product modulo 2^64. */
  lemma ModMul(x: int, y: int)
    ensures ((x % TwoTo64) * y) % TwoTo64 == (x * y) % TwoTo64
  {
    var q := x / TwoTo64;
    assert x == q * TwoTo64 + x % TwoTo64;
    assert x * y == (x % TwoTo64) * y + (q * y) * TwoTo64;
    ModAddMultiple((x % TwoTo64) * y, q * y);
  }

  /** Bitwise exclusive or, one binary digit at a time from the lowest. */
  function Xor(a: nat, b: nat): nat
    decreases a + b
  {
    if a == 0 && b == 0 then 0
    else 2 * Xor(a / 2, b / 2) + (if a % 2 == b % 2 then 0 else 1)
  }

  lemma {:induction false} XorBound(a: nat, b: nat, n: nat)
    requires a < Pow2(n) && b < Pow2(n)
    ensures Xor(a, b) < Pow2(n)
    decreases n
  {
    if n > 0 && !(a == 0 && b == 0) {
      XorBound(a / 2, b / 2, n - 1);
    }
  }

  lemma {:induction false} Pow2Add(a: nat, b: nat)
    ensures Pow2(a + b) == Pow2(a) * Pow2(b)
    decreases a
  {
    if a > 0 {
      Pow2Add(a - 1, b);
    }
  }

  lemma Pow2Of64()
    ensures Pow2(64) == TwoTo64
  {
    assert Pow2(4) == 16;
    Pow2Add(4, 4);
    Pow2Add(8, 8);
    Pow2Add(16, 16);
    Pow2Add(32, 32);
  }

  /** The `^` operator on two `long`s. */
  function LongXor(a: uint64, b: uint64): (r: uint64)
  {
    Pow2Of64();
    XorBound(a, b, 64);
    Xor(a, b)
  }

  lemma {:induction false} XorSymmetric(a: nat, b: nat)
    ensures Xor(a, b) == Xor(b, a)
    decreases a + b
  {
    if !(a == 0 && b == 0) {
      XorSymmetric(a / 2, b / 2);
    }
  }

  /** Exclusive or with the same operand twice gives back the original. */
  lemma {:induction false} XorCancel(a: nat, b: nat)
    ensures Xor(Xor(a, b), b) == a
    decreases a + b
  {
    if !(a == 0 && b == 0) {
      var x := Xor(a, b);
      XorCancel(a / 2, b / 2);
      assert x / 2 == Xor(a / 2, b / 2) && x % 2 == (if a % 2 == b % 2 then 0 else 1);
    }
  }

  /** Exclusive or with a fixed operand never merges two values. */
  lemma XorInjective(a: nat, b: nat, w: nat)
    ensures Xor(a, w) == Xor(b, w) <==> a == b
  {
    XorCancel(a, w);
    XorCancel(b, w);
  }

  // ---------------------------------------------------------------------------
  // Invariant-culture decimal rendering and its parser
  // ---------------------------------------------------------------------------

  predicate IsDigit(c: char) { '0' <= c <= '9' }

  function DigitChar(d: nat): (c: char)
    requires d < 10
    ensures IsDigit(c)
  {
    ('0' as int + d) as char
  }

  function DigitValue(c: char): (d: nat)
    requires IsDigit(c)
    ensures d < 10 && DigitChar(d) == c
  {
    c as int - '0' as int
  }

  predicate AllDigits(s: string) {
    forall i :: 0 <= i < |s| ==> IsDigit(s[i])
  }

  /** What `ToString(CultureInfo.InvariantCulture)` can produce for an integer:
      an optional leading minus sign followed by at least one digit, with no
      leading zero unless the number is zero, and no minus sign before zero. */
  predicate IsNumeral(s: string) {
    var negative := |s| > 0 && s[0] == '-';
    var digits := if negative then s[1..] else s;
    && |digits| > 0
    && AllDigits(digits)
    && (digits[0] == '0' ==> digits == "0")
    && !(negative && digits == "0")
  }

  /** Decimal digits of a natural number, most significant first. */
  function FormatNat(n: nat): (s: string)
    ensures |s| > 0 && AllDigits(s)
    ensures s[0] == '0' <==> n == 0
    ensures n == 0 ==> s == "0"
    decreases n
  {
    if n < 10 then [DigitChar(n)] else FormatNat(n / 10) + [DigitChar(n % 10)]
  }

  /** `int.ToString(CultureInfo.InvariantCulture)`. */
  function FormatInt(x: int): (s: string)
    ensures IsNumeral(s)
    ensures |s| > 0 && (s[0] == '-' <==> x < 0)
  {
    if x < 0 then "-" + FormatNat(-x) else FormatNat(x)
  }

  /** The number a string of decimal digits denotes. */
  function ParseNat(s: string): nat
    requires |s| > 0 && AllDigits(s)
    decreases |s|
  {
    if |s| == 1 then DigitValue(s[0])
    else 10 * ParseNat(s[..|s| - 1]) + DigitValue(s[|s| - 1])
  }

  /** Reads back a rendering produced by `FormatInt`; `None` for anything else. */
  function ParseInt(s: string): (r: Option<int>)
    ensures r.Some? ==> IsNumeral(s)
  {
    if !IsNumeral(s) then None
    else if s[0] == '-' then Some(0 - ParseNat(s[1..]))
    else Some(ParseNat(s))
  }

  lemma {:induction false} ParseFormatNat(n: nat)
    ensures ParseNat(FormatNat(n)) == n
    decreases n
  {
    if n >= 10 {
      var prefix := FormatNat(n / 10);
      var s := prefix + [DigitChar(n % 10)];
      assert s[..|s| - 1] == prefix;
      ParseFormatNat(n / 10);
    }
  }

  /** The rendering is lossless: parsing it gives back the number. */
  lemma ParseFormatInt(x: int)
    ensures ParseInt(FormatInt(x)) == Some(x)
  {
    var s := FormatInt(x);
    if x < 0 {
      assert s[1..] == FormatNat(-x);
      ParseFormatNat(-x);
    } else {
      ParseFormatNat(x);
    }
  }

  /** A digit string without a leading zero denotes a positive number. */
  lemma {:induction false} ParseNatPositive(s: string)
    requires |s| > 0 && AllDigits(s) && s[0] != '0'
    ensures ParseNat(s) > 0
    decreases |s|
  {
    if |s| > 1 {
      ParseNatPositive(s[..|s| - 1]);
    } else {
      assert DigitChar(ParseNat(s)) == s[0];
    }
  }

  lemma {:induction false} FormatParseNat(s: string)
    requires |s| > 0 && AllDigits(s) && (s[0] == '0' ==> s == "0")
    ensures FormatNat(ParseNat(s)) == s
    decreases |s|
  {
    if |s| > 1 {
      var prefix, last := s[..|s| - 1], s[|s| - 1];
      assert prefix[0] == s[0] != '0';
      ParseNatPositive(prefix);
      FormatParseNat(prefix);
      var n := ParseNat(s);
      assert n / 10 == ParseNat(prefix) && n % 10 == DigitValue(last);
      assert s == prefix + [last];
    }
  }

  /** Every numeral is the rendering of the number it denotes: `FormatInt`
      has exactly the numerals as its range. */
  lemma FormatParseInt(s: string)
    requires IsNumeral(s)
    ensures ParseInt(s).Some? && FormatInt(ParseInt(s).value) == s
  {
    if s[0] == '-' {
      var digits := s[1..];
      ParseNatPositive(digits);
      FormatParseNat(digits);
      assert s == "-" + digits;
    } else {
      FormatParseNat(s);
    }
  }

  /** A number has exactly one numeral. */
  lemma NumeralUnique(s: string, t: string)
    requires IsNumeral(s) && IsNumeral(t)
    ensures ParseInt(s) == ParseInt(t) <==> s == t
  {
    FormatParseInt(s);
    FormatParseInt(t);
  }

  /** Two distinct numbers never render to the same string. */
  lemma FormatIntInjective(x: int, y: int)
    ensures FormatInt(x) == FormatInt(y) <==> x == y
  {
    ParseFormatInt(x);
    ParseFormatInt(y);
  }
}
