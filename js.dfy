/**
 * The JavaScript coercions the bundle relies on: `parseFloat`, `Number(str)`,
 * truncation by `<<0`, `String(int)`, ASCII `toLowerCase`, and string truthiness.
 */
module Js {

  /** A JavaScript number as the model needs it: a finite value or NaN. */
  datatype JsNum = Finite(v: real) | NaN

  /** Truncation toward zero (what `x <<0` does to a finite in-range double). */
  function Trunc(x: real): (r: int)
    ensures x >= 0.0 ==> r as real <= x < r as real + 1.0
    ensures x < 0.0 ==> r as real - 1.0 < x <= r as real
  {
    if x >= 0.0 then x.Floor else -((-x).Floor)
  }

  /**
   * `x <<0` on a finite double (ToInt32): truncated toward zero, then wrapped
   * into the signed 32-bit range.
   */
  function ToInt32(x: real): (r: int)
    ensures -TwoTo31 <= r < TwoTo31
    ensures -TwoTo31 as real <= x < TwoTo31 as real ==> r == Trunc(x)
  {
    Int32(Trunc(x))
  }

  /** ToInt32 differs from the truncated value by a multiple of 2 to the 32. */
  lemma ToInt32Wraps(x: real)
    ensures (Trunc(x) - ToInt32(x)) % TwoTo32 == 0
  {
    assert ToInt32(x) == Int32(Trunc(x));
  }

  /** `n <<0`: NaN becomes 0, a finite value goes through ToInt32. */
  function ToInt(n: JsNum): (r: int)
    ensures -TwoTo31 <= r < TwoTo31
    ensures n.NaN? ==> r == 0
    ensures n.Finite? && -TwoTo31 as real <= n.v < TwoTo31 as real ==> r == Trunc(n.v)
  {
    match n
    case NaN => 0
    case Finite(v) => ToInt32(v)
  }

  /** `<<0` of a finite value is ToInt32 of it. */
  lemma ToIntFinite(v: real)
    ensures ToInt(Finite(v)) == ToInt32(v)
  {
  }

  /** `x * f` for a finite factor. */
  function Times(x: JsNum, f: real): (r: JsNum)
    ensures r.NaN? <==> x.NaN?
    ensures x.Finite? ==> r.v == x.v * f
  {
    match x
    case NaN => NaN
    case Finite(v) => Finite(v * f)
  }

  /** `x + y`: NaN when either side is. */
  function Plus(x: JsNum, y: JsNum): (r: JsNum)
    ensures r.NaN? <==> x.NaN? || y.NaN?
    ensures r.Finite? ==> r.v == x.v + y.v
  {
    if x.NaN? || y.NaN? then NaN else Finite(x.v + y.v)
  }

  function Abs(x: int): nat { if x < 0 then -x else x }

  /**
   * Integer division rounding toward zero, which is what truncating the quotient
   * `a / b` of two integers does before any 32-bit wrap.
   */
  function TruncDiv(a: int, b: int): (r: int)
    requires b != 0
    ensures a >= 0 && b > 0 ==> r == a / b
    ensures Abs(b) * Abs(r) <= Abs(a) < Abs(b) * Abs(r) + Abs(b)
    ensures (a >= 0) == (b > 0) ==> r >= 0
    ensures (a >= 0) != (b > 0) ==> r <= 0
  {
    TruncDivQuotient(a, b);
    var q := Abs(a) / Abs(b);
    if (a >= 0) == (b > 0) then q else -q
  }

  /** TruncDiv is the real quotient truncated toward zero. */
  lemma TruncDivTruncates(a: int, b: int)
    requires b != 0
    ensures TruncDiv(a, b) == Trunc(a as real / b as real)
  {
    TruncDivQuotient(a, b);
  }

  lemma TruncDivQuotient(a: int, b: int)
    requires b != 0
    ensures var q := Abs(a) / Abs(b);
            var r := if (a >= 0) == (b > 0) then q else -q;
            Abs(b) * Abs(r) <= Abs(a) < Abs(b) * Abs(r) + Abs(b)
            && r == Trunc(a as real / b as real)
  {
    var q := Abs(a) / Abs(b);
    DivisionBounds(Abs(a), Abs(b));
    if (a >= 0) == (b > 0) {
      TruncDivReal(a, b, q);
    } else {
      assert Abs(-q) == q;
      TruncDivReal(a, b, -q);
    }
  }

  lemma DivisionBounds(x: nat, y: nat)
    requires y > 0
    ensures y * (x / y) <= x < y * (x / y) + y
  {
  }

  /** `q` is the truncated real quotient when `|b * q| <= |a| < |b * q| + |b|` with the sign of `a / b`. */
  lemma TruncDivReal(a: int, b: int, q: int)
    requires b != 0
    requires Abs(b) * Abs(q) <= Abs(a) < Abs(b) * Abs(q) + Abs(b)
    requires (a >= 0) == (b > 0) ==> q >= 0
    requires (a >= 0) != (b > 0) ==> q <= 0
    ensures q == Trunc(a as real / b as real)
  {
    var z := Abs(a) as real / Abs(b) as real;
    QuotientMagnitude(Abs(a), Abs(b), Abs(q));
    SignedQuotient(a, b);
    if (a >= 0) == (b > 0) {
      assert a as real / b as real == z;
    } else {
      assert a as real / b as real == -z;
      assert Trunc(-z) == -Trunc(z);
    }
  }

  lemma SignedQuotient(a: int, b: int)
    requires b != 0
    ensures (a >= 0) == (b > 0) ==> a as real / b as real == Abs(a) as real / Abs(b) as real
    ensures (a >= 0) != (b > 0) ==> a as real / b as real == -(Abs(a) as real / Abs(b) as real)
  {
    if b < 0 {
      assert a as real / b as real == (-a) as real / (-b) as real;
    }
  }

  lemma QuotientMagnitude(a: nat, b: nat, q: nat)
    requires b > 0 && b * q <= a < b * q + b
    ensures Trunc(a as real / b as real) == q
  {
    assert (b * q) as real == b as real * q as real;
    RealQuotientBetween(a as real, b as real, q as real);
    TruncOf(a as real / b as real, q);
  }

  lemma RealQuotientBetween(x: real, y: real, lo: real)
    requires y > 0.0 && y * lo <= x < y * lo + y
    ensures lo <= x / y < lo + 1.0
  {
    var z := x / y;
    assert z * y == x;
    if z < lo {
      assert (lo - z) * y == lo * y - z * y;
      NonNegProduct(lo - z, y);
    }
    if z >= lo + 1.0 {
      assert (z - lo - 1.0) * y == z * y - lo * y - y;
      NonNegProduct(z - lo - 1.0, y);
    }
  }

  lemma NonNegProduct(u: real, v: real)
    requires u >= 0.0 && v >= 0.0
    ensures u * v >= 0.0
  {
  }

  lemma TruncOf(z: real, n: nat)
    requires n as real <= z < n as real + 1.0
    ensures Trunc(z) == n
  {
  }

  /** 2 to the power n. */
  function Pow2(n: nat): (r: nat)
    ensures r >= 1
  {
    if n == 0 then 1 else 2 * Pow2(n - 1)
  }

  lemma {:induction false} Pow2Monotone(m: nat, n: nat)
    requires m <= n
    ensures Pow2(m) <= Pow2(n)
    decreases n
  {
    if m < n {
      Pow2Monotone(m, n - 1);
    }
  }

  const TwoTo32: int := 0x1_0000_0000
  const TwoTo31: int := 0x8000_0000

  /** ToInt32 on an integer: wrapped into the signed 32-bit range. */
  function Int32(x: int): (r: int)
    ensures -TwoTo31 <= r < TwoTo31
    ensures (x - r) % TwoTo32 == 0
    ensures -TwoTo31 <= x < TwoTo31 ==> r == x
  {
    var m := x % TwoTo32;
    assert x == TwoTo32 * (x / TwoTo32) + m;
    CongruentMultiple(x / TwoTo32);
    CongruentMultiple(x / TwoTo32 + 1);
    if m >= TwoTo31 then m - TwoTo32 else m
  }

  lemma CongruentMultiple(q: int)
    ensures (TwoTo32 * q) % TwoTo32 == 0
  {
  }

  /** Every element lies in the signed 32-bit range. */
  predicate AllInt32(s: seq<int>)
  {
    forall k :: 0 <= k < |s| ==> -TwoTo31 <= s[k] < TwoTo31
  }

  /** `x` doubled `k` times, without wrapping. */
  function Doubled(x: int, k: nat): int
    decreases k
  {
    if k == 0 then x else Doubled(2 * x, k - 1)
  }

  /** `x` halved `k` times, each time rounding toward minus infinity. */
  function Halved(x: int, k: nat): (r: int)
    ensures r == x / Pow2(k)
    ensures x >= 0 ==> 0 <= r <= x
    decreases k
  {
    if k == 0 then x
    else
      HalfThenDivide(x, Pow2(k - 1));
      Halved(x / 2, k - 1)
  }

  /** Halving and then dividing by `p` is dividing by `2 * p`, both rounding down. */
  lemma HalfThenDivide(x: int, p: nat)
    requires p >= 1
    ensures (x / 2) / p == x / (2 * p)
  {
    var q, m := x / (2 * p), x % (2 * p);
    assert x == 2 * p * q + m && 0 <= m < 2 * p;
    assert x / 2 == p * q + m / 2 by {
      assert x == 2 * (p * q + m / 2) + m % 2;
    }
    DivideUnique(x / 2, p, q, m / 2);
  }

  lemma DivideUnique(n: int, d: nat, q: int, m: int)
    requires d >= 1 && n == d * q + m && 0 <= m < d
    ensures n / d == q
  {
    var q2, m2 := n / d, n % d;
    assert d * (q2 - q) == m - m2;
    if q2 > q {
      AtLeastOnce(d, q2 - q);
    } else if q2 < q {
      AtLeastOnce(d, q - q2);
    }
  }

  lemma AtLeastOnce(d: nat, k: int)
    requires k >= 1
    ensures d * k >= d
  {
    assert d * k == d + d * (k - 1);
  }

  /** `a << n`: the shift count is taken modulo 32 and the result wrapped to 32 bits. */
  function ShiftLeft(a: int, n: int): int
  {
    Int32(Doubled(Int32(a), n % 32))
  }

  /** `a >> n`: an arithmetic shift, i.e. halving with rounding toward minus infinity. */
  function ShiftRight(a: int, n: int): (r: int)
    ensures r == Int32(a) / Pow2(n % 32)
    ensures 0 <= Int32(a) ==> 0 <= r <= Int32(a)
  {
    Halved(Int32(a), n % 32)
  }

  lemma {:induction false} DoubledPow2(m: nat, k: nat)
    ensures Doubled(Pow2(m), k) == Pow2(m + k)
    decreases k
  {
    if k > 0 {
      assert 2 * Pow2(m) == Pow2(m + 1);
      DoubledPow2(m + 1, k - 1);
    }
  }

  /** Below 2^31, `256 << n` is exact: 2^(n+8) for shift counts up to 22. */
  lemma ShiftLeftExact(n: nat)
    requires n <= 22
    ensures ShiftLeft(256, n) == Pow2(n + 8)
  {
    Pow2Values();
    DoubledPow2(8, n);
    Pow2Monotone(n + 8, 30);
    assert n % 32 == n;
  }

  /** The powers of two the shift lemmas need. */
  lemma Pow2Values()
    ensures Pow2(8) == 256 && Pow2(30) == 0x4000_0000 && Pow2(31) == 0x8000_0000
  {
    assert Pow2(8) == 256;
    assert Pow2(16) == 65536;
    assert Pow2(24) == 0x100_0000;
  }

  /** At shift count 23, `256 << n` reaches bit 31 and wraps to the most negative 32-bit value. */
  lemma ShiftLeftWraps()
    ensures ShiftLeft(256, 23) == -TwoTo31
  {
    Pow2Values();
    DoubledPow2(8, 23);
    assert Int32(256) == 256 && 23 % 32 == 23;
    assert Doubled(256, 23) == TwoTo31;
    assert TwoTo31 % TwoTo32 == TwoTo31;
  }

  predicate IsDigit(c: char) { '0' <= c <= '9' }

  /**
   * White space and line terminators as the string-to-number conversions trim
   * them: tab, line feed, vertical tab, form feed, carriage return, space,
   * U+00A0, U+1680, U+2000 to U+200A, U+2028, U+2029, U+202F, U+205F, U+3000
   * and U+FEFF.
   */
  predicate IsSpace(c: char)
  {
    var u := c as int;
    (9 <= u <= 13) || u == 0x20 || u == 0xA0 || u == 0x1680 || (0x2000 <= u <= 0x200A)
    || u == 0x2028 || u == 0x2029 || u == 0x202F || u == 0x205F || u == 0x3000 || u == 0xFEFF
  }

  /** The value of `c` as a digit in bases up to 36, or 36 when it is none. */
  function DigitValue(c: char): (v: nat)
    ensures v <= 36
    ensures v < 10 <==> IsDigit(c)
  {
    if '0' <= c <= '9' then c as int - '0' as int
    else if 'a' <= c <= 'z' then c as int - 'a' as int + 10
    else if 'A' <= c <= 'Z' then c as int - 'A' as int + 10
    else 36
  }

  /** Number of consecutive digits of base `radix` in `s` starting at `i`. */
  function RadixRun(s: string, i: nat, radix: nat): (n: nat)
    requires i <= |s|
    ensures i + n <= |s|
    ensures forall k :: i <= k < i + n ==> DigitValue(s[k]) < radix
    ensures i + n == |s| || DigitValue(s[i + n]) >= radix
    decreases |s| - i
  {
    if i < |s| && DigitValue(s[i]) < radix then 1 + RadixRun(s, i + 1, radix) else 0
  }

  /** Value of a string of digits of base `radix`. */
  function RadixValue(d: string, radix: nat): nat
  {
    if d == [] then 0
    else radix * RadixValue(d[..|d| - 1], radix) + (if DigitValue(d[|d| - 1]) < radix then DigitValue(d[|d| - 1]) else 0)
  }

  /** Number of consecutive decimal digits of `s` starting at `i`. */
  function DigitRun(s: string, i: nat): (n: nat)
    requires i <= |s|
    ensures i + n <= |s|
    ensures forall k :: i <= k < i + n ==> IsDigit(s[k])
    ensures i + n == |s| || !IsDigit(s[i + n])
  {
    RadixRun(s, i, 10)
  }

  /** Value of a string of decimal digits. */
  function DecimalValue(d: string): nat
  {
    RadixValue(d, 10)
  }

  function Pow10(k: nat): (p: nat)
    ensures p >= 1
  {
    if k == 0 then 1 else 10 * Pow10(k - 1)
  }

  /** Index of the first character of `s` at or after `i` that is not white space. */
  function SkipSpace(s: string, i: nat): (j: nat)
    requires i <= |s|
    ensures i <= j <= |s|
    decreases |s| - i
  {
    if i < |s| && IsSpace(s[i]) then SkipSpace(s, i + 1) else i
  }

  /**
   * A decimal literal `digits[.digits]` or `.digits` at `i` (no sign): its value,
   * and where it ends. `None`-like result (end == i) when there is no digit at all.
   */
  datatype Decimal = Decimal(value: real, end: nat)

  function DecimalAt(s: string, i: nat): (d: Decimal)
    requires i <= |s|
    ensures i <= d.end <= |s|
    ensures d.end == i ==> d.value == 0.0
  {
    var a := DigitRun(s, i);
    var whole := DecimalValue(s[i..i + a]);
    if i + a < |s| && s[i + a] == '.' then
      var b := DigitRun(s, i + a + 1);
      if a + b == 0 then Decimal(0.0, i)
      else Decimal(whole as real + DecimalValue(s[i + a + 1..i + a + 1 + b]) as real / Pow10(b) as real,
                   i + a + 1 + b)
    else Decimal(whole as real, i + a)
  }

  /** Leading sign at `i`: the factor and the index after it. */
  function SignAt(s: string, i: nat): (r: (real, nat))
    requires i <= |s|
    ensures i <= r.1 <= |s| && (r.0 == 1.0 || r.0 == -1.0)
  {
    if i < |s| && s[i] == '-' then (-1.0, i + 1)
    else if i < |s| && s[i] == '+' then (1.0, i + 1)
    else (1.0, i)
  }

  /**
   * `parseFloat(s)`: the longest decimal prefix after leading white space,
   * NaN when there is none.
   */
  function ParseFloat(s: string): (n: JsNum)
  {
    var i := SkipSpace(s, 0);
    var (sign, j) := SignAt(s, i);
    var d := DecimalAt(s, j);
    if d.end == j then NaN else Finite(sign * d.value)
  }

  /**
   * `parseInt(s, radix)` for radix 10 or 16: leading white space, a sign, for
   * radix 16 an optional `0x`/`0X`, then the longest run of digits; NaN when
   * there is no digit.
   */
  function ParseInt(s: string, radix: nat): (n: JsNum)
    requires radix == 10 || radix == 16
  {
    var i := SkipSpace(s, 0);
    var (sign, j) := SignAt(s, i);
    var k := if radix == 16 && j + 1 < |s| && s[j] == '0' && (s[j + 1] == 'x' || s[j + 1] == 'X') then j + 2 else j;
    var run := RadixRun(s, k, radix);
    if run == 0 then NaN else Finite(sign * RadixValue(s[k..k + run], radix) as real)
  }

  /** Index just past the last non-white-space character of `s[..j]`. */
  function TrimEnd(s: string, j: nat): (k: nat)
    requires j <= |s|
    ensures k <= j
  {
    if j > 0 && IsSpace(s[j - 1]) then TrimEnd(s, j - 1) else j
  }

  /** The radix a `0x`, `0o` or `0b` prefix (either case) at `i` announces, or 0 when there is none. */
  function RadixPrefix(s: string, i: nat): (radix: nat)
    requires i <= |s|
    ensures radix != 0 ==> i + 2 <= |s| && s[i] == '0'
    ensures radix == 0 || radix == 2 || radix == 8 || radix == 16
  {
    if i + 1 < |s| && s[i] == '0' then
      var c := LowerChar(s[i + 1]);
      if c == 'x' then 16 else if c == 'o' then 8 else if c == 'b' then 2 else 0
    else 0
  }

  /**
   * `Number(s)` (also what `s * 3` and `s >= 0` apply to a string): the whole
   * string, white space trimmed, must be an unsigned `0x`/`0o`/`0b` literal or a
   * decimal literal; the empty string is 0.
   */
  function ToNumber(s: string): (n: JsNum)
  {
    var i := SkipSpace(s, 0);
    var k := TrimEnd(s, |s|);
    if k <= i then Finite(0.0)
    else if RadixPrefix(s[..k], i) != 0 then
      var radix := RadixPrefix(s[..k], i);
      var run := RadixRun(s[..k], i + 2, radix);
      if run == 0 || i + 2 + run != k then NaN else Finite(RadixValue(s[i + 2..k], radix) as real)
    else
      var (sign, j) := SignAt(s[..k], i);
      var d := DecimalAt(s[..k], j);
      if d.end == j || d.end != k then NaN else Finite(sign * d.value)
  }

  /** `String(n)` for an integer. */
  function NatToString(n: nat): (s: string)
    ensures |s| >= 1
    ensures forall k :: 0 <= k < |s| ==> IsDigit(s[k])
  {
    if n < 10 then [('0' as int + n) as char]
    else NatToString(n / 10) + [('0' as int + n % 10) as char]
  }

  function IntToString(n: int): string
  {
    if n < 0 then "-" + NatToString(-n) else NatToString(n)
  }

  /** ASCII `toLowerCase`. */
  function LowerChar(c: char): char
  {
    if 'A' <= c <= 'Z' then (c as int - 'A' as int + 'a' as int) as char else c
  }

  function Lower(s: string): (r: string)
    ensures |r| == |s|
    ensures forall k :: 0 <= k < |s| ==> r[k] == LowerChar(s[k])
  {
    seq(|s|, k requires 0 <= k < |s| => LowerChar(s[k]))
  }

  /** `s.indexOf(c) >= 0`. */
  predicate Contains(s: string, c: char)
  {
    c in s
  }

  /** `s.indexOf(t) >= 0` for a two-character needle. */
  predicate ContainsPair(s: string, a: char, b: char)
  {
    exists k :: 0 <= k < |s| - 1 && s[k] == a && s[k + 1] == b
  }

  // ---------------------------------------------------------------------------
  // Round trips between String(n) and the parsers

  /** A run of digits that stops at a non-digit or at the end is the whole run. */
  lemma {:induction false} RadixRunExact(s: string, i: nat, n: nat, radix: nat)
    requires i + n <= |s|
    requires forall k :: i <= k < i + n ==> DigitValue(s[k]) < radix
    requires i + n == |s| || DigitValue(s[i + n]) >= radix
    ensures RadixRun(s, i, radix) == n
    decreases n
  {
    if n > 0 {
      RadixRunExact(s, i + 1, n - 1, radix);
    }
  }

  /** The digits of `String(n)` are worth `n`. */
  lemma {:induction false} NatToStringValue(n: nat)
    ensures RadixValue(NatToString(n), 10) == n
  {
    var s := NatToString(n);
    if n >= 10 {
      NatToStringValue(n / 10);
      assert s[..|s| - 1] == NatToString(n / 10);
    }
  }

  lemma NatToStringDigits(n: nat)
    ensures RadixRun(NatToString(n), 0, 10) == |NatToString(n)|
    ensures SkipSpace(NatToString(n), 0) == 0
    ensures SignAt(NatToString(n), 0) == (1.0, 0)
  {
    var s := NatToString(n);
    assert IsDigit(s[0]);
    RadixRunExact(s, 0, |s|, 10);
  }

  /** `parseInt(String(n), 10)` gives back `n`. */
  lemma ParseIntNatToString(n: nat)
    ensures ParseInt(NatToString(n), 10) == Finite(n as real)
  {
    var s := NatToString(n);
    NatToStringDigits(n);
    NatToStringValue(n);
    assert s[0..|s|] == s;
  }

  /** `parseFloat(String(n))` gives back `n`. */
  lemma ParseFloatNatToString(n: nat)
    ensures ParseFloat(NatToString(n)) == Finite(n as real)
  {
    var s := NatToString(n);
    NatToStringDigits(n);
    NatToStringValue(n);
    assert s[0..|s|] == s;
  }

  /** `Number(String(n))` gives back `n`. */
  lemma ToNumberNatToString(n: nat)
    ensures ToNumber(NatToString(n)) == Finite(n as real)
  {
    var s := NatToString(n);
    NatToStringDigits(n);
    NatToStringValue(n);
    assert s[0..|s|] == s;
    assert s[..|s|] == s;
    assert IsDigit(s[|s| - 1]);
  }

  /** The digits of `String(n)` followed by text that does not continue a number. */
  lemma DigitsThen(n: nat, rest: string)
    requires |rest| > 0 && !IsDigit(rest[0]) && rest[0] != '.'
    ensures var s := NatToString(n) + rest;
            SkipSpace(s, 0) == 0 && SignAt(s, 0) == (1.0, 0)
            && DecimalAt(s, 0) == Decimal(n as real, |NatToString(n)|)
  {
    var d := NatToString(n);
    var s := d + rest;
    NatToStringDigits(n);
    NatToStringValue(n);
    assert IsDigit(s[0]);
    assert forall k :: 0 <= k < |d| ==> s[k] == d[k];
    RadixRunExact(s, 0, |d|, 10);
    assert s[0..|d|] == d;
  }

  /** `parseFloat` reads `String(n)` back from the front of a longer string. */
  lemma ParseFloatDigitsThen(n: nat, rest: string)
    requires |rest| > 0 && !IsDigit(rest[0]) && rest[0] != '.'
    ensures ParseFloat(NatToString(n) + rest) == Finite(n as real)
  {
    DigitsThen(n, rest);
  }

  /** `Number` rejects `String(n)` followed by a character that is no part of a number. */
  lemma ToNumberDigitsThen(n: nat, c: char)
    requires !IsDigit(c) && c != '.' && !IsSpace(c)
    ensures ToNumber(NatToString(n) + [c]) == NaN
  {
    var s := NatToString(n) + [c];
    DigitsThen(n, [c]);
    assert s[..|s|] == s;
  }

  /** `Number` reads an unsigned hexadecimal literal. */
  lemma ToNumberHex()
    ensures ToNumber("0x10") == Finite(16.0)
  {
    var s := "0x10";
    assert SkipSpace(s, 0) == 0 && TrimEnd(s, 4) == 4 && s[..4] == s;
    assert RadixPrefix(s, 0) == 16;
    RadixRunExact(s, 2, 2, 16);
    assert s[2..4] == "10" && RadixValue("10", 16) == 16;
  }

  /** White space around the literal is trimmed and the prefix and digits may be upper case. */
  lemma ToNumberHexSpaced()
    ensures ToNumber(" 0XfF ") == Finite(255.0)
  {
    var t := " 0XfF ";
    assert SkipSpace(t, 0) == 1 && TrimEnd(t, 6) == 5;
    var u := t[..5];
    assert RadixPrefix(u, 1) == 16;
    RadixRunExact(u, 3, 2, 16);
    assert t[3..5] == "fF" && RadixValue("fF", 16) == 255;
  }

  /** A sign before a prefixed literal makes it no number. */
  lemma ToNumberSignedHex()
    ensures ToNumber("-0x10") == NaN
  {
    var s := "-0x10";
    assert SkipSpace(s, 0) == 0 && TrimEnd(s, 5) == 5 && s[..5] == s;
    assert RadixPrefix(s, 0) == 0;
    assert SignAt(s, 0) == (-1.0, 1);
    RadixRunExact(s, 1, 1, 10);
    assert DecimalAt(s, 1).end == 2;
  }

  /** Lower-casing is idempotent. */
  lemma LowerIdempotent(s: string)
    ensures Lower(Lower(s)) == Lower(s)
  {
  }
}
