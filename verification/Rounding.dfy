/** The specification of decimal-to-float conversion: the nearest value of a binary format, ties to even. */
module Rounding {
  import opened Words

  /** A binary format: `p` bits of precision, and the largest exponent (IEEE 754-2019, sections 3.3 and 3.4). */
  datatype Fmt = Fmt(p: nat, emax: nat)

  const FMT32 := Fmt(24, 127)
  const FMT64 := Fmt(53, 1023)

  predicate ValidFmt(f: Fmt) {
    f.p >= 2 && f.emax >= 1
  }

  // --- a format's values, in units of its smallest subnormal -------------------------------------

  /** 2^(p-1): the encodings of one exponent. */
  function Half(f: Fmt): (h: int)
    requires ValidFmt(f)
    ensures h >= 1
  {
    Pow2(f.p - 1)
  }

  /** How many doublings separate 1 from the smallest subnormal. */
  function Units(f: Fmt): nat
    requires ValidFmt(f)
  {
    f.p + f.emax - 2
  }

  /** The encoding of infinity. */
  function Infinity(f: Fmt): nat
    requires ValidFmt(f)
  {
    (2 * f.emax + 1) * Half(f)
  }

  /** The exponent step of an encoding: 0 for subnormals and the first normals. */
  function Shift(f: Fmt, b: nat): nat
    requires ValidFmt(f)
  {
    if b / Half(f) == 0 then 0 else b / Half(f) - 1
  }

  /** The significand of an encoding: the fraction, with the leading bit of a normal. */
  function Significand(f: Fmt, b: nat): int
    requires ValidFmt(f)
  {
    b - Shift(f, b) * Half(f)
  }

  /** An encoding's value, IEEE 754-2019 section 3.4; infinity's place is 2^(emax+1). */
  function ValueOf(f: Fmt, b: nat): int
    requires ValidFmt(f)
  {
    Significand(f, b) * Pow2(Shift(f, b))
  }

  // --- reading and rounding ---------------------------------------------------------------------------

  function BitLength(v: nat): nat {
    if v == 0 then 0 else 1 + BitLength(v / 2)
  }

  /** 2^e <= n/d. */
  predicate PowBelow(e: int, n: nat, d: nat) {
    if e >= 0 then d * Pow2(e) <= n else d <= n * Pow2(-e)
  }

  /** The e with 2^e <= n/d < 2^(e+1), from the bit lengths. */
  function Exponent(n: nat, d: nat): int {
    var e := BitLength(n) - BitLength(d);
    var e1 := if !PowBelow(e, n, d) then e - 1 else e;
    if PowBelow(e1 + 1, n, d) then e1 + 1 else e1
  }

  /** n / (d * 2^q), as a numerator and a denominator. */
  function Scaled(n: nat, d: nat, q: int): (nat, nat) {
    if q >= 0 then (n, d * Pow2(q)) else (n * Pow2(-q), d)
  }

  /** The nearest integer, ties to even. */
  function Nearest(n: nat, d: nat): (m: nat)
    requires d > 0
  {
    var m, r := Quotient(n, d), n % d;
    if 2 * r > d || (2 * r == d && m % 2 == 1) then m + 1 else m
  }

  datatype Flag = Finite | Overflow | Underflow

  /** The conversion of a positive rational n/d, as `ref` computes it. */
  function RefOf(n: nat, d: nat, f: Fmt): (nat, Flag)
    requires ValidFmt(f) && n > 0 && d > 0
  {
    var emin: int := 1 - f.emax;
    var e := Exponent(n, d);
    var top: int := if e > emin then e else emin;
    var (a, b) := Scaled(n, d, top - (f.p - 1));
    ScaledPositive(n, d, top - (f.p - 1));
    var m := Nearest(a, b);
    if m == 0 then (0, Underflow)
    else
      MulLowerNat(top - emin, Half(f));
      var bits: nat := (top - emin) * Half(f) + m;
      if bits / Half(f) >= 2 * f.emax + 1 then (Infinity(f), Overflow) else (bits, Finite)
  }

  lemma ScaledPositive(n: nat, d: nat, q: int)
    requires d > 0
    ensures Scaled(n, d, q).1 > 0
  {
    if q >= 0 { MulMono(1, d, Pow2(q)); }
  }

  lemma MulLowerNat(a: nat, b: nat)
    ensures a * b >= 0
  {}

  // --- the format's values step by the significand's unit -----------------------------------------------

  lemma DivStep(a: int, h: int, r: int)
    requires h >= 1 && 0 <= r < h
    ensures (a * h + r) / h == a
  {
    ModUnique(h, a, r);
    var v := a * h + r;
    assert v == (v / h) * h + v % h;
    assert (v / h) * h == a * h;
    CancelMul(v / h, a, h);
  }

  lemma LessMul(a: int, b: int, h: int)
    requires h >= 1 && a < b
    ensures a * h < b * h
  {
    MulMono(a + 1, b, h);
    assert (a + 1) * h == a * h + h;
  }

  lemma CancelMul(a: int, b: int, h: int)
    requires h >= 1 && a * h == b * h
    ensures a == b
  {
    if a < b { LessMul(a, b, h); } else if b < a { LessMul(b, a, h); }
  }

  /** An encoding taken apart: its exponent step and its significand. */
  lemma Parts(f: Fmt, b: nat, k: nat, m: nat)
    requires ValidFmt(f) && b == k * Half(f) + m && m < 2 * Half(f) && (k > 0 ==> Half(f) <= m)
    ensures Shift(f, b) == k && Significand(f, b) == m && ValueOf(f, b) == m * Pow2(k)
  {
    var h := Half(f);
    if m < h {
      DivStep(0, h, m);
    } else {
      assert b == (k + 1) * h + (m - h);
      DivStep(k + 1, h, m - h);
    }
  }

  /** Every encoding has parts. */
  lemma HasParts(f: Fmt, b: nat) returns (k: nat, m: nat)
    requires ValidFmt(f)
    ensures b == k * Half(f) + m && m < 2 * Half(f) && (k > 0 ==> Half(f) <= m) && k == Shift(f, b)
            && m == Significand(f, b)
    ensures ValueOf(f, b) == m * Pow2(k)
  {
    var h := Half(f);
    var q, r := b / h, b % h;
    assert b == q * h + r;
    k := if q == 0 then 0 else q - 1;
    m := b - k * h;
    if q == 0 { assert q * h == 0; } else { assert q * h == k * h + h; }
    Parts(f, b, k, m);
  }

  /** The next value is one unit of the significand up. */
  lemma NextValue(f: Fmt, b: nat)
    requires ValidFmt(f)
    ensures ValueOf(f, b + 1) == ValueOf(f, b) + Pow2(Shift(f, b))
  {
    var k, m := HasParts(f, b);
    var h, u := Half(f), Pow2(k);
    OneMore(m, u);
    OneMore(k, h);
    if m + 1 < 2 * h {
      Parts(f, b + 1, k, m + 1);
    } else {
      Parts(f, b + 1, k + 1, h);
      Pow2Next(k);
      Twofold(h, u);
    }
  }

  lemma OneMore(m: int, u: int)
    ensures (m + 1) * u == m * u + u
  {}

  lemma Twofold(h: int, u: int)
    ensures h * (2 * u) == (2 * h) * u
  {}

  lemma {:induction false} ValuesRise(f: Fmt, b: nat, c: nat)
    requires ValidFmt(f) && b <= c
    ensures ValueOf(f, b) + (c - b) <= ValueOf(f, c)
    decreases c - b
  {
    if b < c {
      ValuesRise(f, b, c - 1);
      NextValue(f, c - 1);
    }
  }

  // --- what rounding promises ----------------------------------------------------------------------------

  /** a/d is at or above the half-way point below `b`; at it only if `b` is even. */
  predicate AboveLow(f: Fmt, a: nat, d: nat, b: nat)
    requires ValidFmt(f)
  {
    b == 0 || 2 * a > d * (ValueOf(f, b - 1) + ValueOf(f, b))
        || (2 * a == d * (ValueOf(f, b - 1) + ValueOf(f, b)) && b % 2 == 0)
  }

  /** a/d is at or below the half-way point above `b`; at it only if `b` is even. Nothing is above infinity. */
  predicate BelowHigh(f: Fmt, a: nat, d: nat, b: nat)
    requires ValidFmt(f)
  {
    b == Infinity(f) || 2 * a < d * (ValueOf(f, b) + ValueOf(f, b + 1))
        || (2 * a == d * (ValueOf(f, b) + ValueOf(f, b + 1)) && b % 2 == 0)
  }

  /** `b` is the encoding of a/d units, rounded to nearest with ties to even. */
  predicate RoundsTo(f: Fmt, a: nat, d: nat, b: nat)
    requires ValidFmt(f)
  {
    b <= Infinity(f) && AboveLow(f, a, d, b) && BelowHigh(f, a, d, b)
  }

  function AbsDiff(x: int, y: int): nat {
    if x < y then y - x else x - y
  }

  /** Halves of neighbouring values rise. */
  lemma MidsRise(f: Fmt, b: nat, c: nat)
    requires ValidFmt(f) && b < c
    ensures ValueOf(f, b) + ValueOf(f, b + 1) <= ValueOf(f, c - 1) + ValueOf(f, c)
    ensures b + 1 < c ==> ValueOf(f, b) + ValueOf(f, b + 1) < ValueOf(f, c - 1) + ValueOf(f, c)
  {
    ValuesRise(f, b, c - 1);
    ValuesRise(f, b + 1, c);
  }

  lemma MulLe(d: nat, x: int, y: int)
    requires x <= y
    ensures d * x <= d * y && (d > 0 && x < y ==> d * x < d * y)
  {}

  /** One encoding only; and a larger number never has a smaller one. */
  lemma RoundsMonotone(f: Fmt, a: nat, d: nat, b: nat, a1: nat, d1: nat, c: nat)
    requires ValidFmt(f) && d > 0 && d1 > 0 && a * d1 <= a1 * d && RoundsTo(f, a, d, b) && RoundsTo(f, a1, d1, c)
    ensures b <= c
  {
    if c < b {
      var hi, lo := ValueOf(f, c) + ValueOf(f, c + 1), ValueOf(f, b - 1) + ValueOf(f, b);
      MidsRise(f, c, b);
      Sides(f, a, d, b, a1, d1, c, lo, hi);
      Cross(a, d, lo, a1, d1, hi);
    }
  }

  lemma Sides(f: Fmt, a: nat, d: nat, b: nat, a1: nat, d1: nat, c: nat, lo: int, hi: int)
    requires ValidFmt(f) && c < b && RoundsTo(f, a, d, b) && RoundsTo(f, a1, d1, c)
    requires hi == ValueOf(f, c) + ValueOf(f, c + 1) && lo == ValueOf(f, b - 1) + ValueOf(f, b)
    ensures 2 * a >= d * lo && 2 * a1 <= d1 * hi
  {}

  lemma CrossBounds(a: nat, d: nat, lo: int, a1: nat, d1: nat, hi: int, dd: int)
    requires d > 0 && d1 > 0 && 2 * a >= d * lo && 2 * a1 <= d1 * hi && dd == d * d1
    ensures 2 * a * d1 >= dd * lo && 2 * a1 * d <= dd * hi
  {
    MulLe(d1, d * lo, 2 * a);
    assert d1 * (d * lo) == dd * lo;
    MulLe(d, 2 * a1, d1 * hi);
    assert d * (d1 * hi) == dd * hi;
  }

  /** From a/d >= lo/2, a1/d1 <= hi/2, a/d <= a1/d1 and hi <= lo, all are equal. */
  lemma Cross(a: nat, d: nat, lo: int, a1: nat, d1: nat, hi: int)
    requires d > 0 && d1 > 0 && a * d1 <= a1 * d && 2 * a >= d * lo && 2 * a1 <= d1 * hi && hi <= lo
    ensures hi == lo && 2 * a == d * lo && 2 * a1 == d1 * hi
  {
    var dd := d * d1;
    CrossBounds(a, d, lo, a1, d1, hi, dd);
    assert dd >= 1 by { MulMono(1, d, d1); }
    MulLe(dd, hi, lo);
    assert dd * lo == dd * hi;
    CancelMul(lo, hi, dd);
    assert d1 * (2 * a) == d1 * (d * lo);
    CancelMul(2 * a, d * lo, d1);
    assert d * (2 * a1) == d * (d1 * hi);
    CancelMul(2 * a1, d1 * hi, d);
  }

  lemma RoundsOnce(f: Fmt, a: nat, d: nat, b: nat, c: nat)
    requires ValidFmt(f) && d > 0 && RoundsTo(f, a, d, b) && RoundsTo(f, a, d, c)
    ensures b == c
  {
    RoundsMonotone(f, a, d, b, a, d, c);
    RoundsMonotone(f, a, d, c, a, d, b);
  }

  // --- the exponent ---------------------------------------------------------------------------------------

  lemma {:induction false} BitBounds(v: nat)
    requires v > 0
    ensures BitLength(v) >= 1 && Pow2(BitLength(v) - 1) <= v < Pow2(BitLength(v))
  {
    Pow2Small();
    if v > 1 {
      BitBounds(v / 2);
      Pow2Next(BitLength(v / 2));
      Pow2Next(BitLength(v / 2) - 1);
    } else {
      assert BitLength(v / 2) == 0;
    }
  }

  /** The comparison with 2^e, with both sides scaled. */
  lemma PowBelowAt(e: int, n: nat, d: nat, j: nat)
    requires e + j >= 0
    ensures PowBelow(e, n, d) <==> d * Pow2(e + j) <= n * Pow2(j)
  {
    if e >= 0 {
      Pow2Sum(e, j);
      assert d * Pow2(e + j) == (d * Pow2(e)) * Pow2(j);
      ScaleLe(d * Pow2(e), n, Pow2(j));
    } else {
      Pow2Sum(e + j, -e);
      assert n * Pow2(j) == (n * Pow2(-e)) * Pow2(e + j);
      ScaleLe(d, n * Pow2(-e), Pow2(e + j));
    }
  }

  lemma ScaleLe(x: int, y: int, h: int)
    requires h >= 1
    ensures x <= y <==> x * h <= y * h
  {
    if x <= y { MulMono(x, y, h); } else { LessMul(y, x, h); }
  }

  lemma PowBelowLess(e: int, e1: int, n: nat, d: nat)
    requires e <= e1 && PowBelow(e1, n, d)
    ensures PowBelow(e, n, d)
  {
    var j: nat := if e < 0 then -e else 0;
    PowBelowAt(e, n, d, j);
    PowBelowAt(e1, n, d, j);
    Pow2Sum(e1 - e, e + j);
    MulMono(1, Pow2(e1 - e), Pow2(e + j));
    MulLe(d, Pow2(e + j), Pow2(e1 + j));
  }

  lemma TooLong(n: nat, d: nat, bn: nat, bd: nat)
    requires n < Pow2(bn) && bd >= 1 && Pow2(bd - 1) <= d
    ensures n * Pow2(bd) < d * Pow2(bn + 1)
  {
    Pow2Sum(bd - 1, bn + 1);
    Pow2Sum(bn, bd);
    assert (bd - 1) + (bn + 1) == bn + bd;
    MulMono(Pow2(bd - 1), d, Pow2(bn + 1));
    LessMul(n, Pow2(bn), Pow2(bd));
  }

  lemma LongEnough(n: nat, d: nat, bn: nat, bd: nat)
    requires bn >= 1 && Pow2(bn - 1) <= n && d < Pow2(bd)
    ensures d * Pow2(bn) <= n * Pow2(bd + 1)
  {
    Pow2Sum(bd, bn);
    Pow2Sum(bn - 1, bd + 1);
    assert (bn - 1) + (bd + 1) == bd + bn;
    LessMul(d, Pow2(bd), Pow2(bn));
    MulMono(Pow2(bn - 1), n, Pow2(bd + 1));
  }

  lemma NotPastLengths(n: nat, d: nat, bn: nat, bd: nat)
    requires n > 0 && d > 0 && bn == BitLength(n) && bd == BitLength(d)
    ensures !PowBelow(bn - bd + 1, n, d) && PowBelow(bn - bd - 1, n, d)
  {
    NotPast(n, d, bn, bd);
    Past(n, d, bn, bd);
  }

  lemma NotPast(n: nat, d: nat, bn: nat, bd: nat)
    requires n > 0 && d > 0 && bn == BitLength(n) && bd == BitLength(d)
    ensures !PowBelow(bn - bd + 1, n, d)
  {
    BitBounds(n);
    BitBounds(d);
    TooLong(n, d, bn, bd);
    PowBelowAt(bn - bd + 1, n, d, bd);
    assert bn - bd + 1 + bd == bn + 1;
  }

  lemma Past(n: nat, d: nat, bn: nat, bd: nat)
    requires n > 0 && d > 0 && bn == BitLength(n) && bd == BitLength(d)
    ensures PowBelow(bn - bd - 1, n, d)
  {
    BitBounds(n);
    BitBounds(d);
    LongEnough(n, d, bn, bd);
    PowBelowAt(bn - bd - 1, n, d, bd + 1);
    assert bn - bd - 1 + (bd + 1) == bn;
  }

  /** The exponent found is the one of the leading bit. */
  lemma ExponentIs(n: nat, d: nat)
    requires n > 0 && d > 0
    ensures PowBelow(Exponent(n, d), n, d) && !PowBelow(Exponent(n, d) + 1, n, d)
  {
    NotPastLengths(n, d, BitLength(n), BitLength(d));
  }

  // --- the conversion rounds ----------------------------------------------------------------------------------

  lemma NearestFacts(n: nat, d: nat)
    requires d > 0
    ensures var m: int := Nearest(n, d); (2 * m - 1) * d <= 2 * n <= (2 * m + 1) * d
    ensures var m: int := Nearest(n, d); (2 * n == (2 * m - 1) * d || 2 * n == (2 * m + 1) * d) ==> m % 2 == 0
  {
    var q, r := n / d, n % d;
    assert n == q * d + r && 0 <= r < d;
    QuotientRange(n, d);
    var m: int := Nearest(n, d);
    Halves(m, d);
    if m == q + 1 { OneMore(q, d); }
  }

  lemma Halves(m: int, d: int)
    ensures (2 * m - 1) * d == 2 * (m * d) - d && (2 * m + 1) * d == 2 * (m * d) + d
  {}

  /** Comparisons of n1/d1 carry over to a/d, where one is 2^k times the other. */
  lemma Carry(n1: nat, d1: nat, a: nat, d: nat, u: nat, c: int)
    requires d1 > 0 && d > 0 && u > 0 && n1 * (u * d) == a * d1
    ensures c * d1 <= 2 * n1 <==> c * (u * d) <= 2 * a
    ensures c * d1 == 2 * n1 <==> c * (u * d) == 2 * a
  {
    var w := u * d;
    assert w >= 1 by { MulMono(1, u, d); }
    ScaleLe(c * d1, 2 * n1, w);
    ScaleLe(2 * n1, c * d1, w);
    assert (c * d1) * w == (c * w) * d1 && (2 * n1) * w == (2 * a) * d1;
    ScaleLe(c * w, 2 * a, d1);
    ScaleLe(2 * a, c * w, d1);
  }

  /** The scaled quotient is a/d over 2^k, where a is n in units of the smallest subnormal. */
  lemma ScaledIs(n: nat, d: nat, k: nat, units: nat)
    ensures var (n1, d1) := Scaled(n, d, k - units); n1 * (Pow2(k) * d) == (n * Pow2(units)) * d1
  {
    var q := k - units;
    if q >= 0 {
      Pow2Sum(units, q);
      var u, v := Pow2(units), Pow2(q);
      assert n * ((u * v) * d) == (n * u) * (d * v);
    } else {
      Pow2Sum(-q, k);
      var u, v := Pow2(-q), Pow2(k);
      assert (n * u) * (v * d) == (n * (u * v)) * d;
    }
  }

  lemma LeadingBelow(n: nat, d: nat, f: Fmt, k: nat)
    requires ValidFmt(f) && !PowBelow(1 - f.emax + k + 1, n, d)
    ensures n * Pow2(Units(f)) < (2 * Half(f)) * (Pow2(k) * d)
  {
    var s, h, u := Units(f), Half(f), Pow2(k);
    PowBelowAt(1 - f.emax + k + 1, n, d, s);
    Pow2Sum(f.p, k);
    Pow2Next(f.p - 1);
    assert 1 - f.emax + k + 1 + s == f.p + k;
    Regroup(d, h, u);
  }

  lemma Regroup(d: int, h: int, u: int)
    ensures d * ((2 * h) * u) == (2 * h) * (u * d)
  {}

  lemma LeadingAbove(n: nat, d: nat, f: Fmt, k: nat)
    requires ValidFmt(f) && PowBelow(1 - f.emax + k, n, d)
    ensures Half(f) * (Pow2(k) * d) <= n * Pow2(Units(f))
  {
    var s, h, u := Units(f), Half(f), Pow2(k);
    PowBelowAt(1 - f.emax + k, n, d, s);
    Pow2Sum(f.p - 1, k);
    assert 1 - f.emax + k + s == f.p - 1 + k;
    assert d * (h * u) == h * (u * d);
  }

  /** How far the leading bit is above the least normal exponent. */
  function Step(n: nat, d: nat, f: Fmt): nat {
    var e, emin := Exponent(n, d), 1 - f.emax;
    if e > emin then e - emin else 0
  }

  /** The significand has `p` bits, or fewer only where no step is left. */
  lemma Leading(n: nat, d: nat, f: Fmt)
    requires ValidFmt(f) && n > 0 && d > 0
    ensures var k := Step(n, d, f);
            n * Pow2(Units(f)) < (2 * Half(f)) * (Pow2(k) * d)
                && (k > 0 ==> Half(f) * (Pow2(k) * d) <= n * Pow2(Units(f)))
  {
    var k, e := Step(n, d, f), Exponent(n, d);
    ExponentIs(n, d);
    if PowBelow(1 - f.emax + k + 1, n, d) { PowBelowLess(e + 1, 1 - f.emax + k + 1, n, d); }
    LeadingBelow(n, d, f, k);
    if k > 0 { LeadingAbove(n, d, f, k); }
  }

  // --- what the conversion computes, in units ----------------------------------------------------------------

  /** The rounded significand of n/d. */
  function Mantissa(n: nat, d: nat, f: Fmt): nat
    requires ValidFmt(f) && d > 0
  {
    var (a, b) := Scaled(n, d, Step(n, d, f) - Units(f));
    ScaledPositive(n, d, Step(n, d, f) - Units(f));
    Nearest(a, b)
  }

  lemma RefIs(n: nat, d: nat, f: Fmt)
    requires ValidFmt(f) && n > 0 && d > 0
    ensures var k, m := Step(n, d, f), Mantissa(n, d, f);
            RefOf(n, d, f) == if m == 0 then (0, Underflow)
                              else if k * Half(f) + m >= Infinity(f) then (Infinity(f), Overflow)
                              else (k * Half(f) + m, Finite)
  {
    var k, m, h := Step(n, d, f), Mantissa(n, d, f), Half(f);
    var bits := k * h + m;
    FloorAtLeast(bits, h, 2 * f.emax + 1);
  }

  lemma FloorAtLeast(x: int, h: int, c: int)
    requires h >= 1
    ensures x / h >= c <==> x >= c * h
  {
    assert x == (x / h) * h + x % h;
    if x / h >= c { MulMono(c, x / h, h); }
    else { MulMono(x / h + 1, c, h); assert (x / h + 1) * h == (x / h) * h + h; }
  }

  /** The significand against a, in units: within half a step, and even at the half. */
  lemma MantissaFacts(n: nat, d: nat, f: Fmt)
    requires ValidFmt(f) && n > 0 && d > 0
    ensures var a, m: int, w := n * Pow2(Units(f)), Mantissa(n, d, f), Pow2(Step(n, d, f)) * d;
            && (2 * m - 1) * w <= 2 * a <= (2 * m + 1) * w
            && (2 * a == (2 * m - 1) * w || 2 * a == (2 * m + 1) * w ==> m % 2 == 0)
  {
    var k := Step(n, d, f);
    var (n1, d1) := Scaled(n, d, k - Units(f));
    ScaledPositive(n, d, k - Units(f));
    ScaledIs(n, d, k, Units(f));
    NearestFacts(n1, d1);
    var a, m: int := n * Pow2(Units(f)), Nearest(n1, d1);
    Carry(n1, d1, a, d, Pow2(k), 2 * m - 1);
    Carry(n1, d1, a, d, Pow2(k), 2 * m + 1);
    CarryUp(n1, d1, a, d, Pow2(k), 2 * m + 1);
  }

  lemma CarryUp(n1: nat, d1: nat, a: nat, d: nat, u: nat, c: int)
    requires d1 > 0 && d > 0 && u > 0 && n1 * (u * d) == a * d1 && 2 * n1 <= c * d1
    ensures 2 * a <= c * (u * d)
  {
    Carry(n1, d1, a, d, u, c);
    if 2 * n1 == c * d1 {
    } else if c * (u * d) < 2 * a {
    }
  }

  /** The significand's bounds: at most 2^p, and at least 2^(p-1) above the least exponent. */
  lemma MantissaRange(n: nat, d: nat, f: Fmt)
    requires ValidFmt(f) && n > 0 && d > 0
    ensures Mantissa(n, d, f) <= 2 * Half(f) && (Step(n, d, f) > 0 ==> Half(f) <= Mantissa(n, d, f))
  {
    var a, m: int, w, h := n * Pow2(Units(f)), Mantissa(n, d, f), Pow2(Step(n, d, f)) * d, Half(f);
    MantissaFacts(n, d, f);
    Leading(n, d, f);
    assert w >= 1 by { MulMono(1, Pow2(Step(n, d, f)), d); }
    Bounded(m, h, w, a);
    if Step(n, d, f) > 0 { BoundedBelow(m, h, w, a); }
  }

  lemma Bounded(m: int, h: int, w: int, a: int)
    requires w >= 1 && (2 * m - 1) * w <= 2 * a && a < (2 * h) * w
    ensures m <= 2 * h
  {
    ScaleLe(4 * h, 2 * m - 1, w);
    assert (4 * h) * w == 2 * ((2 * h) * w);
  }

  lemma BoundedBelow(m: int, h: int, w: int, a: int)
    requires w >= 1 && 2 * a <= (2 * m + 1) * w && h * w <= a
    ensures h <= m
  {
    ScaleLe(2 * h, 2 * m + 1, w);
    assert (2 * h) * w == 2 * (h * w);
  }

  // --- the main result ------------------------------------------------------------------------------------------

  /** A significand of `p` bits, or 2^p itself, and its neighbours. */
  lemma Neighbours(f: Fmt, k: nat, m: nat)
    requires ValidFmt(f) && m <= 2 * Half(f) && (k > 0 ==> Half(f) <= m)
    ensures ValueOf(f, k * Half(f) + m) == m * Pow2(k)
    ensures m < 2 * Half(f) ==> ValueOf(f, k * Half(f) + m + 1) == (m + 1) * Pow2(k)
    ensures m > Half(f) || (k == 0 && m > 0) ==> ValueOf(f, k * Half(f) + m - 1) == (m - 1) * Pow2(k)
  {
    var h, u := Half(f), Pow2(k);
    var b := k * h + m;
    if m < 2 * h {
      Parts(f, b, k, m);
      NextValue(f, b);
      assert (m + 1) * u == m * u + u;
    } else {
      assert b == (k + 1) * h + h;
      Parts(f, b, k + 1, h);
      Pow2Next(k);
      assert h * (2 * u) == (2 * h) * u;
    }
    if m > h || (k == 0 && m > 0) { Parts(f, b - 1, k, m - 1); }
  }

  /** Below 2^(p-1) steps, an encoding has its significand's parity. */
  lemma Parity(f: Fmt, k: nat, m: nat)
    requires ValidFmt(f)
    ensures (k * Half(f) + m) % 2 == m % 2
  {
    Pow2Next(f.p - 2);
    assert k * Half(f) == 2 * (k * Pow2(f.p - 2));
  }

  /** The rounded significand, before overflow is looked at, satisfies both half-way conditions. */
  lemma HalvesHold(n: nat, d: nat, f: Fmt)
    requires ValidFmt(f) && n > 0 && d > 0
    ensures var a, b := n * Pow2(Units(f)), Step(n, d, f) * Half(f) + Mantissa(n, d, f);
            b >= 0 && AboveLow(f, a, d, b) && (b == Infinity(f) || BelowHigh(f, a, d, b))
  {
    var k, m := Step(n, d, f), Mantissa(n, d, f);
    MantissaFacts(n, d, f);
    MantissaRange(n, d, f);
    Leading(n, d, f);
    MulLowerNat(k, Half(f));
    HalvesAt(f, n * Pow2(Units(f)), d, k * Half(f) + m, k, m, Pow2(k) * d);
  }

  lemma HalvesAt(f: Fmt, a: nat, d: nat, b: nat, k: nat, m: nat, w: nat)
    requires ValidFmt(f) && d > 0 && b == k * Half(f) + m && m <= 2 * Half(f) && (k > 0 ==> Half(f) <= m)
             && w == Pow2(k) * d
    requires (2 * (m as int) - 1) * w <= 2 * a <= (2 * m + 1) * w
    requires 2 * a == (2 * (m as int) - 1) * w || 2 * a == (2 * m + 1) * w ==> m % 2 == 0
    requires a < (2 * Half(f)) * w && (k > 0 ==> Half(f) * w <= a)
    ensures AboveLow(f, a, d, b) && (b == Infinity(f) || BelowHigh(f, a, d, b))
  {
    AboveLowHolds(f, a, d, b, k, m);
    BelowHighHolds(f, a, d, b, k, m);
  }

  lemma SumOfTwo(m: int, u: int, d: int)
    ensures d * (m * u + (m + 1) * u) == (2 * m + 1) * (u * d)
  {
    assert m * u + (m + 1) * u == (2 * m + 1) * u;
  }

  lemma TwoBelow(v0: int, v: int, h: int, u: int, d: nat)
    requires v0 < v == h * u && d > 0
    ensures d * (v0 + v) < 2 * (h * (u * d))
  {
    MulLe(d, v0 + v, 2 * v);
    assert d * (2 * (h * u)) == 2 * (h * (u * d));
  }

  lemma TwoAbove(v: int, v1: int, h: int, u: int, d: nat)
    requires v < v1 && v == h * u
    ensures 2 * (h * (u * d)) <= d * (v + v1)
  {
    MulLe(d, 2 * v, v + v1);
    assert d * (2 * (h * u)) == 2 * (h * (u * d));
  }

  lemma AboveLowHolds(f: Fmt, a: nat, d: nat, b: nat, k: nat, m: nat)
    requires ValidFmt(f) && d > 0 && b == k * Half(f) + m && m <= 2 * Half(f) && (k > 0 ==> Half(f) <= m)
    requires (2 * (m as int) - 1) * (Pow2(k) * d) <= 2 * a
             && (2 * a == (2 * (m as int) - 1) * (Pow2(k) * d) ==> m % 2 == 0)
    requires k > 0 ==> Half(f) * (Pow2(k) * d) <= a
    ensures AboveLow(f, a, d, b)
  {
    var h, u := Half(f), Pow2(k);
    Neighbours(f, k, m);
    Parity(f, k, m);
    if b == 0 {
    } else if m > h || k == 0 {
      assert m > 0;
      SumOfTwo(m - 1, u, d);
    } else {
      // the least significand of its exponent: a is no less than the value itself
      ValuesRise(f, b - 1, b);
      TwoBelow(ValueOf(f, b - 1), ValueOf(f, b), h, u, d);
    }
  }

  lemma BelowHighHolds(f: Fmt, a: nat, d: nat, b: nat, k: nat, m: nat)
    requires ValidFmt(f) && d > 0 && b == k * Half(f) + m && m <= 2 * Half(f) && (k > 0 ==> Half(f) <= m)
    requires 2 * a <= (2 * m + 1) * (Pow2(k) * d) && (2 * a == (2 * m + 1) * (Pow2(k) * d) ==> m % 2 == 0)
    requires a < (2 * Half(f)) * (Pow2(k) * d)
    ensures BelowHigh(f, a, d, b)
  {
    var h, u := Half(f), Pow2(k);
    Neighbours(f, k, m);
    Parity(f, k, m);
    if m < 2 * h {
      SumOfTwo(m, u, d);
    } else {
      // the carry into the next exponent: a is below the value itself
      ValuesRise(f, b, b + 1);
      TwoAbove(ValueOf(f, b), ValueOf(f, b + 1), 2 * h, u, d);
    }
  }

  /** An encoding past infinity's place has infinity as its rounding. */
  lemma PastInfinity(f: Fmt, a: nat, d: nat, b: nat)
    requires ValidFmt(f) && d > 0 && b >= Infinity(f) && AboveLow(f, a, d, b)
    ensures RoundsTo(f, a, d, Infinity(f))
  {
    var top := Infinity(f);
    assert top >= 1 by { MulMono(1, 2 * f.emax + 1, Half(f)); }
    if b > top {
      MidsRise(f, top - 1, b);
      MulLe(d, ValueOf(f, top - 1) + ValueOf(f, top), ValueOf(f, b - 1) + ValueOf(f, b));
    }
  }

  /** The conversion of n/d is its rounding to nearest, ties to even; the flag says when that is infinity, and
      when it is zero. */
  lemma RefRounds(n: nat, d: nat, f: Fmt)
    requires ValidFmt(f) && n > 0 && d > 0
    ensures var a, (b, flag) := n * Pow2(Units(f)), RefOf(n, d, f);
            && RoundsTo(f, a, d, b)
            && (flag.Overflow? <==> b == Infinity(f)) && (flag.Underflow? <==> b == 0)
  {
    var k, m, b := RefShape(n, d, f);
    HalvesHold(n, d, f);
    RefCases(f, n * Pow2(Units(f)), d, k, m, b, RefOf(n, d, f));
  }

  lemma RefShape(n: nat, d: nat, f: Fmt) returns (k: nat, m: nat, b: nat)
    requires ValidFmt(f) && n > 0 && d > 0
    ensures b == Step(n, d, f) * Half(f) + Mantissa(n, d, f)
    ensures b >= m && (k == 0 ==> b == m) && (k > 0 ==> m > 0)
    ensures RefOf(n, d, f) == if m == 0 then (0, Underflow) else if b >= Infinity(f) then (Infinity(f), Overflow)
            else (b, Finite)
  {
    k, m := Step(n, d, f), Mantissa(n, d, f);
    RefIs(n, d, f);
    MantissaRange(n, d, f);
    MulLowerNat(k, Half(f));
    b := k * Half(f) + m;
  }

  /** The three outcomes: rounded to zero, past the largest finite value, or in between. */
  lemma RefCases(f: Fmt, a: nat, d: nat, k: nat, m: nat, b: nat, r: (nat, Flag))
    requires ValidFmt(f) && d > 0 && b >= m && (k == 0 ==> b == m) && (k > 0 ==> m > 0)
    requires AboveLow(f, a, d, b) && (b == Infinity(f) || BelowHigh(f, a, d, b))
    requires r == if m == 0 then (0, Underflow) else if b >= Infinity(f) then (Infinity(f), Overflow) else (b, Finite)
    ensures RoundsTo(f, a, d, r.0)
    ensures (r.1.Overflow? <==> r.0 == Infinity(f)) && (r.1.Underflow? <==> r.0 == 0)
  {
    assert Infinity(f) >= 1 by { MulMono(1, 2 * f.emax + 1, Half(f)); }
    if m > 0 && b >= Infinity(f) {
      PastInfinity(f, a, d, b);
    }
  }

  // --- what that means -------------------------------------------------------------------------------------------

  lemma ValueZero(f: Fmt)
    requires ValidFmt(f)
    ensures ValueOf(f, 0) == 0 && ValueOf(f, 1) == 1
  {
    Pow2Small();
    Pow2Next(f.p - 2);
    Parts(f, 0, 0, 0);
    Parts(f, 1, 0, 1);
  }

  /** A point no further than half-way from x towards y, or towards something nearer, is no closer to y. */
  lemma Halfway(a: int, x: int, y0: int, y: int)
    requires (x < y0 <= y && 2 * a <= x + y0) || (y <= y0 < x && y0 + x <= 2 * a)
    ensures AbsDiff(a, x) <= AbsDiff(a, y) && (AbsDiff(a, x) == AbsDiff(a, y) ==> 2 * a == x + y0)
  {}

  /** No value of the format is closer to a finite result, infinity's place counted in; as close only if the
      result is even. */
  lemma NoneCloser(f: Fmt, a: nat, d: nat, b: nat, c: nat)
    requires ValidFmt(f) && d > 0 && RoundsTo(f, a, d, b) && b < Infinity(f) && c != b
    ensures AbsDiff(a, d * ValueOf(f, b)) < AbsDiff(a, d * ValueOf(f, c))
         || (AbsDiff(a, d * ValueOf(f, b)) == AbsDiff(a, d * ValueOf(f, c)) && b % 2 == 0)
  {
    var v, w := ValueOf(f, b), ValueOf(f, c);
    var v1 := if b < c then ValueOf(f, b + 1) else ValueOf(f, b - 1);
    if b < c {
      ValuesRise(f, b, b + 1);
      ValuesRise(f, b + 1, c);
      Distributed(d, v, v1);
      MulLe(d, v, v1);
      MulLe(d, v1, w);
    } else {
      ValuesRise(f, b - 1, b);
      ValuesRise(f, c, b - 1);
      Distributed(d, v1, v);
      MulLe(d, v1, v);
      MulLe(d, w, v1);
    }
    Halfway(a, d * v, d * v1, d * w);
  }

  lemma Distributed(d: int, x: int, y: int)
    ensures d * (x + y) == d * x + d * y
  {}

  lemma RefNotLess(n: nat, d: nat, n1: nat, d1: nat, f: Fmt)
    requires ValidFmt(f) && n > 0 && d > 0 && n1 > 0 && d1 > 0 && n * d1 <= n1 * d
    ensures RefOf(n, d, f).0 <= RefOf(n1, d1, f).0
  {
    var u := Pow2(Units(f));
    RefRounds(n, d, f);
    RefRounds(n1, d1, f);
    UnitsScale(n, d, n1, d1, u);
    RoundsMonotone(f, n * u, d, RefOf(n, d, f).0, n1 * u, d1, RefOf(n1, d1, f).0);
  }

  lemma UnitsScale(n: nat, d: nat, n1: nat, d1: nat, u: nat)
    requires n * d1 <= n1 * d
    ensures (n * u) * d1 <= (n1 * u) * d
  {
    MulMono(n * d1, n1 * d, u);
    assert (n * u) * d1 == (n * d1) * u && (n1 * u) * d == (n1 * d) * u;
  }

  /** A larger number never converts to a smaller encoding; equal numbers, however written, convert alike. */
  lemma RefMonotone(n: nat, d: nat, n1: nat, d1: nat, f: Fmt)
    requires ValidFmt(f) && n > 0 && d > 0 && n1 > 0 && d1 > 0
    ensures n * d1 <= n1 * d ==> RefOf(n, d, f).0 <= RefOf(n1, d1, f).0
    ensures n * d1 == n1 * d ==> RefOf(n, d, f) == RefOf(n1, d1, f)
  {
    if n * d1 <= n1 * d { RefNotLess(n, d, n1, d1, f); }
    if n * d1 == n1 * d {
      RefNotLess(n1, d1, n, d, f);
      RefRounds(n, d, f);
      RefRounds(n1, d1, f);
    }
  }

  /** The flags: overflow from half-way between the largest finite value and 2^(emax+1), underflow up to half
      the smallest value. */
  lemma Flags(n: nat, d: nat, f: Fmt)
    requires ValidFmt(f) && n > 0 && d > 0
    ensures var a, top := n * Pow2(Units(f)), Infinity(f);
            && top > 0 && (RefOf(n, d, f).1.Overflow? <==> 2 * a >= d * (ValueOf(f, top - 1) + ValueOf(f, top)))
            && (RefOf(n, d, f).1.Underflow? <==> 2 * a <= d)
  {
    RefRounds(n, d, f);
    Ends(f, n * Pow2(Units(f)), d, RefOf(n, d, f).0);
  }

  lemma Ends(f: Fmt, a: nat, d: nat, b: nat)
    requires ValidFmt(f) && d > 0 && RoundsTo(f, a, d, b)
    ensures Infinity(f) > 0 && (b == Infinity(f)
            <==> 2 * a >= d * (ValueOf(f, Infinity(f) - 1) + ValueOf(f, Infinity(f))))
    ensures b == 0 <==> 2 * a <= d
  {
    ValueZero(f);
    TopEven(f);
    if 2 * a >= d * (ValueOf(f, Infinity(f) - 1) + ValueOf(f, Infinity(f))) { OnlyTop(f, a, d, b); }
    if 2 * a <= d { OnlyZero(f, a, d, b); }
  }

  lemma TopEven(f: Fmt)
    requires ValidFmt(f)
    ensures Infinity(f) >= 2 && Infinity(f) % 2 == 0
  {
    Pow2Next(f.p - 2);
    assert Infinity(f) == 2 * ((2 * f.emax + 1) * Pow2(f.p - 2));
    MulMono(1, 2 * f.emax + 1, Pow2(f.p - 2));
  }

  /** What is at or above the last half-way point does not round below infinity. */
  lemma OnlyTop(f: Fmt, a: nat, d: nat, b: nat)
    requires ValidFmt(f) && d > 0 && RoundsTo(f, a, d, b)
    requires Infinity(f) > 0 && 2 * a >= d * (ValueOf(f, Infinity(f) - 1) + ValueOf(f, Infinity(f)))
    ensures b == Infinity(f)
  {
    TopEven(f);
    assert RoundsTo(f, a, d, Infinity(f));
    RoundsOnce(f, a, d, b, Infinity(f));
  }

  lemma OnlyZero(f: Fmt, a: nat, d: nat, b: nat)
    requires ValidFmt(f) && d > 0 && RoundsTo(f, a, d, b) && 2 * a <= d
    ensures b == 0
  {
    TopEven(f);
    ValueZero(f);
    assert RoundsTo(f, a, d, 0);
    RoundsOnce(f, a, d, b, 0);
  }
}
