/** Decimal texts: what they denote, how the conversion reads them, and the exact texts around every half-way point. */
module Decimals {
  import opened Words
  import opened Rounding

  type Digit = d: int | 0 <= d < 10 witness 0

  /** A literal's body: digits, the digits after the point, and a power of ten. */
  datatype Text = Text(whole: seq<Digit>, frac: seq<Digit>, ex: int)

  function Number(ds: seq<Digit>): nat {
    if ds == [] then 0 else 10 * Number(ds[..|ds| - 1]) + ds[|ds| - 1]
  }

  /** 10^n. */
  function Tens(n: nat): (t: int)
    ensures t >= 1
  {
    Tenfold(seq(n, _ => ()))
  }

  function Tenfold(s: seq<()>): (t: int)
    ensures t >= 1
  {
    if s == [] then 1 else 10 * Tenfold(s[1..])
  }

  lemma TensNext(n: nat)
    ensures Tens(0) == 1 && Tens(n + 1) == 10 * Tens(n)
  {
    assert seq(n + 1, _ => ())[1..] == seq(n, _ => ());
  }

  lemma {:induction false} TensSum(a: nat, b: nat)
    ensures Tens(a + b) == Tens(a) * Tens(b)
  {
    TensNext(0);
    if a > 0 {
      TensSum(a - 1, b);
      TensNext(a - 1);
      TensNext(a - 1 + b);
      assert Tens(a) * Tens(b) == 10 * (Tens(a - 1) * Tens(b));
    }
  }

  function Unstripped(ds: seq<Digit>): seq<Digit> {
    if ds != [] && ds[0] == 0 then Unstripped(ds[1..]) else ds
  }

  /** The rational a text denotes, as a numerator and a denominator. */
  function Fraction(t: Text): (nat, nat) {
    var n, k := Number(t.whole + t.frac), t.ex - |t.frac|;
    if k >= 0 then (n * Tens(k), 1) else (n, Tens(-k))
  }

  const FAR: int := 400

  /** The conversion of a text. Exponents no format reaches are answered without building the number. */
  function Ref(t: Text, f: Fmt): (nat, Flag)
    requires ValidFmt(f)
  {
    var all := t.whole + t.frac;
    var digs := Unstripped(all);
    if digs == [] then (0, Finite)
    else
      var mag := |t.whole| - (|all| - |digs|) + t.ex;
      if mag > FAR then (Infinity(f), Overflow)
      else if mag < -FAR then (0, Underflow)
      else
        FractionPositive(t);
        RefOf(Fraction(t).0, Fraction(t).1, f)
  }

  // --- digits ---------------------------------------------------------------------------------

  lemma {:induction false} StripSame(ds: seq<Digit>)
    ensures Number(Unstripped(ds)) == Number(ds) && |Unstripped(ds)| <= |ds|
            && (Unstripped(ds) != [] ==> Unstripped(ds)[0] != 0)
  {
    if ds != [] && ds[0] == 0 {
      StripSame(ds[1..]);
      ZeroFirst(ds);
    }
  }

  lemma {:induction false} ZeroFirst(ds: seq<Digit>)
    requires ds != [] && ds[0] == 0
    ensures Number(ds) == Number(ds[1..])
    decreases |ds|
  {
    if |ds| > 1 {
      var k := |ds| - 1;
      ZeroFirst(ds[..k]);
      assert ds[1..][..k - 1] == ds[..k][1..];
    }
  }

  lemma {:induction false} NumberBounds(ds: seq<Digit>)
    ensures Number(ds) < Tens(|ds|) && (ds != [] && ds[0] != 0 ==> Tens(|ds| - 1) <= Number(ds))
    decreases |ds|
  {
    TensNext(0);
    if ds != [] {
      NumberBounds(ds[..|ds| - 1]);
      TensNext(|ds| - 1);
      if |ds| > 1 { TensNext(|ds| - 2); }
    }
  }

  lemma FractionPositive(t: Text)
    requires Unstripped(t.whole + t.frac) != []
    ensures Fraction(t).0 > 0 && Fraction(t).1 > 0
  {
    var all := t.whole + t.frac;
    StripSame(all);
    NumberBounds(Unstripped(all));
    var k := t.ex - |t.frac|;
    if k >= 0 { MulMono(1, Number(all), Tens(k)); }
  }

  // --- the shortcuts -----------------------------------------------------------------------------

  /** The formats the shortcuts serve: nothing of theirs is past 2^1024 or under 2^-1075. */
  predicate Covered(f: Fmt) {
    ValidFmt(f) && f.emax <= 1023 && Units(f) <= 1074
  }

  lemma BothCovered()
    ensures Covered(FMT32) && Covered(FMT64)
  {}

  lemma {:induction false} ThousandsPass(k: nat)
    ensures Tens(3 * k) >= Pow2(9 * k)
  {
    TensNext(0);
    Pow2Small();
    if k > 0 {
      var j := k - 1;
      ThousandsPass(j);
      TensNext(3 * j); TensNext(3 * j + 1); TensNext(3 * j + 2);
      Pow2Sum(9 * j, 9);
      Pow2Next(8);
      assert Pow2(9) == 512;
      assert 9 * j + 9 == 9 * k && 3 * j + 3 == 3 * k;
      MulMono(512, 1000, Tens(3 * j));
      MulMono(Pow2(9 * j), Tens(3 * j), 512);
    }
  }

  /** 10^400 is past every power of two a covered format needs. */
  lemma FarPast(n: nat, e: nat)
    requires n >= 400 && e <= 1075
    ensures Tens(n) >= Pow2(e)
  {
    var k: nat := 133;
    ThousandsPass(k);
    TensSum(n - 3 * k, 3 * k);
    MulMono(1, Tens(n - 3 * k), Tens(3 * k));
    Pow2Sum(9 * k - e, e);
    MulMono(1, Pow2(9 * k - e), Pow2(e));
  }

  /** Where the first digit stands: 10^(mag-1) <= x < 10^mag. */
  function Magnitude(t: Text): int {
    |Unstripped(t.whole + t.frac)| + t.ex - |t.frac|
  }

  lemma MagnitudeBounds(t: Text, far: nat)
    requires Unstripped(t.whole + t.frac) != []
    ensures Magnitude(t) - 1 >= far ==> Tens(far) * Fraction(t).1 <= Fraction(t).0
    ensures Magnitude(t) + far <= 0 ==> Fraction(t).0 * Tens(far) <= Fraction(t).1
  {
    var digs, k := Unstripped(t.whole + t.frac), t.ex - |t.frac|;
    var n := Number(t.whole + t.frac);
    StripSame(t.whole + t.frac);
    NumberBounds(digs);
    TensNext(0);
    if Magnitude(t) - 1 >= far {
      if k >= 0 {
        TensSum(|digs| - 1, k);
        TensLess(far, |digs| - 1 + k);
        MulMono(Tens(|digs| - 1), n, Tens(k));
      } else {
        TensSum(far, -k);
        TensLess(far + -k, |digs| - 1);
      }
    }
    if Magnitude(t) + far <= 0 {
      TensSum(|digs|, far);
      TensLess(|digs| + far, -k);
      MulMono(n, Tens(|digs|), Tens(far));
    }
  }

  lemma TensLess(a: nat, b: nat)
    requires a <= b
    ensures Tens(a) <= Tens(b)
  {
    TensSum(b - a, a);
    MulMono(1, Tens(b - a), Tens(a));
  }

  /** Infinity's place is 2^(emax+1), in units. */
  lemma TopValue(f: Fmt)
    requires ValidFmt(f)
    ensures ValueOf(f, Infinity(f)) == Pow2(f.emax + 1) * Pow2(Units(f))
  {
    var h := Half(f);
    assert Infinity(f) == (2 * f.emax) * h + h;
    Parts(f, Infinity(f), 2 * f.emax, h);
    Pow2Sum(f.p - 1, 2 * f.emax);
    Pow2Sum(f.emax + 1, Units(f));
    assert f.p - 1 + 2 * f.emax == f.emax + 1 + Units(f);
  }

  lemma TopCross(n: nat, d: nat, e: int, u: nat, v0: int, v: int)
    requires d * e <= n && v == e * u && v0 <= v
    ensures 2 * (n * u) >= d * (v0 + v)
  {
    MulMono(d * e, n, u);
    assert (d * e) * u == d * v;
    MulLe(d, v0 + v, 2 * v);
    assert d * (2 * v) == 2 * (d * v);
  }

  lemma FarIsInfinite(n: nat, d: nat, f: Fmt)
    requires Covered(f) && n > 0 && d > 0 && d * Pow2(f.emax + 1) <= n
    ensures RefOf(n, d, f) == (Infinity(f), Overflow)
  {
    RefRounds(n, d, f);
    Flags(n, d, f);
    TopValue(f);
    ValuesRise(f, Infinity(f) - 1, Infinity(f));
    TopCross(n, d, Pow2(f.emax + 1), Pow2(Units(f)), ValueOf(f, Infinity(f) - 1), ValueOf(f, Infinity(f)));
  }

  lemma NearIsZero(n: nat, d: nat, f: Fmt)
    requires Covered(f) && n > 0 && d > 0 && n * Pow2(Units(f) + 1) <= d
    ensures RefOf(n, d, f) == (0, Underflow)
  {
    RefRounds(n, d, f);
    Flags(n, d, f);
    Pow2Next(Units(f));
    Twice(n, Pow2(Units(f)));
  }

  lemma Twice(n: int, u: int)
    ensures n * (2 * u) == 2 * (n * u)
  {}

  /** The answers given without building the number are those of the full computation. */
  lemma ShortcutsAgree(t: Text, f: Fmt)
    requires Covered(f) && Unstripped(t.whole + t.frac) != []
    ensures Fraction(t).0 > 0 && Fraction(t).1 > 0 && Ref(t, f) == RefOf(Fraction(t).0, Fraction(t).1, f)
  {
    var (n, d) := Fraction(t);
    FractionPositive(t);
    assert |t.whole| - (|t.whole + t.frac| - |Unstripped(t.whole + t.frac)|) + t.ex == Magnitude(t);
    if Magnitude(t) > FAR {
      MagnitudeBounds(t, FAR);
      FarPast(FAR, f.emax + 1);
      MulLe(d, Pow2(f.emax + 1), Tens(FAR));
      FarIsInfinite(n, d, f);
    } else if Magnitude(t) < -FAR {
      MagnitudeBounds(t, FAR);
      FarPast(FAR, Units(f) + 1);
      MulLe(n, Pow2(Units(f) + 1), Tens(FAR));
      NearIsZero(n, d, f);
    }
  }

  /** So for both formats the program has. */
  lemma BothAgree(t: Text)
    requires Unstripped(t.whole + t.frac) != []
    ensures var (n, d) := Fraction(t);
            n > 0 && d > 0 && Ref(t, FMT32) == RefOf(n, d, FMT32) && Ref(t, FMT64) == RefOf(n, d, FMT64)
  {
    BothCovered();
    ShortcutsAgree(t, FMT32);
    ShortcutsAgree(t, FMT64);
  }

  // --- exact texts ---------------------------------------------------------------------------------

  /** A number in decimal. */
  function Digits(v: nat): (ds: seq<Digit>)
    ensures ds != []
  {
    if v < 10 then [v] else Digits(v / 10) + [v % 10]
  }

  lemma {:induction false} DigitsRead(v: nat)
    ensures Number(Digits(v)) == v
  {
    if v >= 10 {
      var ds := Digits(v / 10) + [v % 10];
      DigitsRead(v / 10);
      assert ds[..|ds| - 1] == Digits(v / 10);
    } else {
      assert [v][..0] == [];
    }
  }

  function Zeros(n: nat): (z: seq<Digit>)
    ensures |z| == n
  {
    seq(n, _ => 0)
  }

  /** The digits of `v`, at least `k + 1` of them. */
  function Padded(v: nat, k: nat): (ds: seq<Digit>)
    ensures |ds| > k
  {
    var s := Digits(v);
    if |s| <= k then Zeros(k - |s| + 1) + s else s
  }

  lemma {:induction false} ZerosAdd(n: nat, ds: seq<Digit>)
    ensures Number(Zeros(n) + ds) == Number(ds)
    decreases n
  {
    if n == 0 {
      assert Zeros(0) + ds == ds;
    } else {
      var all := Zeros(n) + ds;
      assert all[1..] == Zeros(n - 1) + ds;
      ZeroFirst(all);
      ZerosAdd(n - 1, ds);
    }
  }

  lemma PaddedRead(v: nat, k: nat)
    ensures Number(Padded(v, k)) == v
  {
    DigitsRead(v);
    if |Digits(v)| <= k { ZerosAdd(k - |Digits(v)| + 1, Digits(v)); }
  }

  /** `v` with its last `k` digits after the point. */
  function Pointed(v: nat, k: nat): Text {
    var s := Padded(v, k);
    Text(s[..|s| - k], s[|s| - k..], 0)
  }

  lemma PointedRead(v: nat, k: nat)
    ensures |Pointed(v, k).frac| == k && Number(Pointed(v, k).whole + Pointed(v, k).frac) == v
  {
    var s := Padded(v, k);
    PaddedRead(v, k);
    assert s[..|s| - k] + s[|s| - k..] == s;
  }

  /** 5^k. */
  function Fives(k: nat): (t: int)
    ensures t >= 1
  {
    if k == 0 then 1 else 5 * Fives(k - 1)
  }

  lemma {:induction false} FivesTwos(k: nat)
    ensures Fives(k) * Pow2(k) == Tens(k)
  {
    TensNext(0);
    Pow2Small();
    if k > 0 {
      FivesTwos(k - 1);
      Pow2Next(k - 1);
      TensNext(k - 1);
      assert (5 * Fives(k - 1)) * (2 * Pow2(k - 1)) == 10 * (Fives(k - 1) * Pow2(k - 1));
    }
  }

  /** A fraction over 2^k in lowest terms. */
  function Reduced(n: nat, k: nat): (nat, nat)
    decreases k
  {
    if k > 0 && n % 2 == 0 then Reduced(n / 2, k - 1) else (n, k)
  }

  /** The exact decimal expansion of n / 2^k, in lowest terms. */
  function Dyadic(n: nat, k: nat): Text {
    if k == 0 then Text(Digits(n), [0], 0) else MulLowerNat(n, Fives(k)); Pointed(n * Fives(k), k)
  }

  /** A text with a fraction, `delta` units of its last place on. */
  function Nudge(t: Text, delta: int): Text
    requires Number(t.whole + t.frac) + delta > 0
  {
    Pointed(Number(t.whole + t.frac) + delta, |t.frac|)
  }

  /** The text printed denotes exactly the rational it was printed from. */
  lemma DyadicReads(n: nat, k: nat)
    ensures var t := Dyadic(n, k);
            && t.ex == 0 && |t.frac| == (if k == 0 then 1 else k)
            && Number(t.whole + t.frac) * Pow2(k) == n * Tens(|t.frac|)
  {
    Pow2Small();
    TensNext(0);
    if k == 0 {
      var ds := Digits(n) + [0];
      DigitsRead(n);
      assert ds[..|ds| - 1] == Digits(n);
    } else {
      PointedRead(n * Fives(k), k);
      FivesTwos(k);
      Regroup(n, Fives(k), Pow2(k));
    }
  }

  lemma Regroup(a: int, b: int, c: int)
    ensures (a * b) * c == a * (b * c)
  {}

  lemma NudgeReads(t: Text, delta: int)
    requires Number(t.whole + t.frac) + delta > 0
    ensures var t1 := Nudge(t, delta);
            t1.ex == 0 && |t1.frac| == |t.frac| && Number(t1.whole + t1.frac) == Number(t.whole + t.frac) + delta
  {
    PointedRead(Number(t.whole + t.frac) + delta, |t.frac|);
  }

  // --- the half-way points ------------------------------------------------------------------------------

  lemma Doubling(a: int, b: int)
    ensures a * (2 * b) == 2 * (a * b) && (2 * b) * a == 2 * (b * a)
  {}

  lemma {:induction false} ReducedIs(n: nat, k: nat, s: nat, odd: nat)
    requires n == odd * Pow2(s) && odd % 2 == 1
    ensures var (m, j) := Reduced(n, k); j == (if s < k then k - s else 0) && m * Pow2(k) == n * Pow2(j)
    decreases k
  {
    Pow2Small();
    if s > 0 { Pow2Next(s - 1); }
    if k > 0 && n % 2 == 0 {
      assert s > 0;
      Doubling(odd, Pow2(s - 1));
      ReducedIs(n / 2, k - 1, s - 1, odd);
      var (m, j) := Reduced(n / 2, k - 1);
      Pow2Next(k - 1);
      Doubling(m, Pow2(k - 1));
      Doubling(Pow2(j), n / 2);
    } else if k > 0 && s > 0 {
      EvenMultiple(odd, s);
    }
  }

  lemma EvenMultiple(x: nat, s: nat)
    requires s > 0
    ensures (x * Pow2(s)) % 2 == 0
  {
    Pow2Next(s - 1);
    assert x * (2 * Pow2(s - 1)) == 2 * (x * Pow2(s - 1));
  }

  /** Twice the point half-way between an encoding's value and the next. */
  function MidOf(f: Fmt, b: nat): nat
    requires ValidFmt(f)
  {
    ValuesPositive(f, b);
    ValueOf(f, b) + ValueOf(f, b + 1)
  }

  lemma ValuesPositive(f: Fmt, b: nat)
    requires ValidFmt(f)
    ensures ValueOf(f, b) >= 0 && ValueOf(f, b + 1) > 0
  {
    ValueZero(f);
    ValuesRise(f, 0, b);
    ValuesRise(f, 0, b + 1);
  }

  lemma MidOdd(f: Fmt, b: nat)
    requires ValidFmt(f)
    ensures MidOf(f, b) == (2 * Significand(f, b) + 1) * Pow2(Shift(f, b)) && Significand(f, b) >= 0
  {
    var k, m := HasParts(f, b);
    NextValue(f, b);
    Odd(m, Pow2(k));
  }

  lemma Odd(m: int, u: int)
    ensures m * u + (m * u + u) == (2 * m + 1) * u
  {}

  /** The exact text of that point. */
  function MidText(f: Fmt, b: nat): Text
    requires ValidFmt(f)
  {
    var (n, k) := Reduced(MidOf(f, b), Units(f) + 1);
    Dyadic(n, k)
  }

  /** The point's text: exactly the point, in a last place narrower than half the gap between the two values. */
  lemma MidReads(f: Fmt, b: nat)
    requires ValidFmt(f)
    ensures var t := MidText(f, b); var u := Pow2(Units(f) + 1);
            && t.ex == 0 && |t.frac| >= 1 && Number(t.whole + t.frac) >= 2
            && Number(t.whole + t.frac) * u == MidOf(f, b) * Tens(|t.frac|)
            && u <= (ValueOf(f, b + 1) - ValueOf(f, b)) * Tens(|t.frac|)
  {
    var k, s, odd := Units(f) + 1, Shift(f, b), 2 * Significand(f, b) + 1;
    MidOdd(f, b);
    NextValue(f, b);
    ReducedIs(MidOf(f, b), k, s, odd);
    var (n, j) := Reduced(MidOf(f, b), k);
    DyadicReads(n, j);
    var t := Dyadic(n, j);
    MidExact(Number(t.whole + t.frac), n, Pow2(j), Tens(|t.frac|), Pow2(k), MidOf(f, b));
    ValuesPositive(f, b);
    WideEnough(j, k, s, |t.frac|);
    FiveOrMore(Number(t.whole + t.frac), Pow2(k), MidOf(f, b), Tens(|t.frac|), Pow2(s));
  }

  lemma MidExact(v: nat, n: nat, u: nat, e: nat, w: nat, mid: nat)
    requires v * u == n * e && n * w == mid * u && u > 0
    ensures v * w == mid * e
  {
    assert (v * w) * u == (v * u) * w;
    assert (n * e) * w == (n * w) * e;
    assert (mid * u) * e == (mid * e) * u;
    CancelMul(v * w, mid * e, u);
  }

  /** 5 * 2^k <= 2^s * 10^l where l is at least k - s. */
  lemma WideEnough(j: nat, k: nat, s: nat, l: nat)
    requires j == (if s < k then k - s else 0) && l == (if j == 0 then 1 else j)
    ensures 5 * Pow2(k) <= Pow2(s) * Tens(l)
  {
    TwosTens(l);
    Pow2Sum(s, l);
    Pow2More(k, s + l);
    MulLe(Pow2(s), 5 * Pow2(l), Tens(l));
    FiveTimes(Pow2(s), Pow2(l));
  }

  lemma FiveTimes(a: int, b: int)
    ensures a * (5 * b) == 5 * (a * b)
  {}

  lemma Pow2More(a: nat, b: nat)
    requires a <= b
    ensures Pow2(a) <= Pow2(b)
  {
    Pow2Sum(b - a, a);
    MulMono(1, Pow2(b - a), Pow2(a));
  }

  lemma TwosTens(l: nat)
    requires l >= 1
    ensures 5 * Pow2(l) <= Tens(l)
  {
    FivesTwos(l);
    MulMono(5, Fives(l), Pow2(l));
  }

  /** The text has units of its last place to spare below it. */
  lemma FiveOrMore(v: nat, w: nat, mid: nat, e: nat, gap: nat)
    requires v * w == mid * e && 5 * w <= gap * e && mid >= gap && w > 0
    ensures v >= 5
  {
    MulMono(gap, mid, e);
    ScaleLe(5, v, w);
  }

  // --- the conversion at the half-way points -----------------------------------------------------------------

  /** What a text's fraction is, when it has digits after the point and no exponent. */
  lemma PlainFraction(t: Text)
    requires t.ex == 0 && |t.frac| >= 1
    ensures Fraction(t) == (Number(t.whole + t.frac), Tens(|t.frac|))
  {}

  lemma DigitsLeft(t: Text)
    requires Number(t.whole + t.frac) > 0
    ensures Unstripped(t.whole + t.frac) != []
  {
    StripSame(t.whole + t.frac);
  }

  /** A text that denotes v / 10^l converts to the encoding that a = v * 2^units over 10^l rounds to. */
  lemma ConvertsTo(t: Text, f: Fmt, b: nat)
    requires Covered(f) && t.ex == 0 && |t.frac| >= 1 && Number(t.whole + t.frac) > 0
    requires RoundsTo(f, Number(t.whole + t.frac) * Pow2(Units(f)), Tens(|t.frac|), b)
    ensures Ref(t, f).0 == b
  {
    PlainFraction(t);
    DigitsLeft(t);
    ShortcutsAgree(t, f);
    var n, d := Number(t.whole + t.frac), Tens(|t.frac|);
    RefRounds(n, d, f);
    RoundsOnce(f, n * Pow2(Units(f)), d, RefOf(n, d, f).0, b);
  }

  /** At the half-way point between `b` and the next: the even one of the two. */
  lemma RoundsAtMid(f: Fmt, b: nat, a: nat, d: nat)
    requires ValidFmt(f) && b < Infinity(f) && d > 0 && 2 * a == d * MidOf(f, b)
    ensures RoundsTo(f, a, d, if b % 2 == 0 then b else b + 1)
  {
    if b % 2 == 0 {
      if b > 0 {
        MidsRise(f, b - 1, b + 1);
        MulLe(d, ValueOf(f, b - 1) + ValueOf(f, b), MidOf(f, b));
      }
    } else if b + 1 < Infinity(f) {
      MidsRise(f, b, b + 2);
      MulLe(d, MidOf(f, b), ValueOf(f, b + 1) + ValueOf(f, b + 2));
    }
  }

  /** Above the half-way point, and not past the next value. */
  lemma RoundsAboveMid(f: Fmt, b: nat, a: nat, d: nat)
    requires ValidFmt(f) && b < Infinity(f) && d > 0 && d * MidOf(f, b) < 2 * a <= 2 * (d * ValueOf(f, b + 1))
    ensures RoundsTo(f, a, d, b + 1)
  {
    ValuesRise(f, b + 1, b + 2);
    MulLe(d, 2 * ValueOf(f, b + 1), ValueOf(f, b + 1) + ValueOf(f, b + 2));
    Twice(d, ValueOf(f, b + 1));
  }

  /** Below the half-way point, and not below the value. */
  lemma RoundsBelowMid(f: Fmt, b: nat, a: nat, d: nat)
    requires ValidFmt(f) && b < Infinity(f) && d > 0 && 2 * (d * ValueOf(f, b)) <= 2 * a < d * MidOf(f, b)
    ensures RoundsTo(f, a, d, b)
  {
    if b > 0 {
      ValuesRise(f, b - 1, b);
      MulLe(d, ValueOf(f, b - 1) + ValueOf(f, b), 2 * ValueOf(f, b));
      Twice(d, ValueOf(f, b));
    }
  }

  /** One unit of the last place on or back from the point stays within the two values. */
  lemma NudgedWithin(v: nat, u: nat, v0: int, v1: int, e: nat)
    requires v * (2 * u) == (v0 + v1) * e && 2 * u <= (v1 - v0) * e && v >= 1 && u >= 1
    ensures e * (v0 + v1) < 2 * ((v + 1) * u) <= 2 * (e * v1)
    ensures 2 * (e * v0) <= 2 * ((v - 1) * u) < e * (v0 + v1)
  {
    assert v * (2 * u) == 2 * (v * u) && (v + 1) * u == v * u + u && (v - 1) * u == v * u - u;
    assert (v0 + v1) * e == v0 * e + v1 * e && (v1 - v0) * e == v1 * e - v0 * e;
    assert e * (v0 + v1) == (v0 + v1) * e && e * v0 == v0 * e && e * v1 == v1 * e;
  }

  /** For every encoding and the next: the exact text of the point half-way converts to the even one of the two,
      that text one unit up to the next, and one unit down to the encoding. The step into infinity and the one
      out of zero included. */
  lemma HalfwayTexts(f: Fmt, b: nat)
    requires Covered(f) && b < Infinity(f)
    ensures var t := MidText(f, b);
            && Number(t.whole + t.frac) >= 2
            && Ref(t, f).0 == (if b % 2 == 0 then b else b + 1)
            && Ref(Nudge(t, 1), f).0 == b + 1
            && Ref(Nudge(t, -1), f).0 == b
  {
    MidNumber(f, b);
    HalfEven(f, b);
    HalfUp(f, b);
    HalfDown(f, b);
  }

  lemma MidNumber(f: Fmt, b: nat)
    requires ValidFmt(f)
    ensures var t := MidText(f, b); Number(t.whole + t.frac) >= 2
  {
    MidReads(f, b);
  }

  lemma HalfEven(f: Fmt, b: nat)
    requires Covered(f) && b < Infinity(f)
    ensures Ref(MidText(f, b), f).0 == (if b % 2 == 0 then b else b + 1)
  {
    MidAt(f, b);
    ConvertsTo(MidText(f, b), f, if b % 2 == 0 then b else b + 1);
  }

  lemma MidAt(f: Fmt, b: nat)
    requires ValidFmt(f) && b < Infinity(f)
    ensures var t := MidText(f, b);
            && t.ex == 0 && |t.frac| >= 1 && Number(t.whole + t.frac) > 0
            && RoundsTo(f, Number(t.whole + t.frac) * Pow2(Units(f)), Tens(|t.frac|), if b % 2 == 0 then b else b + 1)
  {
    var t := MidText(f, b);
    MidReads(f, b);
    var v, e, u := Number(t.whole + t.frac), Tens(|t.frac|), Pow2(Units(f));
    Pow2Next(Units(f));
    MidRounds(f, b, v, u, e);
  }

  lemma MidRounds(f: Fmt, b: nat, v: nat, u: nat, e: nat)
    requires ValidFmt(f) && b < Infinity(f) && e >= 1 && v * (2 * u) == MidOf(f, b) * e
    ensures RoundsTo(f, v * u, e, if b % 2 == 0 then b else b + 1)
  {
    AtMid(v, u, MidOf(f, b), e);
    MulLowerNat(v, u);
    RoundsAtMid(f, b, v * u, e);
  }

  lemma HalfUp(f: Fmt, b: nat)
    requires Covered(f) && b < Infinity(f)
    ensures var t := MidText(f, b); Number(t.whole + t.frac) >= 2 && Ref(Nudge(t, 1), f).0 == b + 1
  {
    MidUp(f, b);
    ConvertsTo(Nudge(MidText(f, b), 1), f, b + 1);
  }

  /** A plain text whose number rounds to an encoding. */
  predicate Lands(t: Text, f: Fmt, b: nat)
    requires ValidFmt(f)
  {
    && t.ex == 0 && |t.frac| >= 1 && Number(t.whole + t.frac) > 0
    && RoundsTo(f, Number(t.whole + t.frac) * Pow2(Units(f)), Tens(|t.frac|), b)
  }

  lemma MidUp(f: Fmt, b: nat)
    requires ValidFmt(f) && b < Infinity(f)
    ensures var t := MidText(f, b); Number(t.whole + t.frac) >= 2 && Lands(Nudge(t, 1), f, b + 1)
  {
    var t := MidText(f, b);
    MidReads(f, b);
    NudgeReads(t, 1);
    Pow2Next(Units(f));
    AboveRounds(f, b, Number(t.whole + t.frac), Pow2(Units(f)), Tens(|t.frac|));
  }

  lemma AboveRounds(f: Fmt, b: nat, v: nat, u: nat, e: nat)
    requires ValidFmt(f) && b < Infinity(f) && v >= 1 && u >= 1 && e >= 1
    requires v * (2 * u) == MidOf(f, b) * e && 2 * u <= (ValueOf(f, b + 1) - ValueOf(f, b)) * e
    ensures RoundsTo(f, (v + 1) * u, e, b + 1)
  {
    NudgedWithin(v, u, ValueOf(f, b), ValueOf(f, b + 1), e);
    MulLowerNat(v + 1, u);
    RoundsAboveMid(f, b, (v + 1) * u, e);
  }

  lemma HalfDown(f: Fmt, b: nat)
    requires Covered(f) && b < Infinity(f)
    ensures var t := MidText(f, b); Number(t.whole + t.frac) >= 2 && Ref(Nudge(t, -1), f).0 == b
  {
    MidDown(f, b);
    ConvertsTo(Nudge(MidText(f, b), -1), f, b);
  }

  lemma MidDown(f: Fmt, b: nat)
    requires ValidFmt(f) && b < Infinity(f)
    ensures var t := MidText(f, b); Number(t.whole + t.frac) >= 2 && Lands(Nudge(t, -1), f, b)
  {
    var t := MidText(f, b);
    MidReads(f, b);
    NudgeReads(t, -1);
    Pow2Next(Units(f));
    var v: nat := Number(t.whole + t.frac) - 1;
    BelowRounds(f, b, v, Pow2(Units(f)), Tens(|t.frac|));
  }

  lemma BelowRounds(f: Fmt, b: nat, v: nat, u: nat, e: nat)
    requires ValidFmt(f) && b < Infinity(f) && u >= 1 && e >= 1
    requires (v + 1) * (2 * u) == MidOf(f, b) * e && 2 * u <= (ValueOf(f, b + 1) - ValueOf(f, b)) * e
    ensures RoundsTo(f, v * u, e, b)
  {
    NudgedWithin(v + 1, u, ValueOf(f, b), ValueOf(f, b + 1), e);
    MulLowerNat(v, u);
    RoundsBelowMid(f, b, v * u, e);
  }

  lemma AtMid(v: nat, u: nat, mid: nat, e: nat)
    requires v * (2 * u) == mid * e
    ensures 2 * (v * u) == e * mid
  {
    assert v * (2 * u) == 2 * (v * u);
  }
}
