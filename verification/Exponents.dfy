/** What the exponent and the point of a decimal text mean, and that one number converts alike however it is written. */
module Exponents {
  import opened Words
  import opened Rounding
  import opened Decimals

  function All(t: Text): seq<Digit> {
    t.whole + t.frac
  }

  /** A text denotes its digits' number, times ten to the exponent, over ten to the count of digits after the point. */
  lemma Denotes(t: Text)
    ensures var (n, d) := Fraction(t);
      && d >= 1
      && (t.ex >= 0 ==> n * Tens(|t.frac|) == (Number(All(t)) * Tens(t.ex)) * d)
      && (t.ex < 0 ==> n * (Tens(|t.frac|) * Tens(-t.ex)) == Number(All(t)) * d)
  {
    var k, l, v := t.ex - |t.frac|, |t.frac|, Number(All(t));
    if k >= 0 {
      TensSum(k, l);
      Decimals.Regroup(v, Tens(k), Tens(l));
    } else if t.ex >= 0 {
      TensSum(t.ex, -k);
      Decimals.Regroup(v, Tens(t.ex), Tens(-k));
    } else {
      TensSum(l, -t.ex);
    }
  }

  /** A number's digits count by their places. */
  lemma {:induction false} PlacesCount(d: Digit, ds: seq<Digit>)
    ensures Number([d] + ds) == d * Tens(|ds|) + Number(ds)
    decreases |ds|
  {
    TensNext(0);
    var all := [d] + ds;
    if ds == [] {
      assert all[..0] == [];
    } else {
      var k := |ds| - 1;
      PlacesCount(d, ds[..k]);
      TensNext(k);
      assert all[..k + 1] == [d] + ds[..k];
      assert d * (10 * Tens(k)) == 10 * (d * Tens(k));
    }
  }

  /** One more in the exponent is ten times the number. */
  lemma TimesTen(t: Text)
    ensures var (n, d) := Fraction(t); var (n1, d1) := Fraction(t.(ex := t.ex + 1)); n1 * d == 10 * (n * d1)
  {
    var k, v := t.ex - |t.frac|, Number(All(t));
    TensNext(0);
    if k >= 0 {
      TensNext(k);
      assert v * (10 * Tens(k)) == 10 * (v * Tens(k));
    } else {
      TensNext(-k - 1);
      assert v * (10 * Tens(-k - 1)) == 10 * (v * Tens(-k - 1));
    }
  }

  // --- one number, many texts ------------------------------------------------------------------------

  /** The text's digits with `lead` zeros before and `trail` after them, the point behind the first `k` of all these,
      and the exponent that makes up for it. */
  function Written(t: Text, lead: nat, trail: nat, k: nat): Text
    requires k <= lead + |All(t)| + trail
  {
    var ds := Zeros(lead) + All(t) + Zeros(trail);
    Text(ds[..k], ds[k..], t.ex + |t.whole| + lead - k)
  }

  lemma {:induction false} TrailingZeros(ds: seq<Digit>, n: nat)
    ensures Number(ds + Zeros(n)) == Number(ds) * Tens(n)
    decreases n
  {
    TensNext(0);
    if n == 0 {
      assert ds + Zeros(0) == ds;
    } else {
      var all := ds + Zeros(n);
      assert all[..|all| - 1] == ds + Zeros(n - 1);
      TrailingZeros(ds, n - 1);
      TensNext(n - 1);
      assert 10 * (Number(ds) * Tens(n - 1)) == Number(ds) * (10 * Tens(n - 1));
    }
  }

  lemma WrittenNumber(t: Text, lead: nat, trail: nat, k: nat)
    requires k <= lead + |All(t)| + trail
    ensures Number(All(Written(t, lead, trail, k))) == Number(All(t)) * Tens(trail)
    ensures |All(Written(t, lead, trail, k))| == lead + |All(t)| + trail
  {
    var ds := Zeros(lead) + All(t) + Zeros(trail);
    assert ds[..k] + ds[k..] == ds == Zeros(lead) + (All(t) + Zeros(trail));
    ZerosAdd(lead, All(t) + Zeros(trail));
    TrailingZeros(All(t), trail);
  }

  /** The digits that count are the same, and the zeros after them. */
  lemma {:induction false} StripZeros(ds: seq<Digit>, lead: nat, trail: nat)
    ensures Unstripped(Zeros(lead) + ds + Zeros(trail))
         == if Unstripped(ds) == [] then [] else Unstripped(ds) + Zeros(trail)
    decreases lead + |ds| + trail
  {
    var all := Zeros(lead) + ds + Zeros(trail);
    if lead > 0 {
      StripZeros(ds, lead - 1, trail);
      assert all[1..] == Zeros(lead - 1) + ds + Zeros(trail);
    } else if ds != [] {
      assert all == ds + Zeros(trail);
      if ds[0] == 0 {
        StripZeros(ds[1..], 0, trail);
        assert all[1..] == Zeros(0) + ds[1..] + Zeros(trail);
      }
    } else if trail > 0 {
      StripZeros([], 0, trail - 1);
      assert all[1..] == Zeros(0) + [] + Zeros(trail - 1);
    }
  }

  /** Two texts with the same magnitude and the same number convert alike. */
  lemma WrittenFraction(t: Text, lead: nat, trail: nat, k: nat)
    requires k <= lead + |All(t)| + trail
    ensures var (n, d) := Fraction(t); var (n1, d1) := Fraction(Written(t, lead, trail, k)); n1 * d == n * d1
  {
    var t1 := Written(t, lead, trail, k);
    WrittenNumber(t, lead, trail, k);
    var v, p := Number(All(t)), t.ex - |t.frac|;
    assert t1.ex - |t1.frac| == p - trail;
    TensNext(0);
    Shifted(v, p, trail);
  }

  /** A number with zeros behind it, at the place so much further down. */
  lemma Shifted(v: nat, p: int, trail: nat)
    ensures var (n, d) := At(v, p); var (n1, d1) := At(v * Tens(trail), p - trail); n1 * d == n * d1
  {
    var e := Tens(trail);
    if p - trail >= 0 {
      TensSum(trail, p - trail);
      Decimals.Regroup(v, e, Tens(p - trail));
    } else if p >= 0 {
      TensSum(p, trail - p);
      Decimals.Regroup(v, Tens(p), Tens(trail - p));
    } else {
      TensSum(trail, -p);
      Decimals.Regroup(v, e, Tens(-p));
    }
  }

  /** A number at a power of ten. */
  function At(v: nat, p: int): (nat, nat) {
    if p >= 0 then (v * Tens(p), 1) else (v, Tens(-p))
  }

  /** However the zeros, the point and the exponent of a number are written, it converts alike. */
  lemma WrittenAlike(t: Text, lead: nat, trail: nat, k: nat, f: Fmt)
    requires ValidFmt(f) && k <= lead + |All(t)| + trail
    ensures Ref(Written(t, lead, trail, k), f) == Ref(t, f)
  {
    var t1 := Written(t, lead, trail, k);
    var ds := Zeros(lead) + All(t) + Zeros(trail);
    assert All(t1) == ds;
    WrittenNumber(t, lead, trail, k);
    StripZeros(All(t), lead, trail);
    if Unstripped(All(t)) != [] {
      FractionPositive(t);
      FractionPositive(t1);
      WrittenFraction(t, lead, trail, k);
      RefMonotone(Fraction(t1).0, Fraction(t1).1, Fraction(t).0, Fraction(t).1, f);
    }
  }

  /** And zero, however it is written, converts to zero with no flag, as nothing else does. */
  lemma ZeroReads(t: Text, f: Fmt)
    requires ValidFmt(f)
    ensures Ref(t, f) == (0, Finite) <==> Number(All(t)) == 0
  {
    StripSame(All(t));
    if Number(All(t)) == 0 {
      NothingLeft(All(t));
    } else {
      NeverPlain(t, f);
    }
  }

  lemma NothingLeft(ds: seq<Digit>)
    requires Number(ds) == 0
    ensures Unstripped(ds) == []
  {
    StripSame(ds);
    NumberBounds(Unstripped(ds));
  }

  lemma NeverPlain(t: Text, f: Fmt)
    requires ValidFmt(f) && Number(All(t)) != 0
    ensures Ref(t, f) != (0, Finite)
  {
    DigitsLeft(t);
    FractionPositive(t);
    RefRounds(Fraction(t).0, Fraction(t).1, f);
  }

  // --- exponent form -----------------------------------------------------------------------------------

  /** Digits in exponent form: one before the point, and a zero after it if there are no others. */
  function Sci(digs: seq<Digit>, e10: int): Text
    requires digs != []
  {
    if |digs| == 1 then Text(digs, [0], e10) else Text(digs[..1], digs[1..], e10)
  }

  /** Digits without a point, ending at a power of ten. */
  function Plain(digs: seq<Digit>, p: int): Text {
    Text(digs, [], p)
  }

  lemma PlainDenotes(digs: seq<Digit>, p: int)
    ensures All(Plain(digs, p)) == digs && Fraction(Plain(digs, p)) == At(Number(digs), p)
  {
    assert digs + [] == digs;
  }

  /** The form converts as the digits themselves do, with the first of them at 10^e10. */
  lemma SciReads(digs: seq<Digit>, e10: int, f: Fmt)
    requires digs != [] && ValidFmt(f)
    ensures Ref(Sci(digs, e10), f) == Ref(Plain(digs, e10 - (|digs| - 1)), f)
  {
    SciWritten(digs, e10);
    WrittenAlike(Plain(digs, e10 - (|digs| - 1)), 0, if |digs| == 1 then 1 else 0, 1, f);
  }

  lemma SciWritten(digs: seq<Digit>, e10: int)
    requires digs != []
    ensures var t := Plain(digs, e10 - (|digs| - 1));
      |All(t)| == |digs| && Sci(digs, e10) == Written(t, 0, if |digs| == 1 then 1 else 0, 1)
  {
    PlainDenotes(digs, e10 - (|digs| - 1));
    if |digs| == 1 {
      assert Zeros(0) + digs + Zeros(1) == digs + [0];
    } else {
      assert Zeros(0) + digs + Zeros(0) == digs;
    }
  }

  /** The half-way texts and their neighbours, written with any zeros, point and exponent: `k` is where the point is. */
  lemma HalfwayWritten(f: Fmt, b: nat, lead: nat, trail: nat, k: nat)
    requires Covered(f) && b < Infinity(f)
    ensures var t := MidText(f, b);
            && Number(All(t)) >= 2
            && (k <= lead + |All(t)| + trail ==>
                  Ref(Written(t, lead, trail, k), f).0 == if b % 2 == 0 then b else b + 1)
            && (k <= lead + |All(Nudge(t, 1))| + trail ==> Ref(Written(Nudge(t, 1), lead, trail, k), f).0 == b + 1)
            && (k <= lead + |All(Nudge(t, -1))| + trail ==> Ref(Written(Nudge(t, -1), lead, trail, k), f).0 == b)
  {
    HalfwayTexts(f, b);
    var t := MidText(f, b);
    if k <= lead + |All(t)| + trail { WrittenAlike(t, lead, trail, k, f); }
    if k <= lead + |All(Nudge(t, 1))| + trail { WrittenAlike(Nudge(t, 1), lead, trail, k, f); }
    if k <= lead + |All(Nudge(t, -1))| + trail { WrittenAlike(Nudge(t, -1), lead, trail, k, f); }
  }

  // --- the two formats ---------------------------------------------------------------------------------

  /** Infinity and one in the 32-bit and the 64-bit encoding, sign clear; the exponent of all ones ends at 31 and at
      63 bits. */
  lemma FormatBits()
    ensures Infinity(FMT32) == 0x7F80_0000 && Infinity(FMT32) + Half(FMT32) == 0x8000_0000
    ensures Infinity(FMT64) == 0x7FF0_0000_0000_0000 && Infinity(FMT64) + Half(FMT64) == 0x8000_0000_0000_0000
    ensures ValueOf(FMT32, 0x3F80_0000) == Pow2(Units(FMT32))
    ensures ValueOf(FMT64, 0x3FF0_0000_0000_0000) == Pow2(Units(FMT64))
  {
    Pow2Small();
    Pow2Next(4); Pow2Next(5); Pow2Next(6);
    Pow2Sum(8, 8);
    Pow2Sum(16, 7);
    Pow2Sum(16, 16);
    Pow2Sum(32, 16);
    Pow2Sum(48, 4);
    OneIs(FMT32, 126);
    OneIs(FMT64, 1022);
  }

  /** The encoding with exponent field `e + 1` and no fraction. */
  lemma OneIs(f: Fmt, e: nat)
    requires ValidFmt(f) && e + 1 == f.emax
    ensures ValueOf(f, (e + 1) * Half(f)) == Pow2(Units(f))
  {
    Parts(f, (e + 1) * Half(f), e, Half(f));
    Pow2Sum(f.p - 1, e);
  }
}
