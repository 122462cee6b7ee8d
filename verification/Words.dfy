/** Fixed-width machine words and the wrapping integers of the source language they hold. */
module Words {

  datatype Option<+T> = None | Some(value: T)

  /** A scalar type of subset 1: an integer of a width and signedness, the byte-sized bool, or NIL. */
  datatype Ty = IntT(width: Width, signed: bool) | BoolT | NilT
  datatype Width = W8 | W16 | W32 | W64

  const ERROR_CODE := IntT(W32, true)   // tbb32, the error-code type

  function WidthBits(w: Width): (n: nat)
    ensures n >= 8
  {
    match w
    case W8 => 8
    case W16 => 16
    case W32 => 32
    case W64 => 64
  }

  /** The bits of the LLVM type a scalar lowers to: a bool is a byte, NIL stands as `i32 0`. */
  function Bits(ty: Ty): (n: nat)
    ensures n >= 8
  {
    match ty
    case IntT(w, _) => WidthBits(w)
    case BoolT => 8
    case NilT => 32
  }

  predicate Signed(ty: Ty) {
    ty.IntT? && ty.signed
  }

  /** 2^n: the product of n twos. */
  function Pow2(n: nat): (p: int)
    ensures p >= 1
  {
    Doubled(seq(n, _ => ()))
  }

  function Doubled(s: seq<()>): (p: int)
    ensures p >= 1
  {
    if s == [] then 1 else 2 * Doubled(s[1..])
  }

  lemma Pow2Small()
    ensures Pow2(0) == 1 && Pow2(1) == 2 && Pow2(4) == 16 && Pow2(8) == 256
  {
    Pow2Next(0); Pow2Next(1); Pow2Next(2); Pow2Next(3); Pow2Next(4); Pow2Next(5); Pow2Next(6); Pow2Next(7);
  }

  lemma Pow2Next(n: nat)
    ensures Pow2(0) == 1 && Pow2(n + 1) == 2 * Pow2(n)
  {
    assert seq(n + 1, _ => ())[1..] == seq(n, _ => ());
  }

  lemma {:induction false} Pow2Sum(a: nat, b: nat)
    ensures Pow2(a + b) == Pow2(a) * Pow2(b)
  {
    Pow2Small();
    if a > 0 {
      Pow2Sum(a - 1, b);
      Pow2Next(a - 1);
      Pow2Next(a - 1 + b);
      assert Pow2(a) * Pow2(b) == 2 * (Pow2(a - 1) * Pow2(b));
    }
  }

  /** The n-bit pattern of an integer (two's complement). */
  function Enc(n: nat, v: int): (p: nat)
    ensures p < Pow2(n)
  {
    v % Pow2(n)
  }

  /** The signed reading of an n-bit pattern. */
  function SDec(n: nat, p: nat): int {
    if 2 * p < Pow2(n) then p else p - Pow2(n)
  }

  function Dec(ty: Ty, p: nat): int {
    if Signed(ty) then SDec(Bits(ty), p) else p
  }

  predicate InRange(ty: Ty, v: int) {
    if Signed(ty) then -Pow2(Bits(ty)) <= 2 * v < Pow2(Bits(ty))
    else 0 <= v < Pow2(Bits(ty))
  }

  /** The value of type `ty` congruent to `v`: how plain integers wrap. */
  function Wrap(ty: Ty, v: int): int {
    Dec(ty, Enc(Bits(ty), v))
  }

  datatype BinOp = Add | Sub | Mul | Div | Rem | BAnd | BOr | BXor | Shl | Shr
  datatype CmpOp = Eq | Ne | Lt | Le | Gt | Ge
  datatype UnOp = Neg | Not | Compl

  /** Division truncates toward zero, and the remainder takes the dividend's sign. */
  function TruncDiv(a: int, b: int): int
    requires b != 0
  {
    if (a < 0) == (b < 0) then Abs(a) / Abs(b) else -(Abs(a) / Abs(b))
  }

  function TruncRem(a: int, b: int): int
    requires b != 0
  {
    a - b * TruncDiv(a, b)
  }

  function Abs(a: int): nat {
    if a < 0 then -a else a
  }

  /** One bit of a bitwise operator. */
  function BitOf(op: BinOp, x: nat, y: nat): nat {
    match op
    case BAnd => if x == 1 && y == 1 then 1 else 0
    case BOr => if x == 1 || y == 1 then 1 else 0
    case _ => if x == y then 0 else 1
  }

  function Bitwise(op: BinOp, n: nat, a: nat, b: nat): (r: nat)
    ensures r < Pow2(n)
  {
    if n == 0 then 0
    else
      Pow2Next(n - 1);
      BitOf(op, a % 2, b % 2) + 2 * Bitwise(op, n - 1, a / 2, b / 2)
  }

  /** Division by zero and the one overflowing quotient have no meaning in the target, nor has a shift by the width. */
  predicate Defined(op: BinOp, ty: Ty, a: int, b: int) {
    match op
    case Div => b != 0 && !(Signed(ty) && 2 * a == -Pow2(Bits(ty)) && b == -1)
    case Rem => b != 0 && !(Signed(ty) && 2 * a == -Pow2(Bits(ty)) && b == -1)
    case Shl => 0 <= b < Bits(ty)
    case Shr => 0 <= b < Bits(ty)
    case _ => true
  }

  /** The source's arithmetic on values, None where it is undefined. */
  function SBin(op: BinOp, ty: Ty, a: int, b: int): Option<int> {
    if !Defined(op, ty, a, b) then None
    else
      match op
      case Add => Some(Wrap(ty, a + b))
      case Sub => Some(Wrap(ty, a - b))
      case Mul => Some(Wrap(ty, a * b))
      case Div => Some(TruncDiv(a, b))
      case Rem => Some(TruncRem(a, b))
      case Shl => Some(Wrap(ty, a * Pow2(b)))
      case Shr => Some(a / Pow2(b))
      case _ => Some(Dec(ty, Bitwise(op, Bits(ty), Enc(Bits(ty), a), Enc(Bits(ty), b))))
  }

  predicate SCmp(op: CmpOp, a: int, b: int) {
    match op
    case Eq => a == b
    case Ne => a != b
    case Lt => a < b
    case Le => a <= b
    case Gt => a > b
    case Ge => a >= b
  }

  // --- the target's instructions, on patterns --------------------------------

  datatype MOp = MAdd | MSub | MMul | SDiv | UDiv | SRem | URem | MAnd | MOr | MXor | MShl | AShr | LShr
  datatype Pred = PEq | PNe | SLt | SLe | SGt | SGe | ULt | ULe | UGt | UGe

  function Quotient(a: nat, b: nat): nat
    requires b > 0
  {
    a / b
  }

  function MBin(op: MOp, n: nat, a: nat, b: nat): Option<nat> {
    match op
    case MAdd => Some(Enc(n, a + b))
    case MSub => Some(Enc(n, a - b))
    case MMul => Some(Enc(n, a * b))
    case SDiv => if SDivDefined(n, a, b) then Some(Enc(n, TruncDiv(SDec(n, a), SDec(n, b)))) else None
    case UDiv => if b != 0 then Some(Enc(n, Quotient(a, b))) else None
    case SRem => if SDivDefined(n, a, b) then Some(Enc(n, TruncRem(SDec(n, a), SDec(n, b)))) else None
    case URem => if b != 0 then Some(Enc(n, a % b)) else None
    case MAnd => Some(Bitwise(BAnd, n, a, b))
    case MOr => Some(Bitwise(BOr, n, a, b))
    case MXor => Some(Bitwise(BXor, n, a, b))
    case MShl => if b < n then Some(Enc(n, a * Pow2(b))) else None
    case AShr => if b < n then Some(Enc(n, SDec(n, a) / Pow2(b))) else None
    case LShr => if b < n then Some(Quotient(a, Pow2(b))) else None
  }

  predicate SDivDefined(n: nat, a: nat, b: nat) {
    SDec(n, b) != 0 && !(2 * SDec(n, a) == -Pow2(n) && SDec(n, b) == -1)
  }

  predicate MCmp(p: Pred, n: nat, a: nat, b: nat) {
    match p
    case PEq => a == b
    case PNe => a != b
    case SLt => SDec(n, a) < SDec(n, b)
    case SLe => SDec(n, a) <= SDec(n, b)
    case SGt => SDec(n, a) > SDec(n, b)
    case SGe => SDec(n, a) >= SDec(n, b)
    case ULt => a < b
    case ULe => a <= b
    case UGt => a > b
    case UGe => a >= b
  }

  // --- the choice of instruction (emit.py, arith and binary) ------------------

  function LowerOp(op: BinOp, signed: bool): MOp {
    match op
    case Add => MAdd
    case Sub => MSub
    case Mul => MMul
    case Div => if signed then SDiv else UDiv
    case Rem => if signed then SRem else URem
    case BAnd => MAnd
    case BOr => MOr
    case BXor => MXor
    case Shl => MShl
    case Shr => if signed then AShr else LShr
  }

  function LowerCmp(op: CmpOp, signed: bool): Pred {
    match op
    case Eq => PEq
    case Ne => PNe
    case Lt => if signed then SLt else ULt
    case Le => if signed then SLe else ULe
    case Gt => if signed then SGt else UGt
    case Ge => if signed then SGe else UGe
  }

  // --- the two agree -----------------------------------------------------------

  lemma QuotientUnique(m: nat, q: int, r: int)
    requires m >= 1 && 0 <= r < m
    ensures (q * m + r) / m == q
  {
    var v := q * m + r;
    var q', r' := v / m, v % m;
    assert v == q' * m + r' && 0 <= r' < m;
    assert (q - q') * m == r' - r;
    if q > q' {
      assert (q - q') * m >= m by { MulMono(1, q - q', m); }
    } else if q < q' {
      assert (q' - q) * m >= m by { MulMono(1, q' - q, m); }
    }
  }

  lemma ModUnique(m: nat, q: int, r: int)
    requires m >= 1 && 0 <= r < m
    ensures (q * m + r) % m == r
  {
    QuotientUnique(m, q, r);
    var v := q * m + r;
    assert v == (v / m) * m + v % m;
  }

  lemma MulMono(a: int, b: int, m: nat)
    requires a <= b
    ensures a * m <= b * m
  {}

  /** The k-th bit of a number. */
  predicate HasBit(x: nat, k: nat) {
    (x / Pow2(k)) % 2 == 1
  }

  lemma BitNext(x: nat, k: nat)
    ensures (HasBit(x, 0) <==> x % 2 == 1) && (HasBit(x, k + 1) <==> HasBit(x / 2, k))
  {
    Pow2Small();
    Pow2Next(k);
    var p, h := Pow2(k), x / 2;
    var q, r := h / p, h % p;
    assert h == q * p + r && x == 2 * h + x % 2;
    assert x == q * (2 * p) + (2 * r + x % 2);
    QuotientUnique(2 * p, q, 2 * r + x % 2);
  }

  /** Bit by bit: both, either, exactly one. */
  lemma BitwiseIs(n: nat, a: nat, b: nat, k: nat)
    requires k < n
    ensures HasBit(Bitwise(BAnd, n, a, b), k) <==> HasBit(a, k) && HasBit(b, k)
    ensures HasBit(Bitwise(BOr, n, a, b), k) <==> HasBit(a, k) || HasBit(b, k)
    ensures HasBit(Bitwise(BXor, n, a, b), k) <==> HasBit(a, k) != HasBit(b, k)
  {
    BitwiseAt(BAnd, n, a, b, k);
    BitwiseAt(BOr, n, a, b, k);
    BitwiseAt(BXor, n, a, b, k);
  }

  lemma {:induction false} BitwiseAt(op: BinOp, n: nat, a: nat, b: nat, k: nat)
    requires k < n
    ensures HasBit(Bitwise(op, n, a, b), k)
       <==> BitOf(op, if HasBit(a, k) then 1 else 0, if HasBit(b, k) then 1 else 0) == 1
  {
    var i: nat := if k == 0 then 0 else k - 1;
    BitNext(a, i);
    BitNext(b, i);
    BitNext(Bitwise(op, n, a, b), i);
    if k > 0 {
      BitwiseAt(op, n - 1, a / 2, b / 2, k - 1);
      assert Bitwise(op, n, a, b) / 2 == Bitwise(op, n - 1, a / 2, b / 2);
    }
  }

  /** Values that differ by a multiple of 2^n have one pattern. */
  lemma EncShift(n: nat, v: int, q: int)
    ensures Enc(n, v + q * Pow2(n)) == Enc(n, v)
  {
    var m := Pow2(n);
    var r := v % m;
    var k := v / m;
    assert v == k * m + r;
    assert v + q * m == (k + q) * m + r;
    ModUnique(m, k + q, r);
  }

  lemma EncSmall(n: nat, v: int)
    requires 0 <= v < Pow2(n)
    ensures Enc(n, v) == v
  {
    ModUnique(Pow2(n), 0, v);
  }

  /** A value in range is read back from its pattern. */
  lemma DecEnc(ty: Ty, v: int)
    requires InRange(ty, v)
    ensures Dec(ty, Enc(Bits(ty), v)) == v
    ensures v >= 0 ==> Enc(Bits(ty), v) == v
    ensures v < 0 ==> Enc(Bits(ty), v) == v + Pow2(Bits(ty))
  {
    var n := Bits(ty);
    if v < 0 {
      EncShift(n, v, 1);
      EncSmall(n, v + Pow2(n));
    } else {
      EncSmall(n, v);
    }
  }

  lemma EncDec(ty: Ty, p: nat)
    requires p < Pow2(Bits(ty))
    ensures Enc(Bits(ty), Dec(ty, p)) == p
    ensures InRange(ty, Dec(ty, p))
  {
    var n := Bits(ty);
    if Dec(ty, p) < 0 {
      EncShift(n, Dec(ty, p), 1);
    }
    EncSmall(n, p);
  }

  /** Wrapping gives a value of the type with the same pattern. */
  lemma WrapFacts(ty: Ty, v: int)
    ensures InRange(ty, Wrap(ty, v))
    ensures Enc(Bits(ty), Wrap(ty, v)) == Enc(Bits(ty), v)
  {
    EncDec(ty, Enc(Bits(ty), v));
  }

  lemma EncSplit(n: nat, v: int) returns (q: int)
    ensures v == Enc(n, v) + q * Pow2(n)
  {
    q := v / Pow2(n);
  }

  lemma EncAdd(n: nat, a: int, b: int)
    ensures Enc(n, Enc(n, a) + Enc(n, b)) == Enc(n, a + b)
  {
    var i := EncSplit(n, a);
    var j := EncSplit(n, b);
    EncShift(n, Enc(n, a) + Enc(n, b), i + j);
    MulSum(i, j, Pow2(n));
  }

  lemma EncSub(n: nat, a: int, b: int)
    ensures Enc(n, Enc(n, a) - Enc(n, b)) == Enc(n, a - b)
  {
    var i := EncSplit(n, a);
    var j := EncSplit(n, b);
    EncShift(n, Enc(n, a) - Enc(n, b), i - j);
    MulSum(i, -j, Pow2(n));
  }

  lemma MulSum(i: int, j: int, m: int)
    ensures (i + j) * m == i * m + j * m && (-j) * m == -(j * m)
  {}

  lemma EncMulLeft(n: nat, a: int, b: int)
    ensures Enc(n, Enc(n, a) * b) == Enc(n, a * b)
  {
    var i := EncSplit(n, a);
    var m := Pow2(n);
    assert a * b == Enc(n, a) * b + (i * b) * m by {
      assert a * b == (Enc(n, a) + i * m) * b;
      assert (i * m) * b == (i * b) * m;
    }
    EncShift(n, Enc(n, a) * b, i * b);
  }

  lemma EncMul(n: nat, a: int, b: int)
    ensures Enc(n, Enc(n, a) * Enc(n, b)) == Enc(n, a * b)
  {
    EncMulLeft(n, a, Enc(n, b));
    assert a * Enc(n, b) == Enc(n, b) * a;
    EncMulLeft(n, b, a);
    assert b * a == a * b;
  }

  lemma QuotientRange(x: nat, y: nat)
    requires y >= 1
    ensures 0 <= x / y <= x
    ensures x / y == x > 0 ==> y == 1
    ensures x == (x / y) * y + x % y
  {
    var q := x / y;
    if q < 0 { MulMono(q, -1, y); assert false; }
    MulLower(q, y);
    if y >= 2 { MulMono(2, y, q); }
  }

  lemma TruncRemIs(a: int, b: int)
    requires b != 0
    ensures TruncRem(a, b) == if a < 0 then -(Abs(a) % Abs(b)) else Abs(a) % Abs(b)
  {
    var x: int, y: int := Abs(a), Abs(b);
    var q := x / y;
    QuotientRange(x, y);
    if b < 0 {
      assert b * q == -(q * y) && b * (-q) == q * y;
    } else {
      assert b * q == q * y && b * (-q) == -(q * y);
    }
  }

  lemma TruncDivRange(a: int, b: int)
    requires b != 0
    ensures Abs(TruncDiv(a, b)) <= Abs(a)
    ensures Abs(TruncDiv(a, b)) == Abs(a) ==> b == 1 || b == -1 || a == 0
    ensures Abs(TruncRem(a, b)) < Abs(b)
    ensures a >= 0 && b > 0 ==> TruncDiv(a, b) == a / b && TruncRem(a, b) == a % b
  {
    QuotientRange(Abs(a), Abs(b));
    TruncRemIs(a, b);
    if a == 0 && b > 0 { assert (a < 0) == (b < 0); }
  }

  lemma MulLower(q: nat, y: nat)
    requires y >= 1
    ensures q <= q * y
  {
    MulMono(1, y, q);
    assert y * q == q * y;
  }

  lemma FloorDivRange(a: int, p: nat)
    requires p >= 1
    ensures a >= 0 ==> 0 <= a / p <= a
    ensures a < 0 ==> a <= a / p < 0
  {
    if a >= 0 {
      QuotientRange(a, p);
    } else {
      FloorDivNeg(a, p);
    }
  }

  lemma FloorDivNeg(a: int, p: nat)
    requires p >= 1 && a < 0
    ensures a <= a / p < 0
  {
    var q := a / p;
    assert a == q * p + a % p;
    if q >= 0 { MulMono(0, q, p); assert false; }
    if q < a {
      MulMono(q, a - 1, p);
      MulMono(1, p, -a);
      MulSum(a, a, p);
      assert false;
    }
  }

  /** The instruction chosen for an operator computes the pattern of the operator's value, and is undefined just
      where it is. */
  lemma ArithAgrees(op: BinOp, ty: Ty, a: int, b: int)
    requires ty.IntT? && InRange(ty, a) && InRange(ty, b)
    ensures SBin(op, ty, a, b).Some? ==> InRange(ty, SBin(op, ty, a, b).value)
    ensures MBin(LowerOp(op, ty.signed), Bits(ty), Enc(Bits(ty), a), Enc(Bits(ty), b))
         == if SBin(op, ty, a, b).None? then None else Some(Enc(Bits(ty), SBin(op, ty, a, b).value))
  {
    var n := Bits(ty);
    match op {
      case Add => WrapFacts(ty, a + b); EncAdd(n, a, b);
      case Sub => WrapFacts(ty, a - b); EncSub(n, a, b);
      case Mul => WrapFacts(ty, a * b); EncMul(n, a, b);
      case Div => DivAgrees(Div, ty, a, b);
      case Rem => DivAgrees(Rem, ty, a, b);
      case Shl => ShlAgrees(ty, a, b);
      case Shr => ShrAgrees(ty, a, b);
      case _ => EncDec(ty, Bitwise(op, n, Enc(n, a), Enc(n, b)));
    }
  }

  lemma ShlAgrees(ty: Ty, a: int, b: int)
    requires ty.IntT? && InRange(ty, a) && InRange(ty, b)
    ensures SBin(Shl, ty, a, b).Some? ==> InRange(ty, SBin(Shl, ty, a, b).value)
    ensures MBin(MShl, Bits(ty), Enc(Bits(ty), a), Enc(Bits(ty), b))
         == if SBin(Shl, ty, a, b).None? then None else Some(Enc(Bits(ty), SBin(Shl, ty, a, b).value))
  {
    var n := Bits(ty);
    ShiftAmount(n);
    DecEnc(ty, b);
    if Defined(Shl, ty, a, b) {
      WrapFacts(ty, a * Pow2(b));
      EncMulLeft(n, a, Pow2(b));
    }
  }

  lemma ShrAgrees(ty: Ty, a: int, b: int)
    requires ty.IntT? && InRange(ty, a) && InRange(ty, b)
    ensures SBin(Shr, ty, a, b).Some? ==> InRange(ty, SBin(Shr, ty, a, b).value)
    ensures MBin(LowerOp(Shr, ty.signed), Bits(ty), Enc(Bits(ty), a), Enc(Bits(ty), b))
         == if SBin(Shr, ty, a, b).None? then None else Some(Enc(Bits(ty), SBin(Shr, ty, a, b).value))
  {
    ShiftAmount(Bits(ty));
    DecEnc(ty, a);
    DecEnc(ty, b);
    if Defined(Shr, ty, a, b) { EncSmallShr(ty, a, b); }
  }

  lemma ShiftAmount(n: nat)
    ensures n < Pow2(n)
    ensures n >= 4 ==> 2 * n <= Pow2(n)
  {
    if n > 0 {
      ShiftAmount(n - 1);
      Pow2Next(n - 1);
    }
    Pow2Small();
  }

  lemma EncSmallShr(ty: Ty, a: int, b: nat)
    requires ty.IntT? && InRange(ty, a)
    ensures InRange(ty, a / Pow2(b))
    ensures !ty.signed ==> Enc(Bits(ty), a / Pow2(b)) == a / Pow2(b)
  {
    FloorDivRange(a, Pow2(b));
    if !ty.signed { EncSmall(Bits(ty), a / Pow2(b)); }
  }

  lemma DivAgrees(op: BinOp, ty: Ty, a: int, b: int)
    requires op == Div || op == Rem
    requires ty.IntT? && InRange(ty, a) && InRange(ty, b)
    ensures SBin(op, ty, a, b).Some? ==> InRange(ty, SBin(op, ty, a, b).value)
    ensures MBin(LowerOp(op, ty.signed), Bits(ty), Enc(Bits(ty), a), Enc(Bits(ty), b))
         == if SBin(op, ty, a, b).None? then None else Some(Enc(Bits(ty), SBin(op, ty, a, b).value))
  {
    DecEnc(ty, a);
    DecEnc(ty, b);
    if Defined(op, ty, a, b) { DivInRange(ty, a, b); }
  }

  lemma DivInRange(ty: Ty, a: int, b: int)
    requires ty.IntT? && InRange(ty, a) && InRange(ty, b) && Defined(Div, ty, a, b)
    ensures InRange(ty, TruncDiv(a, b)) && InRange(ty, TruncRem(a, b))
    ensures !ty.signed ==> TruncDiv(a, b) == a / b && TruncRem(a, b) == a % b
  {
    if ty.signed { DivInRangeSigned(Pow2(Bits(ty)), a, b); } else { DivInRangePlain(Pow2(Bits(ty)), a, b); }
  }

  lemma DivInRangePlain(m: int, a: int, b: int)
    requires 0 <= a < m && 0 <= b < m && b != 0
    ensures 0 <= TruncDiv(a, b) < m && 0 <= TruncRem(a, b) < m
    ensures TruncDiv(a, b) == a / b && TruncRem(a, b) == a % b
  {
    TruncDivRange(a, b);
  }

  lemma DivInRangeSigned(m: int, a: int, b: int)
    requires -m <= 2 * a < m && -m <= 2 * b < m && b != 0 && !(2 * a == -m && b == -1)
    ensures -m <= 2 * TruncDiv(a, b) < m && -m <= 2 * TruncRem(a, b) < m
  {
    TruncDivRange(a, b);
    var q := TruncDiv(a, b);
    if 2 * Abs(q) == m {
      assert Abs(q) == Abs(a) && 2 * a == -m;
      assert b == 1;
    }
  }

  /** The comparison chosen for a type orders patterns as the values are ordered. */
  lemma CompareAgrees(op: CmpOp, ty: Ty, a: int, b: int)
    requires InRange(ty, a) && InRange(ty, b)
    ensures MCmp(LowerCmp(op, Signed(ty)), Bits(ty), Enc(Bits(ty), a), Enc(Bits(ty), b)) == SCmp(op, a, b)
  {
    DecEnc(ty, a);
    DecEnc(ty, b);
  }

  /** `xor v, -1` is the complement and `sub 0, v` the wrapped negation. */
  lemma {:induction false} XorOnes(n: nat, a: nat)
    requires a < Pow2(n)
    ensures Bitwise(BXor, n, a, Pow2(n) - 1) == Pow2(n) - 1 - a
  {
    Pow2Small();
    if n > 0 {
      var m := Pow2(n - 1);
      Pow2Next(n - 1);
      assert (2 * m - 1) % 2 == 1 && (2 * m - 1) / 2 == m - 1;
      XorOnes(n - 1, a / 2);
    }
  }

  /** The source's prefix operators on values. */
  function SUn(op: UnOp, ty: Ty, a: int): int {
    match op
    case Neg => Wrap(ty, -a)
    case Not => if a == 0 then 1 else 0
    case Compl => Wrap(ty, -a - 1)
  }

  lemma NegAgrees(ty: Ty, a: int)
    requires InRange(ty, a)
    ensures InRange(ty, SUn(Neg, ty, a))
    ensures MBin(MSub, Bits(ty), 0, Enc(Bits(ty), a)) == Some(Enc(Bits(ty), SUn(Neg, ty, a)))
  {
    var n := Bits(ty);
    WrapFacts(ty, -a);
    EncSub(n, 0, a);
    EncSmall(n, 0);
  }

  lemma ComplAgrees(ty: Ty, a: int)
    requires InRange(ty, a)
    ensures InRange(ty, SUn(Compl, ty, a))
    ensures MBin(MXor, Bits(ty), Enc(Bits(ty), a), Enc(Bits(ty), -1)) == Some(Enc(Bits(ty), SUn(Compl, ty, a)))
  {
    var n := Bits(ty);
    var m := Pow2(n);
    WrapFacts(ty, -a - 1);
    EncShift(n, -1, 1);
    EncSmall(n, m - 1);
    XorOnes(n, Enc(n, a));
    var q := EncSplit(n, a);
    assert m - 1 - Enc(n, a) == (-a - 1) + (q + 1) * m;
    EncShift(n, -a - 1, q + 1);
    EncSmall(n, m - 1 - Enc(n, a));
  }
}
