/** Running the lines emitted for an expression gives the expression's value, calls and outcome. */
module SimExpr {
  import opened Words
  import opened Source
  import opened Target
  import opened Lowering
  import opened Checked
  import opened SimBase

  ghost predicate Sim(Z: Site, e: Expr, c: Ctx, s: Out, env: Env, tr: seq<Event>, cfg: Cfg, q: Got) {
    ExprPost(Z, c, Z.f.ty(e, c), s.n, Z.f.emit(e, c, s).0, Z.f.emit(e, c, s).1, cfg, Z.f.eval(e, env, tr), q)
  }

  /** What every emission gives. */
  lemma EmitFacts(Z: Site, e: Expr, c: Ctx, s: Out)
    requires Genuine(Z)
    ensures Ext(s, Z.f.emit(e, c, s).0) && Bound(Z.f.emit(e, c, s).1, Z.f.emit(e, c, s).0.n)
    ensures !s.terminated ==> !Z.f.emit(e, c, s).0.terminated
  {
    assert Z.f.emit(e, c, s) == CExpr(e, c, s);
  }

  // --- the lines of each tail, in place -------------------------------------------------

  lemma NotLines(Z: Site, w: nat, x: Opd, s: Out)
    requires Fits(Z, UnaryTail(Not, w, x, s))
    ensures var p, r := Pos(Z, s), s.n + 1;
            && Has(Z, p, Icmp(r + 1, PNe, w, x, Const(0))) && Has(Z, p + 1, Bin(r + 2, MXor, 1, Reg(r + 1), Const(1)))
            && Has(Z, p + 2, Zext(r, Reg(r + 2), 8)) && Pos(Z, UnaryTail(Not, w, x, s)) == p + 3
  {
    var t, i := UnaryTail(Not, w, x, s), |s.body|;
    Place(Z, t, i); Place(Z, t, i + 1); Place(Z, t, i + 2);
  }

  lemma CompareLines(Z: Site, op: CmpOp, ty: Ty, x: Opd, y: Opd, s: Out)
    requires Fits(Z, CompareTail(op, ty, x, y, s))
    ensures var p, r := Pos(Z, s), s.n + 1;
            && Has(Z, p, Icmp(r, LowerCmp(op, Signed(ty)), Bits(ty), x, y)) && Has(Z, p + 1, Zext(r + 1, Reg(r), 8))
            && Pos(Z, CompareTail(op, ty, x, y, s)) == p + 2
  {
    var t, i := CompareTail(op, ty, x, y, s), |s.body|;
    Place(Z, t, i); Place(Z, t, i + 1);
  }

  lemma LogicMidLines(Z: Site, isOr: bool, s0: Out, x: Opd, s: Out)
    requires Fits(Z, LogicMid(isOr, s0, x, s))
    ensures var p, rhs, done := Pos(Z, s), L(ScRhs, s0.lbl + 1), L(ScDone, s0.lbl + 2);
            && Has(Z, p, Store(8, Const(if isOr then 1 else 0), s0.n + 1))
            && Has(Z, p + 1, CondBr(x, if isOr then done else rhs, if isOr then rhs else done))
            && Has(Z, p + 2, Label(rhs)) && Pos(Z, LogicMid(isOr, s0, x, s)) == p + 3
  {
    var t, i := LogicMid(isOr, s0, x, s), |s.body|;
    Place(Z, t, i); Place(Z, t, i + 1); Place(Z, t, i + 2);
  }

  lemma LogicTailLines(Z: Site, s0: Out, y: Opd, s: Out)
    requires Fits(Z, LogicTail(s0, y, s)) && !s.terminated
    ensures var p, r, slot, done := Pos(Z, s), s.n + 1, s0.n + 1, L(ScDone, s0.lbl + 2);
            && Has(Z, p, Zext(r, y, 8)) && Has(Z, p + 1, Store(8, Reg(r), slot)) && Has(Z, p + 2, Br(done))
            && Has(Z, p + 3, Label(done)) && Has(Z, p + 4, Load(r + 1, 8, slot))
            && Pos(Z, LogicTail(s0, y, s)) == p + 5 && LogicTail(s0, y, s).n == r + 1
  {
    var r, slot, done := s.n + 1, s0.n + 1, L(ScDone, s0.lbl + 2);
    var xs := [Zext(r, y, 8), Store(8, Reg(r), slot), Br(done), Label(done), Load(r + 1, 8, slot)];
    assert LogicTail(s0, y, s).body == s.body + xs;
    PlaceAll(Z, LogicTail(s0, y, s), s, xs);
    assert Has(Z, Pos(Z, s) + 0, xs[0]) && Has(Z, Pos(Z, s) + 1, xs[1]) && Has(Z, Pos(Z, s) + 2, xs[2]);
    assert Has(Z, Pos(Z, s) + 3, xs[3]) && Has(Z, Pos(Z, s) + 4, xs[4]);
  }

  lemma ErrLines(Z: Site, x: Opd, ty: Ty, s: Out)
    requires Fits(Z, ErrTest(x, ty, s))
    ensures var p, r := Pos(Z, s), s.n + 1;
            && Has(Z, p, Extract(r, x, if ty.NilT? then 0 else 1, 32))
               && Has(Z, p + 1, Icmp(r + 1, PNe, 32, Reg(r), Const(0)))
            && Pos(Z, ErrTest(x, ty, s)) == p + 2
  {
    var t, i := ErrTest(x, ty, s), |s.body|;
    Place(Z, t, i); Place(Z, t, i + 1);
  }

  /** `h` ends a Result's test with a branch and the label of its error path. */
  ghost predicate TestHead(Z: Site, x: Opd, ty: Ty, s: Out, err: Lbl, ok: Lbl, h: Out) {
    var p := Pos(Z, s);
    && Fits(Z, ErrTest(x, ty, s)) && Has(Z, p + 2, CondBr(Reg(s.n + 2), err, ok)) && Has(Z, p + 3, Label(err))
       && Pos(Z, h) == p + 4
  }

  lemma RelayHeadLines(Z: Site, x: Opd, ty: Ty, s: Out)
    requires Fits(Z, RelayHead(x, ty, s))
    ensures TestHead(Z, x, ty, s, L(RelayErr, s.lbl + 1), L(RelayOk, s.lbl + 2), RelayHead(x, ty, s))
  {
    var t, i := RelayHead(x, ty, s), |s.body|;
    FitsExt(Z, ErrTest(x, ty, s), t);
    Place(Z, t, i + 2); Place(Z, t, i + 3);
  }

  lemma EmphHeadLines(Z: Site, x: Opd, ty: Ty, s: Out)
    requires Fits(Z, EmphHead(x, ty, s))
    ensures TestHead(Z, x, ty, s, L(EmphErr, s.lbl + 1), L(EmphOk, s.lbl + 2), EmphHead(x, ty, s))
  {
    var t, i := EmphHead(x, ty, s), |s.body|;
    FitsExt(Z, ErrTest(x, ty, s), t);
    Place(Z, t, i + 2); Place(Z, t, i + 3);
  }

  lemma EmphTailLines(Z: Site, s0: Out, y: Opd, s: Out)
    requires Fits(Z, EmphTail(s0, y, s))
    ensures var p, r := Pos(Z, s), s.n + 1;
            && Has(Z, p, CallFailsafe(r, y)) && Has(Z, p + 1, CallExit(Reg(r)))
               && Has(Z, p + 3, Label(L(EmphOk, s0.lbl + 2)))
            && Pos(Z, EmphTail(s0, y, s)) == p + 4
  {
    var t, i := EmphTail(s0, y, s), |s.body|;
    Place(Z, t, i); Place(Z, t, i + 1); Place(Z, t, i + 3);
  }

  lemma UnwrapHeadLines(Z: Site, x: Opd, ty: Ty, s: Out)
    requires Fits(Z, UnwrapHead(x, ty, s))
    ensures TestHead(Z, x, ty, s, L(QpDef, s.lbl + 1), L(QpOk, s.lbl + 2), UnwrapHead(x, ty, s))
  {
    var t, i := UnwrapHead(x, ty, s), |s.body|;
    FitsExt(Z, ErrTest(x, ty, s), t);
    Place(Z, t, i + 2); Place(Z, t, i + 3);
  }

  lemma UnwrapTailLines(Z: Site, s0: Out, x: Opd, ty: Ty, y: Opd, s: Out)
    requires Fits(Z, UnwrapTail(s0, x, ty, y, s))
    ensures var p, w, slot, r := Pos(Z, s), Bits(ty), s0.n + 3, s.n + 1;
            var ok, done := L(QpOk, s0.lbl + 2), L(QpDone, s0.lbl + 3);
            && Has(Z, p, Store(w, y, slot)) && Has(Z, p + 1, Br(done)) && Has(Z, p + 2, Label(ok))
            && Has(Z, p + 3, Extract(r, x, 0, w)) && Has(Z, p + 4, Store(w, Reg(r), slot)) && Has(Z, p + 5, Br(done))
            && Has(Z, p + 6, Label(done)) && Has(Z, p + 7, Load(r + 1, w, slot))
            && Pos(Z, UnwrapTail(s0, x, ty, y, s)) == p + 8 && UnwrapTail(s0, x, ty, y, s).n == r + 1
  {
    var xs := UnwrapShape(s0, x, ty, y, s);
    PlaceAll(Z, UnwrapTail(s0, x, ty, y, s), s, xs);
    assert Has(Z, Pos(Z, s) + 0, xs[0]) && Has(Z, Pos(Z, s) + 1, xs[1]) && Has(Z, Pos(Z, s) + 2, xs[2])
        && Has(Z, Pos(Z, s) + 3, xs[3]);
    assert Has(Z, Pos(Z, s) + 4, xs[4]) && Has(Z, Pos(Z, s) + 5, xs[5]) && Has(Z, Pos(Z, s) + 6, xs[6])
        && Has(Z, Pos(Z, s) + 7, xs[7]);
  }

  lemma UnwrapShape(s0: Out, x: Opd, ty: Ty, y: Opd, s: Out) returns (xs: seq<Line>)
    ensures var w, slot, r, t := Bits(ty), s0.n + 3, s.n + 1, UnwrapTail(s0, x, ty, y, s);
            var ok, done := L(QpOk, s0.lbl + 2), L(QpDone, s0.lbl + 3);
            && t.n == r + 1 && t.body == s.body + xs && |xs| == 8
            && xs[0] == Store(w, y, slot) && xs[1] == Br(done) && xs[2] == Label(ok) && xs[3] == Extract(r, x, 0, w)
            && xs[4] == Store(w, Reg(r), slot) && xs[5] == Br(done) && xs[6] == Label(done)
               && xs[7] == Load(r + 1, w, slot)
  {
    var w, slot, r := Bits(ty), s0.n + 3, s.n + 1;
    var ok, done := L(QpOk, s0.lbl + 2), L(QpDone, s0.lbl + 3);
    xs := [Store(w, y, slot), Br(done), Label(ok), Extract(r, x, 0, w), Store(w, Reg(r), slot), Br(done), Label(done),
        Load(r + 1, w, slot)];
  }

  // --- variables -------------------------------------------------------------------------

  lemma VarEq(Z: Site, x: string, c: Ctx, s: Out, env: Env, tr: seq<Event>)
    requires Genuine(Z) && c.g == Z.g && Z.f.ok(Var(x), c)
    ensures x in c.locals && Z.f.ty(Var(x), c) == Sc(c.locals[x].ty)
    ensures Z.f.emit(Var(x), c, s) == (VarTail(c.locals[x], s), Reg(s.n + 1))
    ensures x in env ==> Z.f.eval(Var(x), env, tr) == EV(S(env[x].ty, env[x].v), tr)
  {
    assert Lowers(Var(x), c);
    assert Z.f.emit(Var(x), c, s) == CExpr(Var(x), c, s);
    assert Z.f.ty(Var(x), c) == XTyOf(Var(x), c);
    assert Z.f.eval(Var(x), env, tr) == Eval(Z.w.o, Z.g, Var(x), env, tr);
  }

  lemma SimVar(Z: Site, x: string, c: Ctx, s: Out, env: Env, tr: seq<Event>, cfg: Cfg) returns (q: Got)
    requires Pre(Z, c, s, env, tr, cfg) && Z.f.ok(Var(x), c) && Fits(Z, Z.f.emit(Var(x), c, s).0)
    ensures Sim(Z, Var(x), c, s, env, tr, cfg, q)
  {
    VarEq(Z, x, c, s, env, tr);
    var l, v := c.locals[x], Enc(Bits(env[x].ty), env[x].v);
    Put(Z, s, Load(s.n + 1, Bits(l.ty), l.slot), VarTail(l, s));
    LoadStep(Z, s.n, s.n + 1, Bits(l.ty), l.slot, v, cfg, Here(cfg, s));
    q := On(Here(cfg, s), SetReg(cfg, s.n + 1, Word(Bits(l.ty), v)));
  }

  // --- prefix operators ---------------------------------------------------------------------

  lemma UnaryEq(Z: Site, op: UnOp, a: Expr, c: Ctx, s: Out, env: Env, tr: seq<Event>)
    requires Genuine(Z) && c.g == Z.g && Z.f.ok(Unary(op, a), c)
    ensures Z.f.ok(a, c) && Z.f.ty(a, c).Sc? && (op.Not? || Z.f.ty(a, c).ty.IntT?)
    ensures Z.f.ty(Unary(op, a), c) == if op.Not? then Sc(BoolT) else Z.f.ty(a, c)
    ensures var (s1, x) := Z.f.emit(a, c, s);
            Z.f.emit(Unary(op, a), c, s) == (UnaryTail(op, Bits(Z.f.ty(a, c).ty), x, s1), Reg(s1.n + 1))
    ensures var r := Z.f.eval(a, env, tr);
            Z.f.eval(Unary(op, a), env, tr) == if r.EV? then SUnary(op, r.val, r.tr) else r
  {
    var e := Unary(op, a);
    assert Lowers(e, c) && Lowers(a, c);
    assert Z.f.emit(e, c, s) == CExpr(e, c, s) && Z.f.emit(a, c, s) == CExpr(a, c, s);
    assert Z.f.ty(e, c) == XTyOf(e, c) && Z.f.ty(a, c) == XTyOf(a, c);
    assert Z.f.eval(e, env, tr) == Eval(Z.w.o, Z.g, e, env, tr) && Z.f.eval(a, env, tr) == Eval(Z.w.o, Z.g, a, env, tr);
  }

  lemma UnarySteps(Z: Site, op: UnOp, ty: Ty, x: Opd, v: int, n: nat, s: Out, cfg: Cfg, q0: Got) returns (q: Got)
    requires Sound(Z) && Ran(Z, n, cfg, q0) && At(Z, s, q0.cfg) && n <= s.n && Fits(Z, UnaryTail(op, Bits(ty), x, s))
    requires InRange(ty, v) && Read(Z.w, q0.cfg, Bits(ty), x) == Some(Enc(Bits(ty), v))
    ensures Reached(Z, n, UnaryTail(op, Bits(ty), x, s), q0.cfg.tr, cfg, q)
    ensures Holds(Z.w, q.cfg, Reg(s.n + 1), S(if op.Not? then BoolT else ty, SUn(op, ty, v)))
  {
    match op {
      case Neg => q := NegSteps(Z, ty, x, v, n, s, cfg, q0);
      case Compl => q := ComplSteps(Z, ty, x, v, n, s, cfg, q0);
      case Not => q := NotRun(Z, ty, x, v, n, s, cfg, q0);
    }
  }

  lemma NotRun(Z: Site, ty: Ty, x: Opd, v: int, n: nat, s: Out, cfg: Cfg, q0: Got) returns (q: Got)
    requires Sound(Z) && Ran(Z, n, cfg, q0) && At(Z, s, q0.cfg) && n <= s.n && Fits(Z, UnaryTail(Not, Bits(ty), x, s))
    requires InRange(ty, v) && Read(Z.w, q0.cfg, Bits(ty), x) == Some(Enc(Bits(ty), v))
    ensures Reached(Z, n, UnaryTail(Not, Bits(ty), x, s), q0.cfg.tr, cfg, q)
    ensures Holds(Z.w, q.cfg, Reg(s.n + 1), S(BoolT, SUn(Not, ty, v)))
  {
    NotLines(Z, Bits(ty), x, s);
    q := NotSteps(Z, ty, x, v, s.n + 1, n, cfg, q0);
  }

  /** One operator line, with its result known. */
  lemma BinRun(Z: Site, op: MOp, ty: Ty, a: Opd, b: Opd, av: nat, bv: nat, v: int, n: nat, s: Out, s1: Out, cfg: Cfg,
          q0: Got) returns (q: Got)
    requires Sound(Z) && Ran(Z, n, cfg, q0) && At(Z, s, q0.cfg) && n <= s.n && Fits(Z, s1)
             && s1 == Ins1(s, Bin(s.n + 1, op, Bits(ty), a, b))
    requires Read(Z.w, q0.cfg, Bits(ty), a) == Some(av) && Read(Z.w, q0.cfg, Bits(ty), b) == Some(bv)
    requires MBin(op, Bits(ty), av, bv) == Some(Enc(Bits(ty), v)) && InRange(ty, v)
    ensures Reached(Z, n, s1, q0.cfg.tr, cfg, q) && Holds(Z.w, q.cfg, Reg(s.n + 1), S(ty, v))
  {
    var w, r := Bits(ty), s.n + 1;
    Put(Z, s, Bin(r, op, w, a, b), s1);
    BinStep(Z, n, r, op, w, a, b, av, bv, cfg, q0);
    q := On(q0, SetReg(q0.cfg, r, Word(w, Enc(w, v))));
  }

  lemma NegSteps(Z: Site, ty: Ty, x: Opd, v: int, n: nat, s: Out, cfg: Cfg, q0: Got) returns (q: Got)
    requires Sound(Z) && Ran(Z, n, cfg, q0) && At(Z, s, q0.cfg) && n <= s.n && Fits(Z, UnaryTail(Neg, Bits(ty), x, s))
    requires InRange(ty, v) && Read(Z.w, q0.cfg, Bits(ty), x) == Some(Enc(Bits(ty), v))
    ensures Reached(Z, n, UnaryTail(Neg, Bits(ty), x, s), q0.cfg.tr, cfg, q)
    ensures Holds(Z.w, q.cfg, Reg(s.n + 1), S(ty, SUn(Neg, ty, v)))
  {
    var w := Bits(ty);
    NegAgrees(ty, v);
    EncSmall(w, 0);
    q := BinRun(Z, MSub, ty, Const(0), x, 0, Enc(w, v), SUn(Neg, ty, v), n, s, UnaryTail(Neg, w, x, s), cfg, q0);
  }

  lemma ComplSteps(Z: Site, ty: Ty, x: Opd, v: int, n: nat, s: Out, cfg: Cfg, q0: Got) returns (q: Got)
    requires Sound(Z) && Ran(Z, n, cfg, q0) && At(Z, s, q0.cfg) && n <= s.n && Fits(Z, UnaryTail(Compl, Bits(ty), x, s))
    requires InRange(ty, v) && Read(Z.w, q0.cfg, Bits(ty), x) == Some(Enc(Bits(ty), v))
    ensures Reached(Z, n, UnaryTail(Compl, Bits(ty), x, s), q0.cfg.tr, cfg, q)
    ensures Holds(Z.w, q.cfg, Reg(s.n + 1), S(ty, SUn(Compl, ty, v)))
  {
    var w := Bits(ty);
    ComplAgrees(ty, v);
    q := BinRun(Z, MXor, ty, x, Const(-1), Enc(w, v), Enc(w, -1), SUn(Compl, ty, v), n, s, UnaryTail(Compl, w, x, s),
        cfg, q0);
  }

  lemma NotTest(Z: Site, ty: Ty, x: Opd, v: int, r: nat, n: nat, cfg: Cfg, q0: Got) returns (q: Got)
    requires Sound(Z) && Ran(Z, n, cfg, q0) && n < r && Has(Z, q0.cfg.pc, Icmp(r, PNe, Bits(ty), x, Const(0)))
    requires InRange(ty, v) && Read(Z.w, q0.cfg, Bits(ty), x) == Some(Enc(Bits(ty), v))
    ensures Ran(Z, n, cfg, q) && q.cfg == SetReg(q0.cfg, r, Word(1, if v != 0 then 1 else 0))
  {
    NotZero(ty, v);
    IcmpStep(Z, n, r, PNe, Bits(ty), x, Const(0), Enc(Bits(ty), v), Enc(Bits(ty), 0), cfg, q0);
    q := On(q0, SetReg(q0.cfg, r, Word(1, if v != 0 then 1 else 0)));
  }

  lemma NotFlip(Z: Site, b: nat, r: nat, n: nat, cfg: Cfg, q0: Got) returns (q: Got)
    requires Sound(Z) && Ran(Z, n, cfg, q0) && n < r && b <= 1
    requires Has(Z, q0.cfg.pc, Bin(r + 1, MXor, 1, Reg(r), Const(1))) && Read(Z.w, q0.cfg, 1, Reg(r)) == Some(b)
    ensures Ran(Z, n, cfg, q) && q.cfg == SetReg(q0.cfg, r + 1, Word(1, 1 - b))
  {
    Bit(1);
    FlipBit(b);
    BinStep(Z, n, r + 1, MXor, 1, Reg(r), Const(1), b, 1, cfg, q0);
    q := On(q0, SetReg(q0.cfg, r + 1, Word(1, 1 - b)));
  }

  lemma NotSteps(Z: Site, ty: Ty, x: Opd, v: int, r: nat, n: nat, cfg: Cfg, q0: Got) returns (q: Got)
    requires Sound(Z) && Ran(Z, n, cfg, q0) && n < r
    requires Has(Z, q0.cfg.pc, Icmp(r + 1, PNe, Bits(ty), x, Const(0)))
    requires Has(Z, q0.cfg.pc + 1, Bin(r + 2, MXor, 1, Reg(r + 1), Const(1)))
             && Has(Z, q0.cfg.pc + 2, Zext(r, Reg(r + 2), 8))
    requires InRange(ty, v) && Read(Z.w, q0.cfg, Bits(ty), x) == Some(Enc(Bits(ty), v))
    ensures Ran(Z, n, cfg, q) && q.cfg.pc == q0.cfg.pc + 3 && q.cfg.tr == q0.cfg.tr
    ensures Holds(Z.w, q.cfg, Reg(r), S(BoolT, SUn(Not, ty, v)))
  {
    var b := if v != 0 then 1 else 0;
    var q1 := NotTest(Z, ty, x, v, r + 1, n, cfg, q0);
    var q2 := NotFlip(Z, b, r + 1, n, cfg, q1);
    ZextStep(Z, n, r, Reg(r + 2), 8, 1 - b, cfg, q2);
    q := On(q2, SetReg(q2.cfg, r, Word(8, 1 - b)));
    Bit(1 - b);
  }

  lemma SimUnary(Z: Site, op: UnOp, a: Expr, c: Ctx, s: Out, env: Env, tr: seq<Event>, cfg: Cfg) returns (q: Got)
    requires Pre(Z, c, s, env, tr, cfg) && Z.f.ok(Unary(op, a), c) && Fits(Z, Z.f.emit(Unary(op, a), c, s).0)
    ensures Sim(Z, Unary(op, a), c, s, env, tr, cfg, q)
    decreases Unary(op, a), 0
  {
    UnaryEq(Z, op, a, c, s, env, tr);
    EmitFacts(Z, a, c, s);
    var (s1, x) := Z.f.emit(a, c, s);
    var sF := Z.f.emit(Unary(op, a), c, s).0;
    FitsExt(Z, s1, sF);
    q := SimExpr(Z, a, c, s, env, tr, cfg);
    var out := Z.f.eval(a, env, tr);
    if out.EV? {
      q := UnarySteps(Z, op, out.val.ty, x, out.val.v, s.n, s1, cfg, q);
    }
  }

  // --- two operands ----------------------------------------------------------------------------

  /** Two operands in turn: the first survives the second. */
  lemma SimTwo(Z: Site, e: Expr, a: Expr, b: Expr, c: Ctx, s: Out, env: Env, tr: seq<Event>, cfg: Cfg) returns (q: Got)
    requires a < e && b < e
    requires Pre(Z, c, s, env, tr, cfg) && Z.f.ok(a, c) && Z.f.ok(b, c)
    requires Fits(Z, Z.f.emit(b, c, Z.f.emit(a, c, s).0).0)
    ensures var (s1, x) := Z.f.emit(a, c, s); var (s2, y) := Z.f.emit(b, c, s1);
            var va := Z.f.eval(a, env, tr);
            if !va.EV? then StopPost(Z, c, s.n, cfg, va, q)
            else
              var vb := Z.f.eval(b, env, va.tr);
              && ExprPost(Z, c, Z.f.ty(b, c), s.n, s2, y, cfg, vb, q)
              && (vb.EV? ==> Holds(Z.w, q.cfg, x, va.val)) && TyIs(va.val, Z.f.ty(a, c))
    decreases e, 0
  {
    var (s1, x) := Z.f.emit(a, c, s);
    var (s2, y) := Z.f.emit(b, c, s1);
    EmitFacts(Z, a, c, s);
    EmitFacts(Z, b, c, s1);
    FitsExt(Z, s1, s2);
    q := SimExpr(Z, a, c, s, env, tr, cfg);
    var va := Z.f.eval(a, env, tr);
    if va.EV? {
      KeepPre(Z, c, s, env, tr, cfg, s.n, s1, va.tr, q.cfg);
      var q1 := SimExpr(Z, b, c, s1, env, va.tr, q.cfg);
      Both(Z, c, s.n, cfg, q, x, va.val, s1.n, Z.f.ty(b, c), s2, y, Z.f.eval(b, env, va.tr), q1);
      q := q1.(k := q.k + q1.k);
    }
  }

  lemma ArithEq(Z: Site, op: BinOp, a: Expr, b: Expr, c: Ctx, s: Out, env: Env, tr: seq<Event>)
    requires Genuine(Z) && c.g == Z.g && Z.f.ok(Arith(op, a, b), c)
    ensures Z.f.ok(a, c) && Z.f.ok(b, c) && Z.f.ty(a, c).Sc? && Z.f.ty(a, c).ty.IntT? && Z.f.ty(b, c) == Z.f.ty(a, c)
    ensures Z.f.ty(Arith(op, a, b), c) == Z.f.ty(a, c)
    ensures var (s1, x) := Z.f.emit(a, c, s); var (s2, y) := Z.f.emit(b, c, s1);
            Z.f.emit(Arith(op, a, b), c, s) == (ArithTail(op, Z.f.ty(a, c).ty, x, y, s2), Reg(s2.n + 1))
    ensures var r := Z.f.eval(a, env, tr); var e := Z.f.eval(Arith(op, a, b), env, tr);
            if !r.EV? then e == r
            else var r1 := Z.f.eval(b, env, r.tr); e == if r1.EV? then SArith(op, r.val, r1.val, r1.tr) else r1
  {
    var e := Arith(op, a, b);
    assert Lowers(e, c) && Lowers(a, c) && Lowers(b, c);
    var s1, r := CExpr(a, c, s).0, Eval(Z.w.o, Z.g, a, env, tr);
    assert Z.f.emit(e, c, s) == CExpr(e, c, s) && Z.f.emit(a, c, s) == CExpr(a, c, s)
        && Z.f.emit(b, c, s1) == CExpr(b, c, s1);
    assert Z.f.ty(e, c) == XTyOf(e, c) && Z.f.ty(a, c) == XTyOf(a, c) && Z.f.ty(b, c) == XTyOf(b, c);
    assert Z.f.eval(e, env, tr) == Eval(Z.w.o, Z.g, e, env, tr) && Z.f.eval(a, env, tr) == r;
    assert r.EV? ==> Z.f.eval(b, env, r.tr) == Eval(Z.w.o, Z.g, b, env, r.tr);
  }

  lemma ArithSteps(Z: Site, op: BinOp, c: Ctx, x: Opd, y: Opd, va: Val, vb: Val, n: nat, s: Out, tr: seq<Event>,
          cfg: Cfg, q0: Got) returns (q: Got)
    requires Sound(Z) && Reached(Z, n, s, tr, cfg, q0) && n <= s.n && Fits(Z, ArithTail(op, va.ty, x, y, s))
    requires va.S? && vb.S? && va.ty.IntT? && va.ty == vb.ty && Holds(Z.w, q0.cfg, x, va) && Holds(Z.w, q0.cfg, y, vb)
    ensures ExprPost(Z, c, Sc(va.ty), n, ArithTail(op, va.ty, x, y, s), Reg(s.n + 1), cfg, SArith(op, va, vb, tr), q)
  {
    var ty, w := va.ty, Bits(va.ty);
    ArithAgrees(op, ty, va.v, vb.v);
    Put(Z, s, Bin(s.n + 1, LowerOp(op, ty.signed), w, x, y), ArithTail(op, ty, x, y, s));
    BinStep(Z, n, s.n + 1, LowerOp(op, ty.signed), w, x, y, Enc(w, va.v), Enc(w, vb.v), cfg, q0);
    var z := SBin(op, ty, va.v, vb.v);
    q := if z.Some? then On(q0, SetReg(q0.cfg, s.n + 1, Word(w, Enc(w, z.value)))) else q0.(k := q0.k + 1);
  }

  lemma SimArith(Z: Site, op: BinOp, a: Expr, b: Expr, c: Ctx, s: Out, env: Env, tr: seq<Event>, cfg: Cfg)
          returns (q: Got)
    requires Pre(Z, c, s, env, tr, cfg) && Z.f.ok(Arith(op, a, b), c) && Fits(Z, Z.f.emit(Arith(op, a, b), c, s).0)
    ensures Sim(Z, Arith(op, a, b), c, s, env, tr, cfg, q)
    decreases Arith(op, a, b), 1
  {
    ArithEq(Z, op, a, b, c, s, env, tr);
    var (s1, x) := Z.f.emit(a, c, s);
    var (s2, y) := Z.f.emit(b, c, s1);
    EmitFacts(Z, a, c, s);
    EmitFacts(Z, b, c, s1);
    FitsExt(Z, s2, ArithTail(op, Z.f.ty(a, c).ty, x, y, s2));
    q := SimTwo(Z, Arith(op, a, b), a, b, c, s, env, tr, cfg);
    var va := Z.f.eval(a, env, tr);
    if va.EV? {
      var vb := Z.f.eval(b, env, va.tr);
      if vb.EV? { q := ArithSteps(Z, op, c, x, y, va.val, vb.val, s.n, s2, vb.tr, cfg, q); }
    }
  }

  lemma CompareEq(Z: Site, op: CmpOp, a: Expr, b: Expr, c: Ctx, s: Out, env: Env, tr: seq<Event>)
    requires Genuine(Z) && c.g == Z.g && Z.f.ok(Compare(op, a, b), c)
    ensures Z.f.ok(a, c) && Z.f.ok(b, c) && Z.f.ty(a, c).Sc? && Z.f.ty(b, c) == Z.f.ty(a, c)
    ensures Z.f.ty(Compare(op, a, b), c) == Sc(BoolT)
    ensures var (s1, x) := Z.f.emit(a, c, s); var (s2, y) := Z.f.emit(b, c, s1);
            Z.f.emit(Compare(op, a, b), c, s) == (CompareTail(op, Z.f.ty(a, c).ty, x, y, s2), Reg(s2.n + 2))
    ensures var r := Z.f.eval(a, env, tr); var e := Z.f.eval(Compare(op, a, b), env, tr);
            if !r.EV? then e == r
            else
              var r1 := Z.f.eval(b, env, r.tr);
              e == if r1.EV? then EV(SBool(SCmp(op, r.val.v, r1.val.v)), r1.tr) else r1
  {
    var e := Compare(op, a, b);
    assert Lowers(e, c) && Lowers(a, c) && Lowers(b, c);
    var s1, r := CExpr(a, c, s).0, Eval(Z.w.o, Z.g, a, env, tr);
    assert Z.f.emit(e, c, s) == CExpr(e, c, s) && Z.f.emit(a, c, s) == CExpr(a, c, s)
        && Z.f.emit(b, c, s1) == CExpr(b, c, s1);
    assert Z.f.ty(e, c) == XTyOf(e, c) && Z.f.ty(a, c) == XTyOf(a, c) && Z.f.ty(b, c) == XTyOf(b, c);
    assert Z.f.eval(e, env, tr) == Eval(Z.w.o, Z.g, e, env, tr) && Z.f.eval(a, env, tr) == r;
    assert r.EV? ==> Z.f.eval(b, env, r.tr) == Eval(Z.w.o, Z.g, b, env, r.tr);
  }

  lemma CompareSteps(Z: Site, op: CmpOp, x: Opd, y: Opd, va: Val, vb: Val, n: nat, s: Out, tr: seq<Event>, cfg: Cfg,
          q0: Got) returns (q: Got)
    requires Sound(Z) && Reached(Z, n, s, tr, cfg, q0) && n <= s.n && Fits(Z, CompareTail(op, va.ty, x, y, s))
    requires va.S? && vb.S? && va.ty == vb.ty && Holds(Z.w, q0.cfg, x, va) && Holds(Z.w, q0.cfg, y, vb)
    ensures Reached(Z, n, CompareTail(op, va.ty, x, y, s), tr, cfg, q)
    ensures Holds(Z.w, q.cfg, Reg(s.n + 2), SBool(SCmp(op, va.v, vb.v)))
  {
    var ty, w, r := va.ty, Bits(va.ty), s.n + 1;
    var p, b := LowerCmp(op, Signed(ty)), if SCmp(op, va.v, vb.v) then 1 else 0;
    CompareAgrees(op, ty, va.v, vb.v);
    CompareLines(Z, op, ty, x, y, s);
    IcmpStep(Z, n, r, p, w, x, y, Enc(w, va.v), Enc(w, vb.v), cfg, q0);
    var q1 := On(q0, SetReg(q0.cfg, r, Word(1, b)));
    ZextStep(Z, n, r + 1, Reg(r), 8, b, cfg, q1);
    Bit(b);
    q := On(q1, SetReg(q1.cfg, r + 1, Word(8, b)));
  }

  lemma SimCompare(Z: Site, op: CmpOp, a: Expr, b: Expr, c: Ctx, s: Out, env: Env, tr: seq<Event>, cfg: Cfg)
          returns (q: Got)
    requires Pre(Z, c, s, env, tr, cfg) && Z.f.ok(Compare(op, a, b), c) && Fits(Z, Z.f.emit(Compare(op, a, b), c, s).0)
    ensures Sim(Z, Compare(op, a, b), c, s, env, tr, cfg, q)
    decreases Compare(op, a, b), 1
  {
    CompareEq(Z, op, a, b, c, s, env, tr);
    var (s1, x) := Z.f.emit(a, c, s);
    var (s2, y) := Z.f.emit(b, c, s1);
    EmitFacts(Z, a, c, s);
    EmitFacts(Z, b, c, s1);
    FitsExt(Z, s2, CompareTail(op, Z.f.ty(a, c).ty, x, y, s2));
    q := SimTwo(Z, Compare(op, a, b), a, b, c, s, env, tr, cfg);
    var va := Z.f.eval(a, env, tr);
    if va.EV? {
      var vb := Z.f.eval(b, env, va.tr);
      if vb.EV? { q := CompareSteps(Z, op, x, y, va.val, vb.val, s.n, s2, vb.tr, cfg, q); }
    }
  }

  // --- conditions and short circuits ----------------------------------------------------------------

  function Cond(Z: Site, e: Expr, c: Ctx, s: Out): (Out, Opd) {
    var (s1, x) := Z.f.emit(e, c, s);
    (CondTail(Bits(Z.f.ty(e, c).ty), x, s1), Reg(s1.n + 1))
  }

  lemma CondFacts(Z: Site, e: Expr, c: Ctx, s: Out)
    requires Genuine(Z)
    ensures Ext(s, Cond(Z, e, c, s).0) && Cond(Z, e, c, s).1 == Reg(Cond(Z, e, c, s).0.n)
    ensures !s.terminated ==> !Cond(Z, e, c, s).0.terminated
  {
    EmitFacts(Z, e, c, s);
  }

  lemma SimCond(Z: Site, e: Expr, c: Ctx, s: Out, env: Env, tr: seq<Event>, cfg: Cfg) returns (q: Got)
    requires Pre(Z, c, s, env, tr, cfg) && Z.f.ok(e, c) && Z.f.ty(e, c).Sc? && Fits(Z, Cond(Z, e, c, s).0)
    ensures CondPost(Z, c, s.n, Cond(Z, e, c, s).0, Cond(Z, e, c, s).1, cfg, Z.f.eval(e, env, tr), q)
    decreases e, 3
  {
    EmitFacts(Z, e, c, s);
    var (s1, x) := Z.f.emit(e, c, s);
    var sF := Cond(Z, e, c, s).0;
    FitsExt(Z, s1, sF);
    q := SimExpr(Z, e, c, s, env, tr, cfg);
    var out := Z.f.eval(e, env, tr);
    if out.EV? {
      Put(Z, s1, Icmp(s1.n + 1, PNe, Bits(out.val.ty), x, Const(0)), sF);
      q := NotTest(Z, out.val.ty, x, out.val.v, s1.n + 1, s.n, cfg, q);
    }
  }

  lemma LogicEmit(Z: Site, isOr: bool, a: Expr, b: Expr, c: Ctx, s: Out)
    requires Genuine(Z)
    ensures var (s1, x) := Cond(Z, a, c, LogicHead(s)); var (s2, y) := Cond(Z, b, c, LogicMid(isOr, s, x, s1));
            Z.f.emit(Logic(isOr, a, b), c, s) == (LogicTail(s, y, s2), Reg(LogicTail(s, y, s2).n))
  {
    var e, h := Logic(isOr, a, b), LogicHead(s);
    var (s1, x) := CCond(a, c, h);
    var m := LogicMid(isOr, s, x, s1);
    CondIs(Z, a, c, h);
    CondIs(Z, b, c, m);
    assert Z.f.emit(e, c, s) == CExpr(e, c, s);
    assert CExpr(e, c, s) == CLogic(isOr, a, b, c, s);
  }

  lemma CondIs(Z: Site, e: Expr, c: Ctx, s: Out)
    requires Genuine(Z)
    ensures Cond(Z, e, c, s) == CCond(e, c, s)
  {
    assert Z.f.emit(e, c, s) == CExpr(e, c, s) && Z.f.ty(e, c) == XTyOf(e, c);
  }

  lemma LogicEq(Z: Site, isOr: bool, a: Expr, b: Expr, c: Ctx, env: Env, tr: seq<Event>)
    requires Genuine(Z) && c.g == Z.g && Z.f.ok(Logic(isOr, a, b), c)
    ensures Z.f.ok(a, c) && Z.f.ok(b, c) && Z.f.ty(a, c).Sc? && Z.f.ty(b, c).Sc?
            && Z.f.ty(Logic(isOr, a, b), c) == Sc(BoolT)
    ensures var r := Z.f.eval(a, env, tr); var e := Z.f.eval(Logic(isOr, a, b), env, tr);
            if !r.EV? then e == r
            else if (r.val.v != 0) == isOr then e == EV(SBool(isOr), r.tr)
            else var r1 := Z.f.eval(b, env, r.tr); e == if r1.EV? then EV(SBool(r1.val.v != 0), r1.tr) else r1
  {
    var e := Logic(isOr, a, b);
    assert Lowers(e, c) && Lowers(a, c) && Lowers(b, c);
    var r := Eval(Z.w.o, Z.g, a, env, tr);
    assert Z.f.ty(e, c) == XTyOf(e, c) && Z.f.ty(a, c) == XTyOf(a, c) && Z.f.ty(b, c) == XTyOf(b, c);
    assert Z.f.eval(e, env, tr) == Eval(Z.w.o, Z.g, e, env, tr) && Z.f.eval(a, env, tr) == r;
    assert r.EV? ==> Z.f.eval(b, env, r.tr) == Eval(Z.w.o, Z.g, b, env, r.tr);
  }

  lemma SlotIn(Z: Site, s: Out, slot: nat, w: nat, sF: Out, cfg: Cfg)
    requires s.head + [Alloca(slot, w)] <= sF.head && Fits(Z, sF) && MemHas(Z.H, cfg.mem)
    ensures slot in cfg.mem && cfg.mem[slot].w == w
  {
    assert sF.head[|s.head|] == (s.head + [Alloca(slot, w)])[|s.head|];
    assert Z.H[|s.head|] == Alloca(slot, w);
  }

  /** The default stored, and the branch on the first operand's truth; `done` is where `sc.done` stands. */
  lemma ByteStored(Z: Site, n: nat, b: nat, slot: nat, cfg: Cfg, q0: Got) returns (q: Got)
    requires Sound(Z) && Ran(Z, n, cfg, q0) && b <= 1 && Has(Z, q0.cfg.pc, Store(8, Const(b), slot))
    requires slot > n && slot in q0.cfg.mem && q0.cfg.mem[slot].w == 8
    ensures Ran(Z, n, cfg, q) && q.cfg == SetMem(q0.cfg, slot, Cell(8, Some(b)))
  {
    Bit(b);
    StoreStep(Z, n, 8, Const(b), b, slot, cfg, q0);
    q := On(q0, SetMem(q0.cfg, slot, Cell(8, Some(b))));
  }

  lemma LogicFront(Z: Site, isOr: bool, s0: Out, x: Opd, v: bool, s: Out, done: nat, cfg: Cfg, q0: Got) returns (q: Got)
    requires Sound(Z) && Ran(Z, s0.n, cfg, q0) && At(Z, s, q0.cfg) && Fits(Z, LogicMid(isOr, s0, x, s)) && Bound(x, s.n)
    requires Read(Z.w, q0.cfg, 1, x) == Some(if v then 1 else 0)
    requires s0.n + 1 in q0.cfg.mem && q0.cfg.mem[s0.n + 1].w == 8 && Has(Z, done, Label(L(ScDone, s0.lbl + 2)))
    ensures Ran(Z, s0.n, cfg, q) && q.cfg.tr == q0.cfg.tr
    ensures s0.n + 1 in q.cfg.mem && q.cfg.mem[s0.n + 1] == Cell(8, Some(if isOr then 1 else 0))
    ensures q.cfg.pc == if v == isOr then done + 1 else Pos(Z, LogicMid(isOr, s0, x, s))
  {
    var b, slot, p := if isOr then 1 else 0, s0.n + 1, Pos(Z, s);
    var rhs, end := L(ScRhs, s0.lbl + 1), L(ScDone, s0.lbl + 2);
    LogicMidLines(Z, isOr, s0, x, s);
    var q1 := ByteStored(Z, s0.n, b, slot, cfg, q0);
    var to := if v == isOr then done else p + 2;
    CondStep(Z, s0.n, x, if isOr then end else rhs, if isOr then rhs else end, if v then 1 else 0, to, cfg, q1);
    q := On(q1, q1.cfg.(pc := to + 1));
  }

  /** The second operand's truth stored, and the branch to the end. */
  lemma LogicBack(Z: Site, s0: Out, y: Opd, v: bool, s: Out, cfg: Cfg, q0: Got) returns (q: Got)
    requires Sound(Z) && Fits(Z, LogicTail(s0, y, s)) && s0.n <= s.n && Ran(Z, s0.n, cfg, q0) && At(Z, s, q0.cfg)
             && !s.terminated
    requires Read(Z.w, q0.cfg, 1, y) == Some(if v then 1 else 0)
    requires s0.n + 1 in q0.cfg.mem && q0.cfg.mem[s0.n + 1].w == 8
    ensures Ran(Z, s0.n, cfg, q) && q.cfg.tr == q0.cfg.tr && q.cfg.pc == Pos(Z, s) + 4
    ensures s0.n + 1 in q.cfg.mem && q.cfg.mem[s0.n + 1] == Cell(8, Some(if v then 1 else 0))
  {
    var b, slot, r, p := if v then 1 else 0, s0.n + 1, s.n + 1, Pos(Z, s);
    LogicTailLines(Z, s0, y, s);
    ZextStep(Z, s0.n, r, y, 8, b, cfg, q0);
    var q1 := On(q0, SetReg(q0.cfg, r, Word(8, b)));
    StoreStep(Z, s0.n, 8, Reg(r), b, slot, cfg, q1);
    var q2 := On(q1, SetMem(q1.cfg, slot, Cell(8, Some(b))));
    BrStep(Z, s0.n, L(ScDone, s0.lbl + 2), p + 3, cfg, q2);
    q := On(q2, q2.cfg.(pc := p + 4));
  }

  lemma LogicLoad(Z: Site, s0: Out, y: Opd, b: bool, s: Out, cfg: Cfg, q0: Got) returns (q: Got)
    requires Sound(Z) && Fits(Z, LogicTail(s0, y, s)) && s0.n <= s.n && Ran(Z, s0.n, cfg, q0) && !s.terminated
    requires q0.cfg.pc == Pos(Z, s) + 4
    requires s0.n + 1 in q0.cfg.mem && q0.cfg.mem[s0.n + 1] == Cell(8, Some(if b then 1 else 0))
    ensures Reached(Z, s0.n, LogicTail(s0, y, s), q0.cfg.tr, cfg, q)
    ensures Holds(Z.w, q.cfg, Reg(LogicTail(s0, y, s).n), SBool(b))
  {
    LogicTailLines(Z, s0, y, s);
    q := ByteLoaded(Z, s0.n, s.n + 2, s0.n + 1, b, cfg, q0);
  }

  lemma ByteLoaded(Z: Site, n: nat, r: nat, slot: nat, b: bool, cfg: Cfg, q0: Got) returns (q: Got)
    requires Sound(Z) && Ran(Z, n, cfg, q0) && r > n && Has(Z, q0.cfg.pc, Load(r, 8, slot))
    requires slot in q0.cfg.mem && q0.cfg.mem[slot] == Cell(8, Some(if b then 1 else 0))
    ensures Ran(Z, n, cfg, q) && q.cfg.tr == q0.cfg.tr && q.cfg.pc == q0.cfg.pc + 1
            && Holds(Z.w, q.cfg, Reg(r), SBool(b))
  {
    var v := if b then 1 else 0;
    LoadStep(Z, n, r, 8, slot, v, cfg, q0);
    q := On(q0, SetReg(q0.cfg, r, Word(8, v)));
    Bit(v);
  }

  lemma LogicFinish(Z: Site, s0: Out, y: Opd, v: bool, s: Out, cfg: Cfg, q0: Got) returns (q: Got)
    requires Sound(Z) && Fits(Z, LogicTail(s0, y, s)) && s0.n <= s.n && Ran(Z, s0.n, cfg, q0) && At(Z, s, q0.cfg)
             && !s.terminated
    requires Read(Z.w, q0.cfg, 1, y) == Some(if v then 1 else 0)
    requires s0.n + 1 in q0.cfg.mem && q0.cfg.mem[s0.n + 1].w == 8
    ensures Reached(Z, s0.n, LogicTail(s0, y, s), q0.cfg.tr, cfg, q)
    ensures Holds(Z.w, q.cfg, Reg(LogicTail(s0, y, s).n), SBool(v))
  {
    q := LogicBack(Z, s0, y, v, s, cfg, q0);
    q := LogicLoad(Z, s0, y, v, s, cfg, q);
  }

  lemma SimLogic(Z: Site, isOr: bool, a: Expr, b: Expr, c: Ctx, s: Out, env: Env, tr: seq<Event>, cfg: Cfg)
          returns (q: Got)
    requires Pre(Z, c, s, env, tr, cfg) && Z.f.ok(Logic(isOr, a, b), c) && Fits(Z, Z.f.emit(Logic(isOr, a, b), c, s).0)
    ensures Sim(Z, Logic(isOr, a, b), c, s, env, tr, cfg, q)
    decreases Logic(isOr, a, b), 1
  {
    LogicEq(Z, isOr, a, b, c, env, tr);
    LogicEmit(Z, isOr, a, b, c, s);
    var h := LogicHead(s);
    var (s1, x) := Cond(Z, a, c, h);
    var m := LogicMid(isOr, s, x, s1);
    var (s2, y) := Cond(Z, b, c, m);
    var sF := LogicTail(s, y, s2);
    CondFacts(Z, a, c, h);
    CondFacts(Z, b, c, m);
    FitsExt(Z, s2, sF);
    FitsExt(Z, m, s2);
    FitsExt(Z, s1, m);
    KeepPre(Z, c, s, env, tr, cfg, s.n, h, tr, cfg);
    q := SimCond(Z, a, c, h, env, tr, cfg);
    var va := Z.f.eval(a, env, tr);
    if va.EV? {
      SlotIn(Z, s, s.n + 1, 8, m, cfg);
      LogicTailLines(Z, s, y, s2);
      q := LogicFront(Z, isOr, s, x, va.val.v != 0, s1, Pos(Z, s2) + 3, cfg, q);
      if (va.val.v != 0) == isOr {
        q := LogicLoad(Z, s, y, isOr, s2, cfg, q);
      } else {
        KeepPre(Z, c, s, env, tr, cfg, s.n, m, va.tr, q.cfg);
        q := LogicSecond(Z, s, b, c, m, env, va.tr, cfg, q);
      }
    } else {
      StopAfter(Z, c, s.n, cfg, Here(cfg, s), h.n, va, q);
    }
  }

  lemma LogicSecond(Z: Site, s0: Out, b: Expr, c: Ctx, m: Out, env: Env, tr: seq<Event>, cfg: Cfg, q0: Got)
          returns (q: Got)
    requires Pre(Z, c, m, env, tr, q0.cfg) && Z.f.ok(b, c) && Z.f.ty(b, c).Sc? && Ran(Z, s0.n, cfg, q0) && s0.n <= m.n
    requires s0.n + 1 in q0.cfg.mem && q0.cfg.mem[s0.n + 1].w == 8
    requires Fits(Z, LogicTail(s0, Cond(Z, b, c, m).1, Cond(Z, b, c, m).0))
    ensures var (s2, y) := Cond(Z, b, c, m); var out := Z.f.eval(b, env, tr); var sF := LogicTail(s0, y, s2);
            if out.EV? then Reached(Z, s0.n, sF, out.tr, cfg, q) && Holds(Z.w, q.cfg, Reg(sF.n), SBool(out.val.v != 0))
            else StopPost(Z, c, s0.n, cfg, out, q)
    decreases b, 4
  {
    var (s2, y) := Cond(Z, b, c, m);
    var sF, out := LogicTail(s0, y, s2), Z.f.eval(b, env, tr);
    CondFacts(Z, b, c, m);
    FitsExt(Z, s2, sF);
    var q1 := SimCond(Z, b, c, m, env, tr, q0.cfg);
    if out.EV? {
      RanAfter(Z, s0.n, cfg, q0, m.n, q1);
      q := LogicFinish(Z, s0, y, out.val.v != 0, s2, cfg, q1.(k := q0.k + q1.k));
    } else {
      StopAfter(Z, c, s0.n, cfg, q0, m.n, out, q1);
      q := q1.(k := q0.k + q1.k);
    }
  }

  // --- calls -------------------------------------------------------------------------------------------

  ghost predicate ArgsPost(Z: Site, c: Ctx, n: nat, s1: Out, xs: seq<(nat, Opd)>, cfg: Cfg, out: AO, q: Got) {
    if out.AV? then Reached(Z, n, s1, out.tr, cfg, q) && ReadAll(Z.w, q.cfg, xs) == Some(ArgWords(out.vals))
    else StopPost(Z, c, n, cfg, out.out, q)
  }

  ghost predicate ArgsOk(Z: Site, args: seq<Expr>, c: Ctx) {
    forall i :: 0 <= i < |args| ==> Z.f.ok(args[i], c) && Z.f.ty(args[i], c).Sc?
  }

  lemma ArgsFacts(Z: Site, args: seq<Expr>, c: Ctx, s: Out)
    requires Genuine(Z)
    ensures Ext(s, Z.f.emits(args, c, s).0) && (!s.terminated ==> !Z.f.emits(args, c, s).0.terminated)
    ensures args == [] ==> Z.f.emits(args, c, s) == (s, [])
    ensures args != [] ==>
              var (s1, x) := Z.f.emit(args[0], c, s); var (s2, xs) := Z.f.emits(args[1..], c, s1);
              Z.f.emits(args, c, s) == (s2, [(Bits(Z.f.ty(args[0], c).ty), x)] + xs)
  {
    assert Z.f.emits(args, c, s) == CArgs(args, c, s);
    if args != [] {
      var s1 := CExpr(args[0], c, s).0;
      assert Z.f.emit(args[0], c, s) == CExpr(args[0], c, s);
      assert Z.f.emits(args[1..], c, s1) == CArgs(args[1..], c, s1);
      assert Z.f.ty(args[0], c) == XTyOf(args[0], c);
    }
  }

  lemma ArgsEval(Z: Site, args: seq<Expr>, env: Env, tr: seq<Event>)
    requires Genuine(Z)
    ensures args == [] ==> Z.f.evals(args, env, tr) == AV([], tr)
    ensures args != [] ==>
              var r := Z.f.eval(args[0], env, tr); var e := Z.f.evals(args, env, tr);
              if !r.EV? then e == AStop(r)
              else
                var rs := Z.f.evals(args[1..], env, r.tr);
                e == if rs.AV? then AV([TV(r.val.ty, r.val.v)] + rs.vals, rs.tr) else rs
  {
    assert Z.f.evals(args, env, tr) == EvalArgs(Z.w.o, Z.g, args, env, tr);
    if args != [] {
      var r := Eval(Z.w.o, Z.g, args[0], env, tr);
      assert Z.f.eval(args[0], env, tr) == r;
      assert r.EV? ==> Z.f.evals(args[1..], env, r.tr) == EvalArgs(Z.w.o, Z.g, args[1..], env, r.tr);
    }
  }

  lemma SimArgs(Z: Site, args: seq<Expr>, c: Ctx, s: Out, env: Env, tr: seq<Event>, cfg: Cfg) returns (q: Got)
    requires Pre(Z, c, s, env, tr, cfg) && ArgsOk(Z, args, c) && Fits(Z, Z.f.emits(args, c, s).0)
    ensures ArgsPost(Z, c, s.n, Z.f.emits(args, c, s).0, Z.f.emits(args, c, s).1, cfg, Z.f.evals(args, env, tr), q)
    decreases args, 0
  {
    ArgsFacts(Z, args, c, s);
    ArgsEval(Z, args, env, tr);
    if args == [] {
      q := Here(cfg, s);
    } else {
      var (s1, x) := Z.f.emit(args[0], c, s);
      EmitFacts(Z, args[0], c, s);
      ArgsFacts(Z, args[1..], c, s1);
      FitsExt(Z, s1, Z.f.emits(args, c, s).0);
      q := SimExpr(Z, args[0], c, s, env, tr, cfg);
      var v := Z.f.eval(args[0], env, tr);
      if v.EV? {
        KeepPre(Z, c, s, env, tr, cfg, s.n, s1, v.tr, q.cfg);
        var q1 := SimArgs(Z, args[1..], c, s1, env, v.tr, q.cfg);
        q := JoinArgs(Z, c, s.n, cfg, q, x, v.val, s1.n, Z.f.emits(args[1..], c, s1).0, Z.f.emits(args[1..], c, s1).1,
                      Z.f.evals(args[1..], env, v.tr), q1);
      }
    }
  }

  lemma JoinArgs(Z: Site, c: Ctx, n: nat, cfg: Cfg, q: Got, x: Opd, v: Val, m: nat, s2: Out, xs: seq<(nat, Opd)>,
          out: AO, q1: Got) returns (q2: Got)
    requires Ran(Z, n, cfg, q) && n <= m && Bound(x, m) && v.S? && Holds(Z.w, q.cfg, x, v)
    requires ArgsPost(Z, c, m, s2, xs, q.cfg, out, q1)
    ensures ArgsPost(Z, c, n, s2, [(Bits(v.ty), x)] + xs, cfg, if out.AV? then AV([TV(v.ty, v.v)] + out.vals, out.tr)
            else out, q2)
  {
    q2 := q1.(k := q.k + q1.k);
    if out.AV? {
      RanAfter(Z, n, cfg, q, m, q1);
      var ys, vals := [(Bits(v.ty), x)] + xs, [TV(v.ty, v.v)] + out.vals;
      assert ys[1..] == xs && vals[1..] == out.vals;
    } else {
      StopAfter(Z, c, n, cfg, q, m, out.out, q1);
    }
  }

  lemma ArgsAreOk(Z: Site, args: seq<Expr>, params: seq<Ty>, c: Ctx)
    requires Genuine(Z) && c.g == Z.g && ArgsTyped(args, params, TypesOf(c.locals), c.g)
             && (NoRelays(args) || !c.inDefer)
    ensures ArgsOk(Z, args, c)
  {
    if args != [] {
      assert Z.f.ok(args[0], c) == Lowers(args[0], c) && Z.f.ty(args[0], c) == XTyOf(args[0], c);
      ArgsAreOk(Z, args[1..], params[1..], c);
      forall i | 0 <= i < |args| ensures Z.f.ok(args[i], c) && Z.f.ty(args[i], c).Sc? {
        if i > 0 { assert args[i] == args[1..][i - 1]; }
      }
    }
  }

  lemma CallEq(Z: Site, f: string, args: seq<Expr>, c: Ctx, s: Out, env: Env, tr: seq<Event>)
    requires Genuine(Z) && c.g == Z.g && Z.f.ok(Call(f, args), c)
    ensures f in Z.g && ArgsOk(Z, args, c) && Z.f.ty(Call(f, args), c) == Rs(Z.g[f].ret)
    ensures var (s1, xs) := Z.f.emits(args, c, s);
            Z.f.emit(Call(f, args), c, s) == (CallTail(f, ResLLOf(Z.g[f].ret), xs, s1), Reg(s1.n + 1))
    ensures var r := Z.f.evals(args, env, tr);
            Z.f.eval(Call(f, args), env, tr) == if r.AV? then SCall(Z.w.o, Z.g, f, r.vals, r.tr) else r.out
    ensures Z.f.evals(args, env, tr).AStop? ==> !Z.f.evals(args, env, tr).out.EV?
  {
    var e := Call(f, args);
    assert Lowers(e, c);
    ArgsAreOk(Z, args, Z.g[f].params, c);
    assert Z.f.ty(e, c) == XTyOf(e, c);
    assert Z.f.emit(e, c, s) == CExpr(e, c, s) && Z.f.emits(args, c, s) == CArgs(args, c, s);
    assert Z.f.eval(e, env, tr) == Eval(Z.w.o, Z.g, e, env, tr)
        && Z.f.evals(args, env, tr) == EvalArgs(Z.w.o, Z.g, args, env, tr);
  }

  lemma CallHolds(o: Oracle, ret: Ty, tr: seq<Event>)
    ensures var v := CallVal(o, ret, tr);
            InRange(ret, v.v) && v.code < Pow2(32) && CallFields(o, ResLLOf(ret), tr) == ResFields(ret, v.v, v.code)
  {
    if !ret.NilT? { EncDec(ret, Enc(Bits(ret), o(tr).bits)); }
  }

  lemma SimCall(Z: Site, f: string, args: seq<Expr>, c: Ctx, s: Out, env: Env, tr: seq<Event>, cfg: Cfg)
          returns (q: Got)
    requires Pre(Z, c, s, env, tr, cfg) && Z.f.ok(Call(f, args), c) && Fits(Z, Z.f.emit(Call(f, args), c, s).0)
    ensures Sim(Z, Call(f, args), c, s, env, tr, cfg, q)
    decreases Call(f, args), 1
  {
    CallEq(Z, f, args, c, s, env, tr);
    ArgsFacts(Z, args, c, s);
    var (s1, xs) := Z.f.emits(args, c, s);
    var ret := Z.g[f].ret;
    var sF := CallTail(f, ResLLOf(ret), xs, s1);
    FitsExt(Z, s1, sF);
    q := SimArgs(Z, args, c, s, env, tr, cfg);
    var out := Z.f.evals(args, env, tr);
    if out.AV? {
      var tr1 := out.tr + [Called(f, ArgWords(out.vals))];
      Put(Z, s1, CallFn(s1.n + 1, ResLLOf(ret), f, xs), sF);
      CallStep(Z, s.n, s1.n + 1, ResLLOf(ret), f, xs, ArgWords(out.vals), cfg, q);
      CallHolds(Z.w.o, ret, tr1);
      q := On(q, SetReg(q.cfg, s1.n + 1, Agg(CallFields(Z.w.o, ResLLOf(ret), tr1))).(tr := tr1));
    }
  }

  // --- results ------------------------------------------------------------------------------------------

  lemma ValueStep(Z: Site, x: Opd, v: Val, r: nat, n: nat, cfg: Cfg, q0: Got) returns (q: Got)
    requires Sound(Z) && Ran(Z, n, cfg, q0) && n < r && v.R? && !v.ty.NilT? && Holds(Z.w, q0.cfg, x, v)
    requires Has(Z, q0.cfg.pc, Extract(r, x, 0, Bits(v.ty)))
    ensures Ran(Z, n, cfg, q) && q.cfg == SetReg(q0.cfg, r, Word(Bits(v.ty), Enc(Bits(v.ty), v.v)))
  {
    EncSmall(Bits(v.ty), Enc(Bits(v.ty), v.v));
    ExtractStep(Z, n, r, x, 0, Bits(v.ty), ResFields(v.ty, v.v, v.code), cfg, q0);
    q := On(q0, SetReg(q0.cfg, r, Word(Bits(v.ty), Enc(Bits(v.ty), v.v))));
  }

  /** Taking the value half; the Result itself is still held. */
  lemma TakeSteps(Z: Site, x: Opd, v: Val, n: nat, s: Out, cfg: Cfg, q0: Got) returns (q: Got)
    requires Sound(Z) && Ran(Z, n, cfg, q0) && At(Z, s, q0.cfg) && n <= s.n && Bound(x, s.n)
    requires v.R? && Holds(Z.w, q0.cfg, x, v) && Fits(Z, TakeValue(x, v.ty, s).0)
    ensures Reached(Z, n, TakeValue(x, v.ty, s).0, q0.cfg.tr, cfg, q)
    ensures Holds(Z.w, q.cfg, TakeValue(x, v.ty, s).1, S(v.ty, v.v)) && Holds(Z.w, q.cfg, x, v)
  {
    if v.ty.NilT? {
      EncSmall(32, 0);
      q := q0;
    } else {
      Put(Z, s, Extract(s.n + 1, x, 0, Bits(v.ty)), TakeValue(x, v.ty, s).0);
      q := ValueStep(Z, x, v, s.n + 1, n, cfg, q0);
    }
  }

  lemma CodeStep(Z: Site, x: Opd, v: Val, idx: nat, r: nat, n: nat, cfg: Cfg, q0: Got) returns (q: Got)
    requires Sound(Z) && Ran(Z, n, cfg, q0) && n < r && v.R? && Holds(Z.w, q0.cfg, x, v)
             && idx == (if v.ty.NilT? then 0 else 1)
    requires Has(Z, q0.cfg.pc, Extract(r, x, idx, 32))
    ensures Ran(Z, n, cfg, q) && q.cfg == SetReg(q0.cfg, r, Word(32, v.code))
  {
    EncSmall(32, v.code);
    ExtractStep(Z, n, r, x, idx, 32, ResFields(v.ty, v.v, v.code), cfg, q0);
    q := On(q0, SetReg(q0.cfg, r, Word(32, v.code)));
  }

  lemma CodeTest(Z: Site, code: nat, r: nat, n: nat, cfg: Cfg, q0: Got) returns (q: Got)
    requires Sound(Z) && Ran(Z, n, cfg, q0) && n < r && Read(Z.w, q0.cfg, 32, Reg(r)) == Some(code)
    requires Has(Z, q0.cfg.pc, Icmp(r + 1, PNe, 32, Reg(r), Const(0)))
    ensures Ran(Z, n, cfg, q) && q.cfg == SetReg(q0.cfg, r + 1, Word(1, if code != 0 then 1 else 0))
  {
    EncSmall(32, 0);
    IcmpStep(Z, n, r + 1, PNe, 32, Reg(r), Const(0), code, 0, cfg, q0);
    q := On(q0, SetReg(q0.cfg, r + 1, Word(1, if code != 0 then 1 else 0)));
  }

  /** The error code and the test of it. */
  lemma ErrSteps(Z: Site, x: Opd, v: Val, n: nat, s: Out, cfg: Cfg, q0: Got) returns (q: Got)
    requires Sound(Z) && Ran(Z, n, cfg, q0) && At(Z, s, q0.cfg) && n <= s.n && Bound(x, s.n)
    requires v.R? && Holds(Z.w, q0.cfg, x, v) && Fits(Z, ErrTest(x, v.ty, s))
    ensures Ran(Z, n, cfg, q) && q.cfg == TestedCfg(q0.cfg, s.n + 1, v.code)
    ensures Pos(Z, ErrTest(x, v.ty, s)) == q.cfg.pc
  {
    ErrLines(Z, x, v.ty, s);
    var q1 := CodeStep(Z, x, v, if v.ty.NilT? then 0 else 1, s.n + 1, n, cfg, q0);
    q := CodeTest(Z, v.code, s.n + 1, n, cfg, q1);
  }

  function TestedCfg(c: Cfg, r: nat, code: nat): Cfg {
    SetReg(SetReg(c, r, Word(32, code)), r + 1, Word(1, if code != 0 then 1 else 0))
  }

  lemma TestedFacts(Z: Site, x: Opd, v: Val, n: nat, c: Cfg)
    requires Bound(x, n) && Holds(Z.w, c, x, v) && v.R?
    ensures var c1 := TestedCfg(c, n + 1, v.code);
            && c1.pc == c.pc + 2 && c1.tr == c.tr && Keeps(n, c, c1) && Holds(Z.w, c1, x, v)
            && n + 1 in c1.regs && c1.regs[n + 1] == Word(32, v.code)
            && Read(Z.w, c1, 1, Reg(n + 2)) == Some(if v.code != 0 then 1 else 0)
  {
    HoldsKept(Z.w, n, c, TestedCfg(c, n + 1, v.code), x, v);
  }

  /** The error test and the branch on it: into the error path, or to where the label `ok` stands. */
  lemma ErrBranch(Z: Site, x: Opd, v: Val, n: nat, s: Out, err: Lbl, ok: Lbl, h: Out, okAt: nat, cfg: Cfg, q0: Got)
          returns (q: Got)
    requires Sound(Z) && Ran(Z, n, cfg, q0) && At(Z, s, q0.cfg) && n <= s.n && Bound(x, s.n)
    requires v.R? && Holds(Z.w, q0.cfg, x, v) && TestHead(Z, x, v.ty, s, err, ok, h) && Has(Z, okAt, Label(ok))
    ensures Ran(Z, n, cfg, q) && q.cfg.tr == q0.cfg.tr && q.cfg.pc == (if v.code != 0 then Pos(Z, h) else okAt + 1)
    ensures Holds(Z.w, q.cfg, x, v) && s.n + 1 in q.cfg.regs && q.cfg.regs[s.n + 1] == Word(32, v.code)
    ensures Keeps(s.n, q0.cfg, q.cfg)
  {
    var q1 := ErrSteps(Z, x, v, n, s, cfg, q0);
    TestedFacts(Z, x, v, s.n, q0.cfg);
    var to := if v.code != 0 then Pos(Z, s) + 3 else okAt;
    CondStep(Z, n, Reg(s.n + 2), err, ok, if v.code != 0 then 1 else 0, to, cfg, q1);
    q := On(q1, q1.cfg.(pc := to + 1));
  }

  lemma ResultEq(Z: Site, op: ResOp, a: Expr, c: Ctx, s: Out)
    requires Genuine(Z) && c.g == Z.g && Z.f.ok(ResultOf(op, a), c)
    ensures Z.f.ok(a, c) && (op.Relay? ==> !c.inDefer)
    ensures Z.f.ty(ResultOf(op, a), c) == if op.Drop? then Sc(NilT) else Sc(Z.f.ty(a, c).ty)
    ensures var (s1, x) := Z.f.emit(a, c, s); var t := Z.f.ty(a, c); var e := Z.f.emit(ResultOf(op, a), c, s);
            if op.Drop? then e == (s1, Const(0))
            else if t.Sc? then e == (s1, x)
            else var (s2, v) := TakeValue(x, t.ty, s1); e == if op.Raw? then (s2, v) else (CRelay(x, t.ty, c, s2), v)
  {
    var e := ResultOf(op, a);
    assert Lowers(e, c) && Lowers(a, c);
    assert Z.f.ty(e, c) == XTyOf(e, c) && Z.f.ty(a, c) == XTyOf(a, c);
    assert Z.f.emit(e, c, s) == CExpr(e, c, s) && Z.f.emit(a, c, s) == CExpr(a, c, s);
    assert CExpr(e, c, s) == CResultOf(op, a, c, s);
  }

  lemma ResultEval(Z: Site, op: ResOp, a: Expr, env: Env, tr: seq<Event>)
    requires Genuine(Z)
    ensures var r := Z.f.eval(a, env, tr);
            Z.f.eval(ResultOf(op, a), env, tr) == if r.EV? then SResult(op, r.val, r.tr) else r
  {
    var e := ResultOf(op, a);
    assert Z.f.eval(e, env, tr) == Eval(Z.w.o, Z.g, e, env, tr) && Z.f.eval(a, env, tr) == Eval(Z.w.o, Z.g, a, env, tr);
  }

  lemma RelayIs(Z: Site, c: Ctx, x: Opd, ty: Ty, s: Out) returns (u: Out)
    requires RelayMeans(Z, c) && !c.inDefer && Fits(Z, CRelay(x, ty, c, s))
    ensures Ext(RelayHead(x, ty, s), u) && CRelay(x, ty, c, s) == Start(u, L(RelayOk, s.lbl + 2))
    ensures Z.f.relay(RelayHead(x, ty, s), s.n + 1)
  {
    u := CUnwind(c.defers, LErr(Reg(s.n + 1)), c, RelayHead(x, ty, s));
    FitsExt(Z, u, CRelay(x, ty, c, s));
  }

  /** `relay` on a held Result: past it with no error, or at the start of its error path. */
  lemma RelaySteps(Z: Site, c: Ctx, x: Opd, y: Opd, v: Val, n: nat, s: Out, u: Out, sF: Out, cfg: Cfg, q0: Got)
          returns (q: Got)
    requires Sound(Z) && !c.inDefer && n <= s.n && Bound(x, s.n) && Bound(y, s.n)
    requires Ran(Z, n, cfg, q0) && At(Z, s, q0.cfg) && v.R? && Holds(Z.w, q0.cfg, x, v)
             && Holds(Z.w, q0.cfg, y, S(v.ty, v.v))
    requires Ext(RelayHead(x, v.ty, s), u) && sF == Start(u, L(RelayOk, s.lbl + 2)) && Fits(Z, sF)
    requires Z.f.relay(RelayHead(x, v.ty, s), s.n + 1)
    ensures v.code == 0 ==> Reached(Z, n, sF, q0.cfg.tr, cfg, q) && Holds(Z.w, q.cfg, y, S(v.ty, v.v))
    ensures v.code != 0 ==> StopPost(Z, c, n, cfg, ERelay(v.code, q0.cfg.tr), q)
  {
    q := RelayBranch(Z, x, y, v, n, s, u, sF, cfg, q0);
    q := q.(u := RelayHead(x, v.ty, s), r := s.n + 1);
  }

  lemma RelayBranch(Z: Site, x: Opd, y: Opd, v: Val, n: nat, s: Out, u: Out, sF: Out, cfg: Cfg, q0: Got)
          returns (q: Got)
    requires Sound(Z) && n <= s.n && Bound(x, s.n) && Bound(y, s.n)
    requires Ran(Z, n, cfg, q0) && At(Z, s, q0.cfg) && v.R? && Holds(Z.w, q0.cfg, x, v)
             && Holds(Z.w, q0.cfg, y, S(v.ty, v.v))
    requires Ext(RelayHead(x, v.ty, s), u) && sF == Start(u, L(RelayOk, s.lbl + 2)) && Fits(Z, sF)
    ensures Reached(Z, n, if v.code == 0 then sF else RelayHead(x, v.ty, s), q0.cfg.tr, cfg, q)
    ensures Holds(Z.w, q.cfg, y, S(v.ty, v.v)) && s.n + 1 in q.cfg.regs && q.cfg.regs[s.n + 1] == Word(32, v.code)
  {
    var err, ok, h := L(RelayErr, s.lbl + 1), L(RelayOk, s.lbl + 2), RelayHead(x, v.ty, s);
    FitsExt(Z, u, sF);
    FitsExt(Z, h, u);
    RelayHeadLines(Z, x, v.ty, s);
    Put(Z, u, Label(ok), sF);
    q := ErrBranch(Z, x, v, n, s, err, ok, h, Pos(Z, u), cfg, q0);
    HoldsKept(Z.w, s.n, q0.cfg, q.cfg, y, S(v.ty, v.v));
  }

  lemma TakeRelay(Z: Site, c: Ctx, x: Opd, v: Val, n: nat, s: Out, cfg: Cfg, q0: Got) returns (q: Got)
    requires Sound(Z) && RelayMeans(Z, c) && !c.inDefer && n <= s.n && Bound(x, s.n)
    requires Ran(Z, n, cfg, q0) && At(Z, s, q0.cfg) && v.R? && Holds(Z.w, q0.cfg, x, v)
    requires Fits(Z, CRelay(x, v.ty, c, TakeValue(x, v.ty, s).0))
    ensures var (s2, y) := TakeValue(x, v.ty, s);
            && (v.code == 0 ==>
                  Reached(Z, n, CRelay(x, v.ty, c, s2), q0.cfg.tr, cfg, q) && Holds(Z.w, q.cfg, y, S(v.ty, v.v)))
            && (v.code != 0 ==> StopPost(Z, c, n, cfg, ERelay(v.code, q0.cfg.tr), q))
  {
    var (s2, y) := TakeValue(x, v.ty, s);
    var sF := CRelay(x, v.ty, c, s2);
    FitsExt(Z, s2, sF);
    var u := RelayIs(Z, c, x, v.ty, s2);
    q := TakeSteps(Z, x, v, n, s, cfg, q0);
    q := RelaySteps(Z, c, x, y, v, n, s2, u, sF, cfg, q);
  }

  lemma SimPlain(Z: Site, op: ResOp, a: Expr, c: Ctx, s: Out, env: Env, tr: seq<Event>, cfg: Cfg) returns (q: Got)
    requires Pre(Z, c, s, env, tr, cfg) && Z.f.ok(ResultOf(op, a), c) && Fits(Z, Z.f.emit(ResultOf(op, a), c, s).0)
    requires !op.Relay? || Z.f.ty(a, c).Sc?
    ensures Sim(Z, ResultOf(op, a), c, s, env, tr, cfg, q)
    decreases ResultOf(op, a), 1
  {
    ResultEq(Z, op, a, c, s);
    ResultEval(Z, op, a, env, tr);
    EmitFacts(Z, a, c, s);
    var (s1, x) := Z.f.emit(a, c, s);
    FitsExt(Z, s1, Z.f.emit(ResultOf(op, a), c, s).0);
    q := SimExpr(Z, a, c, s, env, tr, cfg);
    var out := Z.f.eval(a, env, tr);
    if out.EV? && op.Drop? {
      EncSmall(32, 0);
    } else if out.EV? && Z.f.ty(a, c).Rs? {
      q := TakeSteps(Z, x, out.val, s.n, s1, cfg, q);
    }
  }

  lemma SimRelay(Z: Site, a: Expr, c: Ctx, s: Out, env: Env, tr: seq<Event>, cfg: Cfg) returns (q: Got)
    requires Pre(Z, c, s, env, tr, cfg) && Z.f.ok(ResultOf(Relay, a), c)
             && Fits(Z, Z.f.emit(ResultOf(Relay, a), c, s).0)
    requires Z.f.ty(a, c).Rs?
    ensures Sim(Z, ResultOf(Relay, a), c, s, env, tr, cfg, q)
    decreases ResultOf(Relay, a), 1
  {
    ResultEq(Z, Relay, a, c, s);
    ResultEval(Z, Relay, a, env, tr);
    EmitFacts(Z, a, c, s);
    var (s1, x) := Z.f.emit(a, c, s);
    FitsExt(Z, s1, Z.f.emit(ResultOf(Relay, a), c, s).0);
    q := SimExpr(Z, a, c, s, env, tr, cfg);
    var out := Z.f.eval(a, env, tr);
    if out.EV? {
      q := TakeRelay(Z, c, x, out.val, s.n, s1, cfg, q);
    }
  }

  // --- the trapping and the defaulting unwrap ---------------------------------------------------------------

  lemma EmphEq(Z: Site, a: Expr, k: Expr, c: Ctx, s: Out)
    requires Genuine(Z) && c.g == Z.g && Z.f.ok(Emphatic(a, k), c)
    ensures Z.f.ok(a, c) && Z.f.ok(k, c) && Z.f.ty(k, c) == Sc(ERROR_CODE)
            && Z.f.ty(Emphatic(a, k), c) == Sc(Z.f.ty(a, c).ty)
    ensures var (s1, x) := Z.f.emit(a, c, s); var t := Z.f.ty(a, c); var e := Z.f.emit(Emphatic(a, k), c, s);
            if t.Sc? then e == (s1, x)
            else var (s2, y) := Z.f.emit(k, c, EmphHead(x, t.ty, s1)); e == TakeValue(x, t.ty, EmphTail(s1, y, s2))
  {
    var e := Emphatic(a, k);
    assert Lowers(e, c) && Lowers(a, c) && Lowers(k, c);
    var (s1, x) := CExpr(a, c, s);
    var h := EmphHead(x, XTyOf(a, c).ty, s1);
    assert Z.f.ty(e, c) == XTyOf(e, c) && Z.f.ty(a, c) == XTyOf(a, c) && Z.f.ty(k, c) == XTyOf(k, c);
    assert Z.f.emit(e, c, s) == CExpr(e, c, s) && Z.f.emit(a, c, s) == CExpr(a, c, s)
        && Z.f.emit(k, c, h) == CExpr(k, c, h);
    assert CExpr(e, c, s) == CEmphatic(a, k, c, s);
  }

  lemma EmphEval(Z: Site, a: Expr, k: Expr, env: Env, tr: seq<Event>)
    requires Genuine(Z)
    ensures var r := Z.f.eval(a, env, tr); var e := Z.f.eval(Emphatic(a, k), env, tr);
            if !r.EV? then e == r
            else if !IsError(r.val) then e == EV(S(r.val.ty, r.val.v), r.tr)
            else
              var r1 := Z.f.eval(k, env, r.tr);
              e == if r1.EV? then EHalt(Failsafe(Z.w.o, Enc(32, r1.val.v), r1.tr)) else r1
  {
    var e, r := Emphatic(a, k), Eval(Z.w.o, Z.g, a, env, tr);
    assert Z.f.eval(e, env, tr) == Eval(Z.w.o, Z.g, e, env, tr) && Z.f.eval(a, env, tr) == r;
    assert r.EV? ==> Z.f.eval(k, env, r.tr) == Eval(Z.w.o, Z.g, k, env, r.tr);
  }

  /** The test on a held Result: at the end of `EmphHead` on an error, else just past the label before the value. */
  lemma EmphBranch(Z: Site, x: Opd, v: Val, n: nat, s: Out, y: Opd, s2: Out, cfg: Cfg, q0: Got) returns (q: Got)
    requires Sound(Z) && n <= s.n && Bound(x, s.n)
    requires Ran(Z, n, cfg, q0) && At(Z, s, q0.cfg) && v.R? && Holds(Z.w, q0.cfg, x, v)
    requires Fits(Z, EmphHead(x, v.ty, s)) && Fits(Z, EmphTail(s, y, s2))
    ensures Reached(Z, n, if v.code == 0 then EmphTail(s, y, s2) else EmphHead(x, v.ty, s), q0.cfg.tr, cfg, q)
    ensures Holds(Z.w, q.cfg, x, v)
  {
    EmphHeadLines(Z, x, v.ty, s);
    EmphTailLines(Z, s, y, s2);
    q := ErrBranch(Z, x, v, n, s, L(EmphErr, s.lbl + 1), L(EmphOk, s.lbl + 2), EmphHead(x, v.ty, s), Pos(Z, s2) + 3,
        cfg, q0);
  }

  lemma SimEmph(Z: Site, a: Expr, k: Expr, c: Ctx, s: Out, env: Env, tr: seq<Event>, cfg: Cfg) returns (q: Got)
    requires Pre(Z, c, s, env, tr, cfg) && Z.f.ok(Emphatic(a, k), c) && Fits(Z, Z.f.emit(Emphatic(a, k), c, s).0)
    ensures Sim(Z, Emphatic(a, k), c, s, env, tr, cfg, q)
    decreases Emphatic(a, k), 1
  {
    EmphEq(Z, a, k, c, s);
    EmphEval(Z, a, k, env, tr);
    EmitFacts(Z, a, c, s);
    var (s1, x) := Z.f.emit(a, c, s);
    var t, sF := Z.f.ty(a, c), Z.f.emit(Emphatic(a, k), c, s).0;
    if t.Sc? {
      q := SimExpr(Z, a, c, s, env, tr, cfg);
    } else {
      var h := EmphHead(x, t.ty, s1);
      var (s2, y) := Z.f.emit(k, c, h);
      EmitFacts(Z, k, c, h);
      var g := EmphTail(s1, y, s2);
      FitsExt(Z, g, sF);
      FitsExt(Z, s2, g);
      FitsExt(Z, h, s2);
      FitsExt(Z, s1, h);
      q := SimExpr(Z, a, c, s, env, tr, cfg);
      var out := Z.f.eval(a, env, tr);
      if out.EV? {
        q := EmphBranch(Z, x, out.val, s.n, s1, y, s2, cfg, q);
        if out.val.code == 0 {
          q := TakeSteps(Z, x, out.val, s.n, g, cfg, q);
        } else {
          KeepPre(Z, c, s, env, tr, cfg, s.n, h, out.tr, q.cfg);
          q := EmphTrap(Z, k, c, h, s1, env, out.tr, s.n, cfg, q);
        }
      }
    }
  }

  lemma EmphTrap(Z: Site, k: Expr, c: Ctx, h: Out, s1: Out, env: Env, tr: seq<Event>, n: nat, cfg: Cfg, q0: Got)
          returns (q: Got)
    requires Pre(Z, c, h, env, tr, q0.cfg) && Z.f.ok(k, c) && Z.f.ty(k, c) == Sc(ERROR_CODE) && Ran(Z, n, cfg, q0)
             && n <= h.n
    requires Fits(Z, Z.f.emit(k, c, h).0) && Fits(Z, EmphTail(s1, Z.f.emit(k, c, h).1, Z.f.emit(k, c, h).0))
    ensures var r := Z.f.eval(k, env, tr);
            StopPost(Z, c, n, cfg, if r.EV? then EHalt(Failsafe(Z.w.o, Enc(32, r.val.v), r.tr)) else r, q)
    decreases k, 3
  {
    var (s2, y) := Z.f.emit(k, c, h);
    EmitFacts(Z, k, c, h);
    var q1 := SimExpr(Z, k, c, h, env, tr, q0.cfg);
    q := EmphEnd(Z, c, h, s1, s2, y, n, Z.f.eval(k, env, tr), cfg, q0, q1);
  }

  lemma EmphTrapped(Z: Site, n: nat, p: nat, t: nat, y: Opd, code: nat, cfg: Cfg, q0: Got) returns (q: Got)
    requires Sound(Z) && Ran(Z, n, cfg, q0) && n < t && q0.cfg.pc == p
    requires Has(Z, p, CallFailsafe(t, y)) && Has(Z, p + 1, CallExit(Reg(t)))
    requires Read(Z.w, q0.cfg, 32, y) == Some(code)
    ensures Steps(Z.f.step, cfg, q.k) == Done(Ended(Failsafe(Z.w.o, code, q0.cfg.tr)))
  {
    TrapSteps(Z, n, t, y, code, cfg, q0);
    q := q0.(k := q0.k + 2);
  }

  lemma EmphEnd(Z: Site, c: Ctx, h: Out, s1: Out, s2: Out, y: Opd, n: nat, r: EO, cfg: Cfg, q0: Got, q1: Got)
          returns (q: Got)
    requires Sound(Z) && Ran(Z, n, cfg, q0) && n <= h.n <= s2.n && Fits(Z, EmphTail(s1, y, s2))
    requires ExprPost(Z, c, Sc(ERROR_CODE), h.n, s2, y, q0.cfg, r, q1)
    ensures StopPost(Z, c, n, cfg, if r.EV? then EHalt(Failsafe(Z.w.o, Enc(32, r.val.v), r.tr)) else r, q)
  {
    if r.EV? {
      RanAfter(Z, n, cfg, q0, h.n, q1);
      EmphTailLines(Z, s1, y, s2);
      q := EmphTrapped(Z, n, Pos(Z, s2), s2.n + 1, y, Enc(32, r.val.v), cfg, q1.(k := q0.k + q1.k));
    } else {
      StopAfter(Z, c, n, cfg, q0, h.n, r, q1);
      q := q1.(k := q0.k + q1.k);
    }
  }

  lemma UnwrapEq(Z: Site, a: Expr, d: Expr, c: Ctx, s: Out)
    requires Genuine(Z) && c.g == Z.g && Z.f.ok(SafeUnwrap(a, d), c)
    ensures Z.f.ok(a, c) && Z.f.ok(d, c) && Z.f.ty(d, c) == Sc(Z.f.ty(a, c).ty)
            && Z.f.ty(SafeUnwrap(a, d), c) == Sc(Z.f.ty(a, c).ty)
    ensures var (s1, x) := Z.f.emit(a, c, s); var t := Z.f.ty(a, c); var e := Z.f.emit(SafeUnwrap(a, d), c, s);
            if t.Sc? then e == (s1, x)
            else if t.ty.NilT? then e == (ErrTest(x, t.ty, s1), Const(0))
            else
              var (s2, y) := Z.f.emit(d, c, UnwrapHead(x, t.ty, s1));
              var s3 := UnwrapTail(s1, x, t.ty, y, s2);
              e == (s3, Reg(s3.n))
  {
    var e := SafeUnwrap(a, d);
    assert Lowers(e, c) && Lowers(a, c) && Lowers(d, c);
    var (s1, x) := CExpr(a, c, s);
    var h := UnwrapHead(x, XTyOf(a, c).ty, s1);
    assert Z.f.ty(e, c) == XTyOf(e, c) && Z.f.ty(a, c) == XTyOf(a, c) && Z.f.ty(d, c) == XTyOf(d, c);
    assert Z.f.emit(e, c, s) == CExpr(e, c, s) && Z.f.emit(a, c, s) == CExpr(a, c, s)
        && Z.f.emit(d, c, h) == CExpr(d, c, h);
    assert CExpr(e, c, s) == CSafeUnwrap(a, d, c, s);
  }

  lemma UnwrapEval(Z: Site, a: Expr, d: Expr, env: Env, tr: seq<Event>)
    requires Genuine(Z)
    ensures var r := Z.f.eval(a, env, tr); var e := Z.f.eval(SafeUnwrap(a, d), env, tr);
            if !r.EV? then e == r
            else if !IsError(r.val) || r.val.ty.NilT? then e == EV(S(r.val.ty, r.val.v), r.tr)
            else
              var r1 := Z.f.eval(d, env, r.tr);
              e == if r1.EV? then EV(S(r1.val.ty, r1.val.v), r1.tr) else r1
  {
    var e, r := SafeUnwrap(a, d), Eval(Z.w.o, Z.g, a, env, tr);
    assert Z.f.eval(e, env, tr) == Eval(Z.w.o, Z.g, e, env, tr) && Z.f.eval(a, env, tr) == r;
    assert r.EV? ==> Z.f.eval(d, env, r.tr) == Eval(Z.w.o, Z.g, d, env, r.tr);
  }

  lemma UnwrapBranch(Z: Site, x: Opd, v: Val, n: nat, s: Out, y: Opd, s2: Out, cfg: Cfg, q0: Got) returns (q: Got)
    requires Sound(Z) && n <= s.n && Bound(x, s.n) && v.R? && !v.ty.NilT?
    requires Ran(Z, n, cfg, q0) && At(Z, s, q0.cfg) && Holds(Z.w, q0.cfg, x, v)
    requires Fits(Z, UnwrapHead(x, v.ty, s)) && Fits(Z, UnwrapTail(s, x, v.ty, y, s2))
    ensures Ran(Z, n, cfg, q) && q.cfg.tr == q0.cfg.tr && Holds(Z.w, q.cfg, x, v)
    ensures q.cfg.pc == if v.code == 0 then Pos(Z, s2) + 3 else Pos(Z, UnwrapHead(x, v.ty, s))
  {
    UnwrapHeadLines(Z, x, v.ty, s);
    UnwrapTailLines(Z, s, x, v.ty, y, s2);
    q := ErrBranch(Z, x, v, n, s, L(QpDef, s.lbl + 1), L(QpOk, s.lbl + 2), UnwrapHead(x, v.ty, s), Pos(Z, s2) + 2, cfg,
        q0);
  }

  /** The value path: from `qp.ok` to past `qp.done`. */
  lemma UnwrapValue(Z: Site, s0: Out, x: Opd, v: Val, y: Opd, s: Out, n: nat, cfg: Cfg, q0: Got) returns (q: Got)
    requires Sound(Z) && v.R? && !v.ty.NilT? && n <= s0.n <= s.n && Bound(x, s0.n)
    requires Ran(Z, n, cfg, q0) && Holds(Z.w, q0.cfg, x, v) && q0.cfg.pc == Pos(Z, s) + 3
    requires s0.n + 3 in q0.cfg.mem && q0.cfg.mem[s0.n + 3].w == Bits(v.ty)
    requires Fits(Z, UnwrapTail(s0, x, v.ty, y, s))
    ensures Ran(Z, n, cfg, q) && q.cfg.tr == q0.cfg.tr && q.cfg.pc == Pos(Z, s) + 7
    ensures s0.n + 3 in q.cfg.mem && q.cfg.mem[s0.n + 3] == Cell(Bits(v.ty), Some(Enc(Bits(v.ty), v.v)))
  {
    UnwrapTailLines(Z, s0, x, v.ty, y, s);
    q := ValueKept(Z, x, v, s.n + 1, s0.n + 3, L(QpDone, s0.lbl + 3), Pos(Z, s) + 6, n, cfg, q0);
  }

  lemma ValueKept(Z: Site, x: Opd, v: Val, r: nat, slot: nat, l: Lbl, p: nat, n: nat, cfg: Cfg, q0: Got)
          returns (q: Got)
    requires Sound(Z) && v.R? && !v.ty.NilT? && Ran(Z, n, cfg, q0) && Holds(Z.w, q0.cfg, x, v) && n < r && n < slot
    requires Has(Z, q0.cfg.pc, Extract(r, x, 0, Bits(v.ty))) && Has(Z, q0.cfg.pc + 1, Store(Bits(v.ty), Reg(r), slot))
    requires Has(Z, q0.cfg.pc + 2, Br(l)) && Has(Z, p, Label(l)) && slot in q0.cfg.mem
             && q0.cfg.mem[slot].w == Bits(v.ty)
    ensures Ran(Z, n, cfg, q) && q.cfg.tr == q0.cfg.tr && q.cfg.pc == p + 1
    ensures slot in q.cfg.mem && q.cfg.mem[slot] == Cell(Bits(v.ty), Some(Enc(Bits(v.ty), v.v)))
  {
    var q1 := ValueStep(Z, x, v, r, n, cfg, q0);
    q := StoreJump(Z, n, Bits(v.ty), Reg(r), Enc(Bits(v.ty), v.v), slot, l, p, cfg, q1);
  }

  /** A store and a jump to where the label stands. */
  lemma StoreJump(Z: Site, n: nat, w: nat, x: Opd, v: nat, slot: nat, l: Lbl, p: nat, cfg: Cfg, q0: Got)
          returns (q: Got)
    requires Sound(Z) && Ran(Z, n, cfg, q0) && slot > n
    requires Has(Z, q0.cfg.pc, Store(w, x, slot)) && Has(Z, q0.cfg.pc + 1, Br(l)) && Has(Z, p, Label(l))
    requires slot in q0.cfg.mem && q0.cfg.mem[slot].w == w && Read(Z.w, q0.cfg, w, x) == Some(v)
    ensures Ran(Z, n, cfg, q) && q.cfg == SetMem(q0.cfg, slot, Cell(w, Some(v))).(pc := p + 1)
  {
    StoreStep(Z, n, w, x, v, slot, cfg, q0);
    var q1 := On(q0, SetMem(q0.cfg, slot, Cell(w, Some(v))));
    BrStep(Z, n, l, p, cfg, q1);
    q := On(q1, q1.cfg.(pc := p + 1));
  }

  lemma UnwrapLoad(Z: Site, s0: Out, x: Opd, ty: Ty, v: int, y: Opd, s: Out, n: nat, cfg: Cfg, q0: Got) returns (q: Got)
    requires Sound(Z) && n <= s.n && Fits(Z, UnwrapTail(s0, x, ty, y, s)) && InRange(ty, v)
    requires Ran(Z, n, cfg, q0) && q0.cfg.pc == Pos(Z, s) + 7
    requires s0.n + 3 in q0.cfg.mem && q0.cfg.mem[s0.n + 3] == Cell(Bits(ty), Some(Enc(Bits(ty), v)))
    ensures Reached(Z, n, UnwrapTail(s0, x, ty, y, s), q0.cfg.tr, cfg, q)
    ensures Holds(Z.w, q.cfg, Reg(UnwrapTail(s0, x, ty, y, s).n), S(ty, v))
  {
    UnwrapTailLines(Z, s0, x, ty, y, s);
    LoadStep(Z, n, s.n + 2, Bits(ty), s0.n + 3, Enc(Bits(ty), v), cfg, q0);
    q := On(q0, SetReg(q0.cfg, s.n + 2, Word(Bits(ty), Enc(Bits(ty), v))));
  }

  /** The default path's store, and past `qp.done`. */
  lemma UnwrapStore(Z: Site, s0: Out, x: Opd, ty: Ty, v: int, y: Opd, s: Out, n: nat, cfg: Cfg, q0: Got)
          returns (q: Got)
    requires Sound(Z) && n <= s0.n && n <= s.n && Fits(Z, UnwrapTail(s0, x, ty, y, s)) && Ran(Z, n, cfg, q0)
             && At(Z, s, q0.cfg)
    requires s0.n + 3 in q0.cfg.mem && q0.cfg.mem[s0.n + 3].w == Bits(ty) && Holds(Z.w, q0.cfg, y, S(ty, v))
    ensures Reached(Z, n, UnwrapTail(s0, x, ty, y, s), q0.cfg.tr, cfg, q)
    ensures Holds(Z.w, q.cfg, Reg(UnwrapTail(s0, x, ty, y, s).n), S(ty, v))
  {
    UnwrapTailLines(Z, s0, x, ty, y, s);
    q := StoreJump(Z, n, Bits(ty), y, Enc(Bits(ty), v), s0.n + 3, L(QpDone, s0.lbl + 3), Pos(Z, s) + 6, cfg, q0);
    q := UnwrapLoad(Z, s0, x, ty, v, y, s, n, cfg, q);
  }

  /** The default path: the fallback evaluated and stored. */
  lemma UnwrapDefault(Z: Site, d: Expr, c: Ctx, h: Out, s0: Out, x: Opd, ty: Ty, env: Env, tr: seq<Event>, n: nat,
          cfg: Cfg, q0: Got) returns (q: Got)
    requires Pre(Z, c, h, env, tr, q0.cfg) && Z.f.ok(d, c) && Z.f.ty(d, c) == Sc(ty) && s0.n <= h.n
    requires Ran(Z, n, cfg, q0) && n <= s0.n && s0.n + 3 in q0.cfg.mem && q0.cfg.mem[s0.n + 3].w == Bits(ty)
    requires Fits(Z, Z.f.emit(d, c, h).0)
    requires Fits(Z, UnwrapTail(s0, x, ty, Z.f.emit(d, c, h).1, Z.f.emit(d, c, h).0))
    ensures var (s2, y) := Z.f.emit(d, c, h); var r := Z.f.eval(d, env, tr); var sF := UnwrapTail(s0, x, ty, y, s2);
            if r.EV? then Reached(Z, n, sF, r.tr, cfg, q) && Holds(Z.w, q.cfg, Reg(sF.n), S(ty, r.val.v))
                && r.val.ty == ty
            else StopPost(Z, c, n, cfg, r, q)
    decreases d, 3
  {
    var (s2, y) := Z.f.emit(d, c, h);
    var r := Z.f.eval(d, env, tr);
    EmitFacts(Z, d, c, h);
    var q1 := SimExpr(Z, d, c, h, env, tr, q0.cfg);
    if r.EV? {
      RanAfter(Z, n, cfg, q0, h.n, q1);
      q := UnwrapStore(Z, s0, x, ty, r.val.v, y, s2, n, cfg, q1.(k := q0.k + q1.k));
    } else {
      StopAfter(Z, c, n, cfg, q0, h.n, r, q1);
      q := q1.(k := q0.k + q1.k);
    }
  }

  lemma SimUnwrap(Z: Site, a: Expr, d: Expr, c: Ctx, s: Out, env: Env, tr: seq<Event>, cfg: Cfg) returns (q: Got)
    requires Pre(Z, c, s, env, tr, cfg) && Z.f.ok(SafeUnwrap(a, d), c) && Fits(Z, Z.f.emit(SafeUnwrap(a, d), c, s).0)
    ensures Sim(Z, SafeUnwrap(a, d), c, s, env, tr, cfg, q)
    decreases SafeUnwrap(a, d), 1
  {
    UnwrapEq(Z, a, d, c, s);
    UnwrapEval(Z, a, d, env, tr);
    EmitFacts(Z, a, c, s);
    var (s1, x) := Z.f.emit(a, c, s);
    var t, sF := Z.f.ty(a, c), Z.f.emit(SafeUnwrap(a, d), c, s).0;
    var out := Z.f.eval(a, env, tr);
    if t.Sc? {
      q := SimExpr(Z, a, c, s, env, tr, cfg);
    } else if t.ty.NilT? {
      q := UnwrapNil(Z, a, c, s, env, tr, cfg);
    } else {
      EmitFacts(Z, d, c, UnwrapHead(x, t.ty, s1));
      q := UnwrapCases(Z, a, d, c, s, env, tr, cfg);
    }
  }

  /** For a Result<NIL> the test alone is lowered. */
  lemma UnwrapNil(Z: Site, a: Expr, c: Ctx, s: Out, env: Env, tr: seq<Event>, cfg: Cfg) returns (q: Got)
    requires Pre(Z, c, s, env, tr, cfg) && Z.f.ok(a, c) && Z.f.ty(a, c) == Rs(NilT)
    requires var (s1, x) := Z.f.emit(a, c, s); Fits(Z, ErrTest(x, NilT, s1))
    ensures var (s1, x) := Z.f.emit(a, c, s); var r := Z.f.eval(a, env, tr);
            ExprPost(Z, c, Sc(NilT), s.n, ErrTest(x, NilT, s1), Const(0), cfg, if r.EV? then EV(S(NilT, 0), r.tr)
                else r, q)
    ensures var r := Z.f.eval(a, env, tr); r.EV? ==> r.val.ty == NilT && r.val.v == 0
    decreases a, 3
  {
    var (s1, x) := Z.f.emit(a, c, s);
    var sF, out := ErrTest(x, NilT, s1), Z.f.eval(a, env, tr);
    EmitFacts(Z, a, c, s);
    FitsExt(Z, s1, sF);
    q := SimExpr(Z, a, c, s, env, tr, cfg);
    if out.EV? {
      TestedFacts(Z, x, out.val, s1.n, q.cfg);
      q := ErrSteps(Z, x, out.val, s.n, s1, cfg, q);
      EncSmall(32, 0);
    }
  }

  lemma UnwrapCases(Z: Site, a: Expr, d: Expr, c: Ctx, s: Out, env: Env, tr: seq<Event>, cfg: Cfg) returns (q: Got)
    requires Pre(Z, c, s, env, tr, cfg) && Z.f.ok(a, c) && Z.f.ok(d, c)
    requires Z.f.ty(a, c).Rs? && !Z.f.ty(a, c).ty.NilT? && Z.f.ty(d, c) == Sc(Z.f.ty(a, c).ty)
    requires var (s1, x) := Z.f.emit(a, c, s); var (s2, y) := Z.f.emit(d, c, UnwrapHead(x, Z.f.ty(a, c).ty, s1));
             Fits(Z, UnwrapTail(s1, x, Z.f.ty(a, c).ty, y, s2))
    ensures var (s1, x) := Z.f.emit(a, c, s); var (s2, y) := Z.f.emit(d, c, UnwrapHead(x, Z.f.ty(a, c).ty, s1));
            var sF := UnwrapTail(s1, x, Z.f.ty(a, c).ty, y, s2); var r := Z.f.eval(a, env, tr);
            if !r.EV? then StopPost(Z, c, s.n, cfg, r, q)
            else if r.val.ty.NilT? then false
            else if !IsError(r.val) then ExprPost(Z, c, Z.f.ty(d, c), s.n, sF, Reg(sF.n), cfg,
                EV(S(r.val.ty, r.val.v), r.tr), q)
            else
              var r1 := Z.f.eval(d, env, r.tr);
              ExprPost(Z, c, Z.f.ty(d, c), s.n, sF, Reg(sF.n), cfg, if r1.EV? then EV(S(r1.val.ty, r1.val.v), r1.tr)
                  else r1, q)
    decreases SafeUnwrap(a, d), 0
  {
    EmitFacts(Z, a, c, s);
    var (s1, x) := Z.f.emit(a, c, s);
    var ty := Z.f.ty(a, c).ty;
    var h := UnwrapHead(x, ty, s1);
    EmitFacts(Z, d, c, h);
    var (s2, y) := Z.f.emit(d, c, h);
    var sF, out := UnwrapTail(s1, x, ty, y, s2), Z.f.eval(a, env, tr);
    FitsExt(Z, s2, sF);
    FitsExt(Z, h, s2);
    FitsExt(Z, s1, h);
    q := SimExpr(Z, a, c, s, env, tr, cfg);
    if out.EV? {
      UnwrapSlot(Z, x, ty, s1, cfg);
      q := UnwrapBranch(Z, x, out.val, s.n, s1, y, s2, cfg, q);
      if out.val.code == 0 {
        q := UnwrapValue(Z, s1, x, out.val, y, s2, s.n, cfg, q);
        q := UnwrapLoad(Z, s1, x, ty, out.val.v, y, s2, s.n, cfg, q);
      } else {
        KeepPre(Z, c, s, env, tr, cfg, s.n, h, out.tr, q.cfg);
        q := UnwrapDefault(Z, d, c, h, s1, x, ty, env, out.tr, s.n, cfg, q);
      }
    }
  }

  lemma UnwrapSlot(Z: Site, x: Opd, ty: Ty, s0: Out, cfg: Cfg)
    requires Fits(Z, UnwrapHead(x, ty, s0)) && MemHas(Z.H, cfg.mem)
    ensures s0.n + 3 in cfg.mem && cfg.mem[s0.n + 3].w == Bits(ty)
  {
    SlotIn(Z, s0, s0.n + 3, Bits(ty), UnwrapHead(x, ty, s0), cfg);
  }

  // --- literals, and the whole ----------------------------------------------------------------------------------

  lemma SimInt(Z: Site, v: int, ty: Ty, c: Ctx, s: Out, env: Env, tr: seq<Event>, cfg: Cfg) returns (q: Got)
    requires Pre(Z, c, s, env, tr, cfg) && Z.f.ok(IntLit(v, ty), c)
    ensures Sim(Z, IntLit(v, ty), c, s, env, tr, cfg, q)
  {
    var e := IntLit(v, ty);
    assert Lowers(e, c);
    assert Z.f.ty(e, c) == XTyOf(e, c) && Z.f.emit(e, c, s) == CExpr(e, c, s);
    assert Z.f.eval(e, env, tr) == Eval(Z.w.o, Z.g, e, env, tr);
    WrapFacts(ty, v);
    q := Here(cfg, s);
  }

  lemma SimBool(Z: Site, b: bool, c: Ctx, s: Out, env: Env, tr: seq<Event>, cfg: Cfg) returns (q: Got)
    requires Pre(Z, c, s, env, tr, cfg)
    ensures Sim(Z, BoolLit(b), c, s, env, tr, cfg, q)
  {
    var e := BoolLit(b);
    assert Z.f.ty(e, c) == XTyOf(e, c) && Z.f.emit(e, c, s) == CExpr(e, c, s);
    assert Z.f.eval(e, env, tr) == Eval(Z.w.o, Z.g, e, env, tr);
    Bit(if b then 1 else 0);
    q := Here(cfg, s);
  }

  lemma SimNil(Z: Site, c: Ctx, s: Out, env: Env, tr: seq<Event>, cfg: Cfg) returns (q: Got)
    requires Pre(Z, c, s, env, tr, cfg)
    ensures Sim(Z, NilLit, c, s, env, tr, cfg, q)
  {
    assert Z.f.ty(NilLit, c) == XTyOf(NilLit, c) && Z.f.emit(NilLit, c, s) == CExpr(NilLit, c, s);
    assert Z.f.eval(NilLit, env, tr) == Eval(Z.w.o, Z.g, NilLit, env, tr);
    EncSmall(32, 0);
    q := Here(cfg, s);
  }

  lemma SimExpr(Z: Site, e: Expr, c: Ctx, s: Out, env: Env, tr: seq<Event>, cfg: Cfg) returns (q: Got)
    requires Pre(Z, c, s, env, tr, cfg) && Z.f.ok(e, c) && Fits(Z, Z.f.emit(e, c, s).0)
    ensures Sim(Z, e, c, s, env, tr, cfg, q)
    decreases e, 2
  {
    match e {
      case Var(x) => q := SimVar(Z, x, c, s, env, tr, cfg);
      case Unary(op, a) => q := SimUnary(Z, op, a, c, s, env, tr, cfg);
      case Arith(op, a, b) => q := SimArith(Z, op, a, b, c, s, env, tr, cfg);
      case Compare(op, a, b) => q := SimCompare(Z, op, a, b, c, s, env, tr, cfg);
      case Logic(isOr, a, b) => q := SimLogic(Z, isOr, a, b, c, s, env, tr, cfg);
      case Call(f, args) => q := SimCall(Z, f, args, c, s, env, tr, cfg);
      case ResultOf(op, a) =>
        if op.Relay? && Z.f.ty(a, c).Rs? { q := SimRelay(Z, a, c, s, env, tr, cfg); }
        else { q := SimPlain(Z, op, a, c, s, env, tr, cfg); }
      case Emphatic(a, k) => q := SimEmph(Z, a, k, c, s, env, tr, cfg);
      case SafeUnwrap(a, d) => q := SimUnwrap(Z, a, d, c, s, env, tr, cfg);
      case IntLit(v, ty) => q := SimInt(Z, v, ty, c, s, env, tr, cfg);
      case BoolLit(b) => q := SimBool(Z, b, c, s, env, tr, cfg);
      case NilLit => q := SimNil(Z, c, s, env, tr, cfg);
    }
  }
}
