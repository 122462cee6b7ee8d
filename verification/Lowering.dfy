/** What the emitter appends for each construct, as functions on its output state. */
module Lowering {
  import opened Words
  import opened Source
  import opened Target

  /** The output of one function: the hoisted allocas, the lines after them, and the emitter's counters and flag. */
  datatype Out = Out(head: seq<Line>, body: seq<Line>, n: nat, lbl: nat, terminated: bool)

  datatype Local = Local(slot: nat, ty: Ty)
  datatype Loop = Loop(head: Lbl, done: Lbl)

  /** The compile-time scope. `inDefer` marks the lowering of a defer body, where no statement may leave the
      function. */
  datatype Ctx = Ctx(locals: map<string, Local>, defers: seq<seq<seq<Stmt>>>, loops: seq<Loop>, g: Sigs, fn: Func,
          inDefer: bool)

  /** How a leaving statement's operand is lowered, after the defers. */
  datatype Leave = LOk(result: Option<Expr>) | LFail(error: Expr) | LExit(status: Expr) | LErr(code: Opd)

  function TypesOf(locals: map<string, Local>): Types {
    map x | x in locals :: locals[x].ty
  }

  /** The emitter's query of the checker; a checked program always has an answer. */
  function XTyOf(e: Expr, c: Ctx): XTy {
    var t := TypeOf(e, TypesOf(c.locals), c.g);
    if t.Some? then t.value else Sc(NilT)
  }

  function SlotOf(c: Ctx, x: string): Local {
    if x in c.locals then c.locals[x] else Local(0, NilT)
  }

  function ResLLOf(ty: Ty): ResLL {
    if ty.NilT? then Lone else Pair(Bits(ty))
  }

  /** Output only grows: lines are appended, allocas follow earlier ones, and the counters advance. */
  ghost predicate Ext(s: Out, s1: Out) {
    s.body <= s1.body && s.head <= s1.head && s.n <= s1.n && s.lbl <= s1.lbl
  }

  ghost predicate Bound(x: Opd, n: nat) {
    x.Reg? ==> x.r <= n
  }

  // --- plumbing (tmp, label, w, alloca, start_block, br) -----------------------

  function W(s: Out, x: Line): Out {
    s.(body := s.body + [x])
  }

  function Tmp(s: Out): Out {
    s.(n := s.n + 1)
  }

  function Lab(s: Out): Out {
    s.(lbl := s.lbl + 1)
  }

  function AllocaAt(s: Out, slot: nat, w: nat): Out {
    s.(head := s.head + [Alloca(slot, w)])
  }

  function Start(s: Out, l: Lbl): Out {
    s.(body := s.body + [Label(l)], terminated := false)
  }

  /** A terminator: the block ends. */
  function End(s: Out, x: Line): Out {
    s.(body := s.body + [x], terminated := true)
  }

  function BrTo(s: Out, l: Lbl): Out {
    if s.terminated then s else End(s, Br(l))
  }

  /** An instruction into the next temporary. */
  function Ins1(s: Out, x: Line): Out {
    W(Tmp(s), x)
  }

  // --- expressions ----------------------------------------------------------------

  function Lv(c: Ctx): nat {
    if c.inDefer then 0 else 1
  }

  // The lines that follow an operator's operands; the result is in the last temporary unless said otherwise.

  function VarTail(l: Local, s: Out): (r: Out)
    ensures Ext(s, r) && r.terminated == s.terminated && r.n == s.n + 1
  {
    Ins1(s, Load(s.n + 1, Bits(l.ty), l.slot))
  }

  /** The result is in the first of the temporaries. */
  function UnaryTail(op: UnOp, w: nat, x: Opd, s: Out): (r: Out)
    ensures Ext(s, r) && r.terminated == s.terminated && r.n > s.n
  {
    var t := s.n + 1;
    match op
    case Neg => Ins1(s, Bin(t, MSub, w, Const(0), x))
    case Compl => Ins1(s, Bin(t, MXor, w, x, Const(-1)))
    case Not =>
      W(W(W(Tmp(Tmp(Tmp(s))), Icmp(t + 1, PNe, w, x, Const(0))),
          Bin(t + 2, MXor, 1, Reg(t + 1), Const(1))),
        Zext(t, Reg(t + 2), 8))
  }

  function ArithTail(op: BinOp, ty: Ty, x: Opd, y: Opd, s: Out): (r: Out)
    ensures Ext(s, r) && r.terminated == s.terminated && r.n == s.n + 1
  {
    Ins1(s, Bin(s.n + 1, LowerOp(op, Signed(ty)), Bits(ty), x, y))
  }

  function CompareTail(op: CmpOp, ty: Ty, x: Opd, y: Opd, s: Out): (r: Out)
    ensures Ext(s, r) && r.terminated == s.terminated && r.n == s.n + 2
  {
    Ins1(Ins1(s, Icmp(s.n + 1, LowerCmp(op, Signed(ty)), Bits(ty), x, y)), Zext(s.n + 2, Reg(s.n + 1), 8))
  }

  /** An operand as an i1: the value tested against zero. */
  function CondTail(w: nat, x: Opd, s: Out): (r: Out)
    ensures Ext(s, r) && r.terminated == s.terminated && r.n == s.n + 1
  {
    Ins1(s, Icmp(s.n + 1, PNe, w, x, Const(0)))
  }

  // Short-circuiting, without phi: a slot the two paths write. `s0` is the output before the whole expression.

  function LogicHead(s0: Out): (r: Out)
    ensures Ext(s0, r) && r.terminated == s0.terminated && r.n > s0.n
  {
    Lab(Lab(AllocaAt(Tmp(s0), s0.n + 1, 8)))
  }

  function LogicMid(isOr: bool, s0: Out, x: Opd, s: Out): (r: Out)
    ensures Ext(s, r) && !r.terminated
  {
    var rhs, done := L(ScRhs, s0.lbl + 1), L(ScDone, s0.lbl + 2);
    Start(End(W(s, Store(8, Const(if isOr then 1 else 0), s0.n + 1)),
              if isOr then CondBr(x, done, rhs) else CondBr(x, rhs, done)), rhs)
  }

  function LogicTail(s0: Out, y: Opd, s: Out): (r: Out)
    ensures Ext(s, r) && !r.terminated
  {
    var done := L(ScDone, s0.lbl + 2);
    var s1 := W(Ins1(s, Zext(s.n + 1, y, 8)), Store(8, Reg(s.n + 1), s0.n + 1));
    var s2 := Start(BrTo(s1, done), done);
    Ins1(s2, Load(s2.n + 1, 8, s0.n + 1))
  }

  function CallTail(f: string, ret: ResLL, xs: seq<(nat, Opd)>, s: Out): (r: Out)
    ensures Ext(s, r) && r.terminated == s.terminated && r.n == s.n + 1
  {
    Ins1(s, CallFn(s.n + 1, ret, f, xs))
  }

  /** The value half of a Result. */
  function TakeValue(x: Opd, ty: Ty, s: Out): (r: (Out, Opd))
    ensures Ext(s, r.0) && Bound(r.1, r.0.n) && r.0.terminated == s.terminated
  {
    if ty.NilT? then (s, Const(0)) else (Ins1(s, Extract(s.n + 1, x, 0, Bits(ty))), Reg(s.n + 1))
  }

  /** The error code of a Result and the test of it, in the next two temporaries. */
  function ErrTest(x: Opd, inner: Ty, s: Out): (r: Out)
    ensures Ext(s, r) && r.terminated == s.terminated && r.n == s.n + 2 && r.lbl == s.lbl
  {
    var code := s.n + 1;
    Ins1(Ins1(s, Extract(code, x, if inner.NilT? then 0 else 1, 32)), Icmp(code + 1, PNe, 32, Reg(code), Const(0)))
  }

  /** `relay` up to the start of its error path; `s0` is the output before it. */
  function RelayHead(x: Opd, ty: Ty, s0: Out): (r: Out)
    ensures Ext(s0, r) && !r.terminated && r.n == s0.n + 2
  {
    var err, ok := L(RelayErr, s0.lbl + 1), L(RelayOk, s0.lbl + 2);
    Start(End(Lab(Lab(ErrTest(x, ty, s0))), CondBr(Reg(s0.n + 2), err, ok)), err)
  }

  function EmphHead(x: Opd, ty: Ty, s0: Out): (r: Out)
    ensures Ext(s0, r) && r.terminated == s0.terminated
  {
    var err, ok := L(EmphErr, s0.lbl + 1), L(EmphOk, s0.lbl + 2);
    W(W(Lab(Lab(ErrTest(x, ty, s0))), CondBr(Reg(s0.n + 2), err, ok)), Label(err))
  }

  function EmphTail(s0: Out, y: Opd, s: Out): (r: Out)
    ensures Ext(s, r) && r.terminated == s.terminated
  {
    var t := s.n + 1;
    W(W(W(Ins1(s, CallFailsafe(t, y)), CallExit(Reg(t))), Unreachable), Label(L(EmphOk, s0.lbl + 2)))
  }

  function UnwrapHead(x: Opd, ty: Ty, s0: Out): (r: Out)
    ensures Ext(s0, r) && r.terminated == s0.terminated && r.n == s0.n + 3
  {
    var def, ok := L(QpDef, s0.lbl + 1), L(QpOk, s0.lbl + 2);
    var s := ErrTest(x, ty, s0);
    W(W(Lab(Lab(Lab(AllocaAt(Tmp(s), s.n + 1, Bits(ty))))), CondBr(Reg(s0.n + 2), def, ok)), Label(def))
  }

  function UnwrapTail(s0: Out, x: Opd, ty: Ty, y: Opd, s: Out): (r: Out)
    ensures Ext(s, r) && r.terminated == s.terminated
  {
    var w, slot := Bits(ty), s0.n + 3;
    var ok, done := L(QpOk, s0.lbl + 2), L(QpDone, s0.lbl + 3);
    var s1 := W(W(W(s, Store(w, y, slot)), Br(done)), Label(ok));
    var s2 := Ins1(s1, Extract(s1.n + 1, x, 0, w));
    var s3 := W(W(W(s2, Store(w, Reg(s2.n), slot)), Br(done)), Label(done));
    Ins1(s3, Load(s3.n + 1, w, slot))
  }

  function CExpr(e: Expr, c: Ctx, s: Out): (r: (Out, Opd))
    ensures Ext(s, r.0) && Bound(r.1, r.0.n)
    ensures !s.terminated ==> !r.0.terminated
    decreases Lv(c), ESize(e), 0
  {
    match e
    case IntLit(v, _) => (s, Const(v))
    case BoolLit(b) => (s, Const(if b then 1 else 0))
    case NilLit => (s, Const(0))
    case Var(x) => (VarTail(SlotOf(c, x), s), Reg(s.n + 1))
    case Unary(op, a) =>
      var (s1, x) := CExpr(a, c, s);
      (UnaryTail(op, Bits(XTyOf(a, c).ty), x, s1), Reg(s1.n + 1))
    case Arith(op, a, b) =>
      var (s1, x) := CExpr(a, c, s);
      var (s2, y) := CExpr(b, c, s1);
      (ArithTail(op, XTyOf(a, c).ty, x, y, s2), Reg(s2.n + 1))
    case Compare(op, a, b) =>
      var (s1, x) := CExpr(a, c, s);
      var (s2, y) := CExpr(b, c, s1);
      (CompareTail(op, XTyOf(a, c).ty, x, y, s2), Reg(s2.n + 2))
    case Logic(isOr, a, b) => CLogic(isOr, a, b, c, s)
    case Call(f, args) =>
      var (s1, xs) := CArgs(args, c, s);
      (CallTail(f, if f in c.g then ResLLOf(c.g[f].ret) else Lone, xs, s1), Reg(s1.n + 1))
    case ResultOf(op, a) => CResultOf(op, a, c, s)
    case Emphatic(a, k) => CEmphatic(a, k, c, s)
    case SafeUnwrap(a, d) => CSafeUnwrap(a, d, c, s)
  }

  function CLogic(isOr: bool, a: Expr, b: Expr, c: Ctx, s: Out): (r: (Out, Opd))
    ensures Ext(s, r.0) && Bound(r.1, r.0.n) && !r.0.terminated
    decreases Lv(c), ESize(a) + ESize(b), 3
  {
    var (s1, x) := CCond(a, c, LogicHead(s));
    var (s2, y) := CCond(b, c, LogicMid(isOr, s, x, s1));
    var s3 := LogicTail(s, y, s2);
    (s3, Reg(s3.n))
  }

  /** `raw`, `drop` and `relay`. */
  function CResultOf(op: ResOp, a: Expr, c: Ctx, s: Out): (r: (Out, Opd))
    ensures Ext(s, r.0) && Bound(r.1, r.0.n)
    ensures !s.terminated ==> !r.0.terminated
    decreases Lv(c), ESize(a), 3
  {
    var (s1, x) := CExpr(a, c, s);
    var t := XTyOf(a, c);
    if op.Drop? then (s1, Const(0))
    else if t.Sc? then (s1, x)
    else
      var (s2, v) := TakeValue(x, t.ty, s1);
      if op.Raw? then (s2, v) else (CRelay(x, t.ty, c, s2), v)
  }

  /** `e ?! code`: on an error, a trap with the caller's code. */
  function CEmphatic(a: Expr, k: Expr, c: Ctx, s: Out): (r: (Out, Opd))
    ensures Ext(s, r.0) && Bound(r.1, r.0.n)
    ensures !s.terminated ==> !r.0.terminated
    decreases Lv(c), ESize(a) + ESize(k), 3
  {
    var (s1, x) := CExpr(a, c, s);
    var t := XTyOf(a, c);
    if t.Sc? then (s1, x)
    else
      var (s2, y) := CExpr(k, c, EmphHead(x, t.ty, s1));
      TakeValue(x, t.ty, EmphTail(s1, y, s2))
  }

  /** `e ?| default`: the fallback lowered on the error path only, and not at all for a Result<NIL>. */
  function CSafeUnwrap(a: Expr, d: Expr, c: Ctx, s: Out): (r: (Out, Opd))
    ensures Ext(s, r.0) && Bound(r.1, r.0.n)
    ensures !s.terminated ==> !r.0.terminated
    decreases Lv(c), ESize(a) + ESize(d), 3
  {
    var (s1, x) := CExpr(a, c, s);
    var t := XTyOf(a, c);
    if t.Sc? then (s1, x)
    else if t.ty.NilT? then (ErrTest(x, t.ty, s1), Const(0))
    else
      var (s2, y) := CExpr(d, c, UnwrapHead(x, t.ty, s1));
      var s3 := UnwrapTail(s1, x, t.ty, y, s2);
      (s3, Reg(s3.n))
  }

  /** `relay`: on an error, the defers and the same code returned from the enclosing function. */
  function CRelay(x: Opd, ty: Ty, c: Ctx, s: Out): (r: Out)
    ensures Ext(s, r) && !r.terminated
    decreases Lv(c), 0, 3
  {
    var s1 := RelayHead(x, ty, s);
    // inside a defer body this would re-enter the frame being run, without end: checked programs have none
    var s2 := if c.inDefer then s1 else CUnwind(c.defers, LErr(Reg(s.n + 1)), c, s1);
    Start(s2, L(RelayOk, s.lbl + 2))
  }

  function CCond(e: Expr, c: Ctx, s: Out): (r: (Out, Opd))
    ensures Ext(s, r.0) && Bound(r.1, r.0.n)
    ensures !s.terminated ==> !r.0.terminated
    decreases Lv(c), ESize(e), 1
  {
    var (s1, x) := CExpr(e, c, s);
    (CondTail(Bits(XTyOf(e, c).ty), x, s1), Reg(s1.n + 1))
  }

  function CArgs(args: seq<Expr>, c: Ctx, s: Out): (r: (Out, seq<(nat, Opd)>))
    ensures Ext(s, r.0)
    ensures !s.terminated ==> !r.0.terminated
    decreases Lv(c), ESizes(args), 0
  {
    if args == [] then (s, [])
    else
      var (s1, x) := CExpr(args[0], c, s);
      var (s2, xs) := CArgs(args[1..], c, s1);
      (s2, [(Bits(XTyOf(args[0], c).ty), x)] + xs)
  }

  // --- leaving ------------------------------------------------------------------------

  function LSize(m: Leave): nat {
    match m
    case LOk(Some(e)) => ESize(e)
    case LFail(e) => ESize(e)
    case LExit(e) => ESize(e)
    case _ => 0
  }

  /** The defers of `frames`, innermost frame first and latest first within one, then the return itself. */
  function CUnwind(frames: seq<seq<seq<Stmt>>>, m: Leave, c: Ctx, s: Out): (r: Out)
    ensures Ext(s, r)
    decreases Lv(c), LSize(m), 2, |frames|
  {
    if c.inDefer then s
    else if frames == [] then CLeave(m, c, s)
    else CUnwind(frames[..|frames| - 1], m, c, CDefers(frames[|frames| - 1], c.(inDefer := true), s))
  }

  function CLeave(m: Leave, c: Ctx, s: Out): (r: Out)
    ensures Ext(s, r)
    decreases Lv(c), LSize(m), 1
  {
    match m
    case LOk(None) =>
      if c.fn.bare then End(s, RetWord(Bits(c.fn.ret), Const(0))) else End(s, RetLone)
    case LOk(Some(e)) =>
      if c.fn.bare then
        var (s1, x) := CExpr(e, c, s);
        End(s1, RetWord(Bits(c.fn.ret), x))
      else if c.fn.ret.NilT? then
        if e.NilLit? then End(s, RetLone)
        else
          var (s1, _) := CExpr(e, c, s);
          if s1.terminated then s1 else End(s1, RetLone)
      else
        var (s1, x) := CExpr(e, c, s);
        RetPair(x, Const(0), c.fn.ret, s1)
    case LFail(e) =>
      var (s1, x) := CExpr(e, c, s);
      RetErr(x, c, s1)
    case LExit(e) =>
      var (s1, x) := CExpr(e, c, s);
      End(s1, RetWord(Bits(c.fn.ret), x))
    case LErr(x) => RetErr(x, c, s)
  }

  function RetPair(v: Opd, code: Opd, ty: Ty, s: Out): Out {
    var a := s.n + 1;
    End(Ins1(Ins1(s, Insert(a, None, Bits(ty), v, 0)), Insert(a + 1, Some(Reg(a)), 32, code, 1)), RetAgg(Reg(a + 1)))
  }

  function RetErr(code: Opd, c: Ctx, s: Out): Out {
    if c.fn.bare then End(s, RetWord(Bits(c.fn.ret), code))
    else if c.fn.ret.NilT? then End(Ins1(s, Insert(s.n + 1, None, 32, code, 0)), RetAgg(Reg(s.n + 1)))
    else RetPair(Const(0), code, c.fn.ret, s)
  }

  // --- statements -----------------------------------------------------------------------

  function CDefers(frame: seq<seq<Stmt>>, c: Ctx, s: Out): (r: Out)
    ensures Ext(s, r)
    decreases Lv(c), FSize(frame), 0
  {
    if frame == [] then s
    else CDefers(frame[..|frame| - 1], c, CBlock(frame[|frame| - 1], c, s))
  }

  function CBlock(ss: seq<Stmt>, c: Ctx, s: Out): (r: Out)
    ensures Ext(s, r)
    decreases Lv(c), BSize(ss) + 1, 0
  {
    var (s1, c1) := CStmts(ss, c.(defers := c.defers + [[]]), s);
    if s1.terminated then s1
    else
      assert FSize(DefersOf(ss)) <= BSize(ss) by { DefersSize(ss); }
      CDefers(DefersOf(ss), c1.(defers := c.defers, inDefer := true), s1)
  }

  function CStmts(ss: seq<Stmt>, c: Ctx, s: Out): (r: (Out, Ctx))
    ensures Ext(s, r.0)
    decreases Lv(c), BSize(ss), 5
  {
    if ss == [] || s.terminated then (s, c)
    else
      var (s1, c1) := (CStmt(ss[0], c, s), After(ss[0], c, s));
      CStmts(ss[1..], c1, s1)
  }

  /** The scope after a statement: a declaration adds a local, a `defer` registers its body in the open frame. */
  function After(st: Stmt, c: Ctx, s: Out): (c': Ctx)
    ensures Lv(c') == Lv(c)
  {
    match st
    case VarDecl(x, ty, _) => c.(locals := c.locals[x := Local(s.n + 1, ty)])
    case Defer(b) => if c.defers == [] then c else
      var k := |c.defers| - 1;
      c.(defers := c.defers[k := c.defers[k] + [b]])
    case _ => c
  }

  function CStmt(st: Stmt, c: Ctx, s: Out): (r: Out)
    ensures Ext(s, r)
    decreases Lv(c), SSize(st), 4
  {
    match st
    case Block(b) => CBlock(b, c, s)
    case VarDecl(x, ty, e) =>
      var (s1, v) := CExpr(e, c, AllocaAt(Tmp(s), s.n + 1, Bits(ty)));
      W(s1, Store(Bits(ty), v, s.n + 1))
    case Assign(x, op, e) =>
      var l := SlotOf(c, x);
      var (s1, v) := CExpr(e, c, if op.None? then s else VarTail(l, s));
      AssignTail(l, op, s.n + 1, v, s1)
    case ExprStmt(e) => CExpr(e, c, s).0
    case If(e, t, els) => CIf(e, t, els, c, s)
    case While(e, b) => CWhile(e, b, c, s)
    case Pick(e, arms) => CPick(e, arms, c, s)
    case Pass(r) => CUnwind(c.defers, LOk(r), c, s)
    case Fail(e) => CUnwind(c.defers, LFail(e), c, s)
    case Exit(e) => CUnwind(c.defers, LExit(e), c, s)
    case Trap(e) =>
      var (s1, v) := CExpr(e, c, s);
      TrapTail(v, s1)
    case Defer(_) => s
    case Break => if c.loops == [] then s else BrTo(s, c.loops[|c.loops| - 1].done)
    case Continue => if c.loops == [] then s else BrTo(s, c.loops[|c.loops| - 1].head)
  }

  /** `cur` holds the variable's value from before the operand, for a compound assignment. */
  function AssignTail(l: Local, op: Option<BinOp>, cur: nat, v: Opd, s: Out): (r: Out)
    ensures Ext(s, r) && r.terminated == s.terminated
  {
    if op.None? then W(s, Store(Bits(l.ty), v, l.slot))
    else W(ArithTail(op.value, l.ty, Reg(cur), v, s), Store(Bits(l.ty), Reg(s.n + 1), l.slot))
  }

  function TrapTail(v: Opd, s: Out): (r: Out)
    ensures Ext(s, r)
  {
    End(W(Ins1(s, CallFailsafe(s.n + 1, v)), CallExit(Reg(s.n + 1))), Unreachable)
  }

  // `if`: the labels come from the counter before it, `s0`.

  function IfThen(s0: Out): Lbl { L(IfYes, s0.lbl + 1) }
  function IfDone(s0: Out): Lbl { L(IfEnd, s0.lbl + 2) }
  function IfElse(s0: Out, hasElse: bool): Lbl { if hasElse then L(IfNo, s0.lbl + 3) else IfDone(s0) }

  function IfLabels(s0: Out, hasElse: bool): (r: Out)
    ensures Ext(s0, r) && r.terminated == s0.terminated && r.n == s0.n && r.body == s0.body && r.head == s0.head
  {
    if hasElse then Lab(Lab(Lab(s0))) else Lab(Lab(s0))
  }

  function IfTest(s0: Out, hasElse: bool, v: Opd, s: Out): (r: Out)
    ensures Ext(s, r) && !r.terminated && r.n == s.n
  {
    Start(End(s, CondBr(v, IfThen(s0), IfElse(s0, hasElse))), IfThen(s0))
  }

  function CIf(e: Expr, t: seq<Stmt>, els: Option<Stmt>, c: Ctx, s: Out): (r: Out)
    ensures Ext(s, r) && !r.terminated
    decreases Lv(c), ESize(e) + BSize(t) + (if els.Some? then SSize(els.value) else 0), 5
  {
    var (s1, v) := CCond(e, c, IfLabels(s, els.Some?));
    var s2 := BrTo(CBlock(t, c, IfTest(s, els.Some?, v, s1)), IfDone(s));
    var s3 := if els.Some? then BrTo(CStmt(els.value, c, Start(s2, IfElse(s, true))), IfDone(s)) else s2;
    Start(s3, IfDone(s))
  }

  // `while`, likewise.

  function WhHead(s0: Out): Lbl { L(WhTop, s0.lbl + 1) }
  function WhBody(s0: Out): Lbl { L(WhTrip, s0.lbl + 2) }
  function WhDone(s0: Out): Lbl { L(WhEnd, s0.lbl + 3) }

  function WhStart(s0: Out): (r: Out)
    ensures Ext(s0, r) && !r.terminated && r.n == s0.n
  {
    Start(BrTo(Lab(Lab(Lab(s0))), WhHead(s0)), WhHead(s0))
  }

  function WhTest(s0: Out, v: Opd, s: Out): (r: Out)
    ensures Ext(s, r) && !r.terminated && r.n == s.n
  {
    Start(End(s, CondBr(v, WhBody(s0), WhDone(s0))), WhBody(s0))
  }

  function CWhile(e: Expr, b: seq<Stmt>, c: Ctx, s: Out): (r: Out)
    ensures Ext(s, r) && !r.terminated
    decreases Lv(c), ESize(e) + BSize(b), 5
  {
    var (s1, v) := CCond(e, c, WhStart(s));
    var s2 := CBlock(b, c.(loops := c.loops + [Loop(WhHead(s), WhDone(s))]), WhTest(s, v, s1));
    Start(BrTo(s2, WhHead(s)), WhDone(s))
  }

  /** The `switch` on the literal arms' constants; the last wildcard is the default, or else the end. */
  function PickSwitch(w: nat, v: Opd, arms: seq<Arm>, s: Out): (r: Out)
    ensures Ext(s, r) && r.n == s.n
  {
    var wild := WildArm(arms);
    var dflt := if wild.Some? then ArmLabel(s.lbl + 2, wild.value) else PickDone(s);
    End(s.(lbl := s.lbl + 1 + |arms|), Switch(w, v, dflt, CasesOf(arms, s.lbl + 2)))
  }

  function PickDone(s0: Out): Lbl { L(PickEnd, s0.lbl + 1) }

  function CPick(e: Expr, arms: seq<Arm>, c: Ctx, s: Out): (r: Out)
    ensures Ext(s, r) && !r.terminated
    decreases Lv(c), ESize(e) + ASize(arms), 5
  {
    var (s1, v) := CExpr(e, c, s);
    var done, first, wild := PickDone(s1), s1.lbl + 2, WildArm(arms);
    var s2 := CArms(arms, 0, first, done, c, PickSwitch(Bits(XTyOf(e, c).ty), v, arms, s1));
    var s3 := if wild.Some? then CArm(ArmAt(arms, wild.value), ArmLabel(first, wild.value), done, c, s2) else s2;
    Start(s3, done)
  }

  function CArm(b: seq<Stmt>, l: Lbl, done: Lbl, c: Ctx, s: Out): (r: Out)
    ensures Ext(s, r)
    decreases Lv(c), BSize(b) + 1, 1
  {
    BrTo(CBlock(b, c, Start(s, l)), done)
  }

  function ArmLabel(first: nat, i: nat): Lbl {
    L(PickArm, first + i)
  }

  function CasesOf(arms: seq<Arm>, first: nat): seq<(int, Lbl)> {
    if arms == [] then []
    else (if arms[0].pat.Some? then [(arms[0].pat.value, ArmLabel(first, 0))] else []) + CasesOf(arms[1..], first + 1)
  }

  /** The literal arms from `i` on, in order. */
  function CArms(arms: seq<Arm>, i: nat, first: nat, done: Lbl, c: Ctx, s: Out): (r: Out)
    ensures Ext(s, r)
    requires i <= |arms|
    decreases Lv(c), ASize(arms), 3, |arms| - i
  {
    if i == |arms| then s
    else if arms[i].pat.None? then CArms(arms, i + 1, first, done, c, s)
    else CArms(arms, i + 1, first, done, c, CArm(ArmAt(arms, i), ArmLabel(first, i), done, c, s))
  }

  // --- the longer constructs, unfolded once -----------------------------------------------

  /** What follows the operand of `?!`, a Result. */
  function EmphaticRest(x: Opd, ty: Ty, s1: Out, k: Expr, c: Ctx): (Out, Opd) {
    var (s2, y) := CExpr(k, c, EmphHead(x, ty, s1));
    TakeValue(x, ty, EmphTail(s1, y, s2))
  }

  lemma EmphaticIs(a: Expr, k: Expr, c: Ctx, s: Out)
    ensures var (s1, x) := CExpr(a, c, s); var t := XTyOf(a, c);
            CEmphatic(a, k, c, s) == if t.Sc? then (s1, x) else EmphaticRest(x, t.ty, s1, k, c)
  {}

  /** What follows the operand of `?|`, a Result with a value. */
  function UnwrapRest(x: Opd, ty: Ty, s1: Out, d: Expr, c: Ctx): (Out, Opd) {
    var (s2, y) := CExpr(d, c, UnwrapHead(x, ty, s1));
    var s3 := UnwrapTail(s1, x, ty, y, s2);
    (s3, Reg(s3.n))
  }

  lemma UnwrapIs(a: Expr, d: Expr, c: Ctx, s: Out)
    ensures var (s1, x) := CExpr(a, c, s); var t := XTyOf(a, c);
            CSafeUnwrap(a, d, c, s) ==
            if t.Sc? then (s1, x)
            else if t.ty.NilT? then (ErrTest(x, t.ty, s1), Const(0))
            else UnwrapRest(x, t.ty, s1, d, c)
  {}

  lemma WhileIs(e: Expr, b: seq<Stmt>, c: Ctx, s: Out)
    ensures var (s1, v) := CCond(e, c, WhStart(s));
            var s2 := CBlock(b, c.(loops := c.loops + [Loop(WhHead(s), WhDone(s))]), WhTest(s, v, s1));
            CWhile(e, b, c, s) == Start(BrTo(s2, WhHead(s)), WhDone(s))
  {}

  /** All the arms: the literal ones, and the last wildcard. */
  function ArmsOut(arms: seq<Arm>, first: nat, done: Lbl, c: Ctx, s: Out): Out {
    var wild, s1 := WildArm(arms), CArms(arms, 0, first, done, c, s);
    if wild.Some? then CArm(ArmAt(arms, wild.value), ArmLabel(first, wild.value), done, c, s1) else s1
  }

  /** What follows the operand of `pick`. */
  function PickRest(w: nat, v: Opd, arms: seq<Arm>, c: Ctx, s1: Out): Out {
    Start(ArmsOut(arms, s1.lbl + 2, PickDone(s1), c, PickSwitch(w, v, arms, s1)), PickDone(s1))
  }

  lemma PickIs(e: Expr, arms: seq<Arm>, c: Ctx, s: Out)
    ensures var (s1, v) := CExpr(e, c, s); CPick(e, arms, c, s) == PickRest(Bits(XTyOf(e, c).ty), v, arms, c, s1)
  {}

  // --- a function -----------------------------------------------------------------------------

  /** Parameters are stored into slots; falling off the end answers zero. */
  function CParams(params: seq<Param>, i: nat, c: Ctx, s: Out): (Out, Ctx)
    requires i <= |params|
    decreases |params| - i
  {
    if i == |params| then (s, c)
    else
      var slot, ty := s.n + 1, params[i].ty;
      CParams(params, i + 1, c.(locals := c.locals[params[i].name := Local(slot, ty)]),
              W(AllocaAt(Tmp(s), slot, Bits(ty)), Store(Bits(ty), Target.Param(i), slot)))
  }

  function CFunc(f: Func, g: Sigs, lbl: nat): Out {
    var (s1, c1) := CParams(f.params, 0, Ctx(map[], [[]], [], g, f, false), Out([], [], 0, lbl, false));
    var s2 := CBlock(f.body, c1, s1);
    if s2.terminated then s2
    else if f.bare then W(s2, RetWord(Bits(f.ret), Const(0)))
    else W(s2, RetZero(ResLLOf(f.ret)))
  }

  /** The text of a function's one entry block and what follows it. */
  function TextOf(s: Out): seq<Line> {
    [Label(Entry)] + s.head + s.body
  }
}
