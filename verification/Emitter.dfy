/** The emitter: one object, its output list and counters updated line by line. */
module Emission {
  import opened Words
  import opened Source
  import opened Target
  import opened Lowering
  import opened Checked
  import opened Layout

  // --- what the emitter needs to end: a defer body does not leave the function ---------------

  predicate FineExpr(e: Expr, inDefer: bool) {
    !inDefer || NoRelay(e)
  }

  predicate Fine(st: Stmt, inDefer: bool)
    decreases SSize(st), 0
  {
    match st
    case Block(b) => FineAll(b, inDefer)
    case VarDecl(_, _, e) => FineExpr(e, inDefer)
    case Assign(_, _, e) => FineExpr(e, inDefer)
    case ExprStmt(e) => FineExpr(e, inDefer)
    case If(e, t, els) => FineExpr(e, inDefer) && FineAll(t, inDefer)
        && (els.Some? ==> (els.value.Block? || els.value.If?) && Fine(els.value, inDefer))
    case While(e, b) => FineExpr(e, inDefer) && FineAll(b, inDefer)
    case Pick(e, arms) => FineExpr(e, inDefer) && FineArms(arms, inDefer)
    case Pass(_) => !inDefer
    case Fail(_) => !inDefer
    case Exit(_) => !inDefer
    case Trap(e) => FineExpr(e, inDefer)
    case Defer(b) => FineAll(b, true)
    case _ => true
  }

  predicate FineAll(ss: seq<Stmt>, inDefer: bool)
    decreases BSize(ss), 1
  {
    ss == [] || (Fine(ss[0], inDefer) && FineAll(ss[1..], inDefer))
  }

  predicate FineArms(arms: seq<Arm>, inDefer: bool)
    decreases ASize(arms), 1
  {
    arms == [] || (FineAll(arms[0].body, inDefer) && FineArms(arms[1..], inDefer))
  }

  predicate FineFrame(frame: seq<seq<Stmt>>) {
    forall i :: 0 <= i < |frame| ==> FineAll(frame[i], true)
  }

  predicate FineFrames(frames: seq<seq<seq<Stmt>>>) {
    forall i :: 0 <= i < |frames| ==> FineFrame(frames[i])
  }

  /** The defers of several frames, innermost frame first and latest first within one. */
  function CFrames(frames: seq<seq<seq<Stmt>>>, c: Ctx, s: Out): (r: Out)
    ensures Ext(s, r)
    decreases |frames|
  {
    if frames == [] then s else CFrames(frames[..|frames| - 1], c, CDefers(frames[|frames| - 1], c, s))
  }

  lemma {:induction false} UnwindIs(frames: seq<seq<seq<Stmt>>>, m: Leave, c: Ctx, s: Out)
    requires !c.inDefer
    ensures CUnwind(frames, m, c, s) == CLeave(m, c, CFrames(frames, c.(inDefer := true), s))
    decreases |frames|
  {
    if frames != [] {
      var k := |frames| - 1;
      UnwindIs(frames[..k], m, c, CDefers(frames[k], c.(inDefer := true), s));
    }
  }

  lemma OneFrame(frame: seq<seq<Stmt>>, c: Ctx, s: Out)
    ensures CFrames([frame], c, s) == CDefers(frame, c, s)
  {
    assert [frame][..0] == [];
  }

  lemma LogicIs(isOr: bool, a: Expr, b: Expr, c: Ctx, s: Out, h: Out, s1: Out, x: Opd, m: Out, s2: Out, y: Opd, s3: Out)
    requires h == LogicHead(s) && (s1, x) == CCond(a, c, h) && m == LogicMid(isOr, s, x, s1)
             && (s2, y) == CCond(b, c, m)
    requires s3 == LogicTail(s, y, s2)
    ensures CLogic(isOr, a, b, c, s) == (s3, Reg(s3.n))
  {}

  lemma UnwrapTailFrom(s0: Out, x: Opd, ty: Ty, y: Opd, s: Out, s1: Out, s2: Out)
    requires s1 == W(W(W(s, Store(Bits(ty), y, s0.n + 3)), Br(L(QpDone, s0.lbl + 3))), Label(L(QpOk, s0.lbl + 2)))
    requires var r := s1.n + 1;
             s2 == W(W(W(Ins1(s1, Extract(r, x, 0, Bits(ty))), Store(Bits(ty), Reg(r), s0.n + 3)),
                 Br(L(QpDone, s0.lbl + 3))), Label(L(QpDone, s0.lbl + 3)))
    ensures UnwrapTail(s0, x, ty, y, s) == Ins1(s2, Load(s2.n + 1, Bits(ty), s0.n + 3))
  {}

  lemma FrameSize(frame: seq<seq<Stmt>>)
    ensures FsSize([frame]) == FSize(frame)
  {
    assert [frame][..0] == [];
  }

  /** From `c` to `c1` only locals were added, and while the block was open `more` joined the innermost frame. */
  ghost predicate Grown(c: Ctx, c1: Ctx, ended: bool, more: seq<seq<Stmt>>) {
    var k := |c.defers| - 1;
    && k >= 0 && c1 == c.(locals := c1.locals, defers := c1.defers) && |c1.defers| == k + 1
       && c1.defers[..k] == c.defers[..k]
    && (!ended ==> c1.defers[k] == c.defers[k] + more)
  }

  lemma GrownOn(c: Ctx, c1: Ctx, c2: Ctx, ended: bool, a: seq<seq<Stmt>>, b: seq<seq<Stmt>>)
    requires Grown(c, c1, false, a) && Grown(c1, c2, ended, b)
    ensures Grown(c, c2, ended, a + b)
  {
    var k := |c.defers| - 1;
    assert (c.defers[k] + a) + b == c.defers[k] + (a + b);
  }

  function Registered(st: Stmt): seq<seq<Stmt>> {
    if st.Defer? then [st.body] else []
  }

  lemma GrownAfter(st: Stmt, c: Ctx, s: Out)
    requires c.defers != []
    ensures Grown(c, After(st, c, s), false, Registered(st))
  {
    var k := |c.defers| - 1;
    assert c.defers[k] + [] == c.defers[k];
  }

  lemma GrownNone(ss: seq<Stmt>, c: Ctx, s: Out)
    requires c.defers != [] && (ss == [] || s.terminated)
    ensures Grown(c, c, s.terminated, DefersOf(ss))
  {
    var k := |c.defers| - 1;
    assert c.defers[k] + [] == c.defers[k];
  }

  lemma GrownBody(ss: seq<Stmt>, c: Ctx, ended: bool, c1: Ctx)
    requires Grown(c.(defers := c.defers + [[]]), c1, ended, DefersOf(ss))
    ensures |c1.defers| == |c.defers| + 1 && c1.defers[..|c1.defers| - 1] == c.defers
            && c1.(defers := c.defers) == c.(locals := c1.locals)
    ensures !ended ==> c1.defers[|c1.defers| - 1] == DefersOf(ss)
  {
    assert (c.defers + [[]])[..|c.defers|] == c.defers;
    assert [] + DefersOf(ss) == DefersOf(ss);
  }

  /** A statement list adds locals, and its defers to the innermost frame. */
  lemma {:induction false} StmtsScope(ss: seq<Stmt>, c: Ctx, s: Out)
    requires c.defers != []
    ensures var (s1, c1) := CStmts(ss, c, s); Grown(c, c1, s1.terminated, DefersOf(ss))
    decreases |ss|
  {
    if ss == [] || s.terminated {
      GrownNone(ss, c, s);
    } else {
      var s1, c1 := CStmt(ss[0], c, s), After(ss[0], c, s);
      GrownAfter(ss[0], c, s);
      StmtsScope(ss[1..], c1, s1);
      var (s2, c2) := CStmts(ss[1..], c1, s1);
      GrownOn(c, c1, c2, s2.terminated, Registered(ss[0]), DefersOf(ss[1..]));
    }
  }

  /** The end of a body: its own frame is on top of those outside, and holds its defers if the block is open. */
  lemma BodyEnd(ss: seq<Stmt>, c: Ctx, s: Out, s1: Out, c1: Ctx)
    requires (s1, c1) == CStmts(ss, c.(defers := c.defers + [[]]), s)
    ensures var k := |c1.defers| - 1;
            && k >= 0 && c1.(defers := c1.defers[..k]) == c.(locals := c1.locals)
               && (s1.terminated || FSize(c1.defers[k]) <= BSize(ss))
            && CBlock(ss, c, s) == if s1.terminated then s1
               else CDefers(c1.defers[k], c1.(defers := c1.defers[..k], inDefer := true), s1)
  {
    StmtsScope(ss, c.(defers := c.defers + [[]]), s);
    GrownBody(ss, c, s1.terminated, c1);
    DefersSize(ss);
  }

  lemma IfIs(e: Expr, t: seq<Stmt>, els: Option<Stmt>, c: Ctx, s: Out, s1: Out, v: Opd, h: Out, s2: Out, s3: Out)
    requires (s1, v) == CCond(e, c, IfLabels(s, els.Some?)) && h == End(s1, CondBr(v, IfThen(s), IfElse(s, els.Some?)))
    requires s2 == CArm(t, IfThen(s), IfDone(s), c, h)
    requires s3 == if els.Some? then BrTo(CStmt(els.value, c, Start(s2, IfElse(s, true))), IfDone(s)) else s2
    ensures CIf(e, t, els, c, s) == Start(s3, IfDone(s))
  {}

  lemma WhileFrom(e: Expr, b: seq<Stmt>, c: Ctx, s: Out, h: Out, s1: Out, v: Opd, b0: Out, s2: Out, sF: Out)
    requires h == WhStart(s) && (s1, v) == CCond(e, c, h) && b0 == WhTest(s, v, s1)
    requires s2 == CBlock(b, c.(loops := c.loops + [Loop(WhHead(s), WhDone(s))]), b0)
             && sF == Start(BrTo(s2, WhHead(s)), WhDone(s))
    ensures CWhile(e, b, c, s) == sF
  {}

  /** The literal arms from `i` on: constant, label, and which arm. */
  function LitsFrom(arms: seq<Arm>, i: nat, first: nat): seq<(int, Lbl, nat)>
    requires i <= |arms|
    decreases |arms| - i
  {
    if i == |arms| then []
    else (if arms[i].pat.Some? then [(arms[i].pat.value, ArmLabel(first, i), i)] else []) + LitsFrom(arms, i + 1, first)
  }

  /** The default: the last wildcard's label, and which arm. */
  function WildLabel(arms: seq<Arm>, first: nat): Option<(Lbl, nat)> {
    var i := WildArm(arms);
    if i.Some? then Some((ArmLabel(first, i.value), i.value)) else None
  }

  lemma WildStep(arms: seq<Arm>, i: nat, first: nat)
    requires i < |arms|
    ensures WildLabel(arms[..i + 1], first) == if arms[i].pat.None? then Some((ArmLabel(first, i), i))
            else WildLabel(arms[..i], first)
  {
    assert arms[..i + 1][..i] == arms[..i];
  }

  function CasesIn(lits: seq<(int, Lbl, nat)>): seq<(int, Lbl)> {
    seq(|lits|, i requires 0 <= i < |lits| => (lits[i].0, lits[i].1))
  }

  lemma {:induction false} CasesFrom(arms: seq<Arm>, i: nat, first: nat)
    requires i <= |arms|
    ensures CasesIn(LitsFrom(arms, i, first)) == CasesOf(arms[i..], first + i)
    decreases |arms| - i
  {
    if i < |arms| {
      assert arms[i..][1..] == arms[i + 1..];
      CasesFrom(arms, i + 1, first);
    }
  }

  lemma {:induction false} ArmFacts(arms: seq<Arm>, i: nat, inDefer: bool)
    requires i < |arms|
    ensures ArmAt(arms, i) == arms[i].body && BSize(arms[i].body) + 1 < ASize(arms)
    ensures FineArms(arms, inDefer) ==> FineAll(arms[i].body, inDefer)
  {
    if i > 0 { ArmFacts(arms[1..], i - 1, inDefer); }
  }

  /** The next literal arm: wildcards before it are passed over. */
  lemma {:induction false} NextLit(arms: seq<Arm>, i: nat, first: nat, done: Lbl, c: Ctx, s: Out) returns (j: nat)
    requires i <= |arms| && LitsFrom(arms, i, first) != []
    ensures i <= j < |arms| && arms[j].pat.Some?
            && CArms(arms, i, first, done, c, s) == CArms(arms, j, first, done, c, s)
    ensures LitsFrom(arms, i, first) == [(arms[j].pat.value, ArmLabel(first, j), j)] + LitsFrom(arms, j + 1, first)
    decreases |arms| - i
  {
    j := i;
    if arms[i].pat.None? { j := NextLit(arms, i + 1, first, done, c, s); }
  }

  lemma NextArm(arms: seq<Arm>, lits: seq<(int, Lbl, nat)>, k: nat, i: nat, first: nat, done: Lbl, c: Ctx, s: Out)
          returns (j: nat)
    requires i <= |arms| && k < |lits| && lits[k..] == LitsFrom(arms, i, first)
    ensures i <= j < |arms| && lits[k].1 == ArmLabel(first, j) && lits[k].2 == j
            && lits[k + 1..] == LitsFrom(arms, j + 1, first)
    ensures CArms(arms, i, first, done, c, s) == CArms(arms, j + 1, first, done, c,
            CArm(arms[j].body, lits[k].1, done, c, s))
  {
    j := NextLit(arms, i, first, done, c, s);
    ArmFacts(arms, j, false);
    assert lits[k] == lits[k..][0] && lits[k..][1..] == lits[k + 1..];
  }

  lemma {:induction false} NoLit(arms: seq<Arm>, i: nat, first: nat, done: Lbl, c: Ctx, s: Out)
    requires i <= |arms| && LitsFrom(arms, i, first) == []
    ensures CArms(arms, i, first, done, c, s) == s
    decreases |arms| - i
  {
    if i < |arms| { NoLit(arms, i + 1, first, done, c, s); }
  }

  lemma {:induction false} ParamsScope(params: seq<Source.Param>, i: nat, c: Ctx, s: Out)
    requires i <= |params|
    ensures var c1 := CParams(params, i, c, s).1; c1 == c.(locals := c1.locals)
    decreases |params| - i
  {
    if i < |params| {
      var slot, ty := s.n + 1, params[i].ty;
      ParamsScope(params, i + 1, c.(locals := c.locals[params[i].name := Local(slot, ty)]),
                  W(AllocaAt(Tmp(s), slot, Bits(ty)), Store(Bits(ty), Target.Param(i), slot)));
    }
  }

  lemma PickFrom(e: Expr, arms: seq<Arm>, c: Ctx, s: Out, s1: Out, v: Opd, sw: Out, s2: Out)
    requires (s1, v) == CExpr(e, c, s) && sw == PickSwitch(Bits(XTyOf(e, c).ty), v, arms, s1)
    requires s2 == ArmsOut(arms, s1.lbl + 2, PickDone(s1), c, sw)
    ensures CPick(e, arms, c, s) == Start(s2, PickDone(s1))
  {
    PickIs(e, arms, c, s);
  }

  lemma FuncIs(f: Func, g: Sigs, lbl: nat, s1: Out, c1: Ctx, s3: Out)
    requires (s1, c1) == CParams(f.params, 0, Ctx0(f, g), Start0(lbl))
    requires var s2 := CBlock(f.body, c1, s1);
             s3 == if s2.terminated then s2
                 else W(s2, if f.bare then RetWord(Bits(f.ret), Const(0)) else RetZero(ResLLOf(f.ret)))
    ensures CFunc(f, g, lbl) == s3
  {}

  lemma Assembled(a: seq<Line>, d: Line, h: seq<Line>, b: seq<Line>)
    ensures a + [d, Label(Entry)] + h + b + [Close] + [Blank] == a + [d] + ([Label(Entry)] + h + b) + [Close, Blank]
  {}

  // --- the checks the emitter takes for granted give it what it needs -------------------------

  lemma {:induction false} OkFineAll(ss: seq<Stmt>, k: Chk)
    requires OkStmts(ss, k)
    ensures FineAll(ss, k.inDefer)
    decreases BSize(ss), 1
  {
    if ss != [] {
      OkFine(ss[0], k);
      OkFineAll(ss[1..], AfterK(ss[0], k));
    }
  }

  lemma {:induction false} OkFineArms(arms: seq<Arm>, k: Chk)
    requires OkArms(arms, k)
    ensures FineArms(arms, k.inDefer)
    decreases ASize(arms), 1
  {
    if arms != [] {
      OkFineBody(arms[0].body, k);
      OkFineArms(arms[1..], k);
    }
  }

  lemma OkFineBody(ss: seq<Stmt>, k: Chk)
    requires OkBlock(ss, k)
    ensures FineAll(ss, k.inDefer)
    decreases BSize(ss), 2
  {
    OkFineAll(ss, k.(defers := k.defers + [[]]));
  }

  lemma OkFineExpr(e: Expr, k: Chk)
    requires OkExpr(e, k)
    ensures FineExpr(e, k.inDefer)
  {}

  /** A defer body that passes the checks does not leave the function. */
  lemma {:induction false} OkFine(st: Stmt, k: Chk)
    requires OkStmt(st, k)
    ensures Fine(st, k.inDefer)
    decreases SSize(st), 0
  {
    match st {
      case Block(b) => OkFineBody(b, k);
      case VarDecl(_, _, e) => OkFineExpr(e, k);
      case Assign(_, _, e) => OkFineExpr(e, k);
      case ExprStmt(e) => OkFineExpr(e, k);
      case Trap(e) => OkFineExpr(e, k);
      case If(e, t, els) =>
        OkFineExpr(e, k);
        OkFineBody(t, k);
        if els.Some? { OkFine(els.value, k); }
      case While(e, b) =>
        OkFineExpr(e, k);
        OkFineBody(b, k.(loop := Some(|k.defers|)));
      case Pick(e, arms) =>
        OkFineExpr(e, k);
        OkFineArms(arms, k);
      case Defer(b) => OkFineBody(b, InDefer(k));
      case _ =>
    }
  }

  class Emitter {
    var out: seq<Line>
    var allocaIp: nat
    var n: nat
    var lbl: nat
    var terminated: bool
    var locals: map<string, Local>
    var defers: seq<seq<seq<Stmt>>>
    var loops: seq<Loop>
    var fn: Func
    const g: Sigs
    ghost var start: nat       // the lines of the current function's entry block start here
    ghost var inDefer: bool    // a defer body is being lowered

    ghost predicate Valid()
      reads this
    {
      start <= allocaIp <= |out| && FineFrames(defers)
    }

    /** The output of the current function. */
    ghost function View(): Out
      requires Valid()
      reads this
    {
      Out(out[start..allocaIp], out[allocaIp..], n, lbl, terminated)
    }

    ghost function Scope(): Ctx
      reads this
    {
      Ctx(locals, defers, loops, g, fn, inDefer)
    }

    /** What was written before the current function. */
    ghost function Prior(): seq<Line>
      requires Valid()
      reads this
    {
      out[..start]
    }

    constructor (sigs: Sigs)
      ensures Valid() && out == [] && lbl == 0 && g == sigs
    {
      out, allocaIp, n, lbl, terminated := [], 0, 0, 0, false;
      locals, defers, loops, fn, g := map[], [], [], Func([], NilT, false, []), sigs;
      start, inDefer := 0, false;
    }

    // --- plumbing --------------------------------------------------------------------------

    method Temp() returns (r: nat)
      requires Valid()
      modifies this`n
      ensures Valid() && View() == Tmp(old(View())) && r == old(n) + 1
      ensures Scope() == old(Scope()) && Prior() == old(Prior())
    {
      n := n + 1;
      r := n;
    }

    method NewLabel(stem: Stem) returns (l: Lbl)
      requires Valid()
      modifies this`lbl
      ensures Valid() && View() == Lab(old(View())) && l == L(stem, old(lbl) + 1)
      ensures Scope() == old(Scope()) && Prior() == old(Prior())
    {
      lbl := lbl + 1;
      l := L(stem, lbl);
    }

    method Write(x: Line)
      requires Valid()
      modifies this`out
      ensures Valid() && View() == W(old(View()), x)
      ensures Scope() == old(Scope()) && Prior() == old(Prior())
    {
      out := out + [x];
      assert out[allocaIp..] == old(out)[allocaIp..] + [x];
    }

    /** Hoisted to the entry block: inserted after the earlier allocas, and the cursor moves past it. */
    method AllocaSlot(slot: nat, w: nat)
      requires Valid()
      modifies this`out, this`allocaIp
      ensures Valid() && View() == AllocaAt(old(View()), slot, w)
      ensures Scope() == old(Scope()) && Prior() == old(Prior())
    {
      out := out[..allocaIp] + [Alloca(slot, w)] + out[allocaIp..];
      allocaIp := allocaIp + 1;
      assert out[start..allocaIp] == old(out[start..allocaIp]) + [Alloca(slot, w)];
      assert out[allocaIp..] == old(out[allocaIp..]);
    }

    method NewSlot(w: nat) returns (slot: nat)
      requires Valid()
      modifies this
      ensures Valid() && View() == AllocaAt(Tmp(old(View())), old(n) + 1, w) && slot == old(n) + 1
      ensures Scope() == old(Scope()) && Prior() == old(Prior())
    {
      slot := Temp();
      AllocaSlot(slot, w);
    }

    method StartBlock(l: Lbl)
      requires Valid()
      modifies this`out, this`terminated
      ensures Valid() && View() == Start(old(View()), l)
      ensures Scope() == old(Scope()) && Prior() == old(Prior())
    {
      Write(Label(l));
      terminated := false;
    }

    method Terminate(x: Line)
      requires Valid()
      modifies this`out, this`terminated
      ensures Valid() && View() == End(old(View()), x)
      ensures Scope() == old(Scope()) && Prior() == old(Prior())
    {
      Write(x);
      terminated := true;
    }

    /** A two-way branch, and on with its first side. */
    method Fork(v: Opd, yes: Lbl, no: Lbl)
      requires Valid()
      modifies this
      ensures Valid() && View() == Start(End(old(View()), CondBr(v, yes, no)), yes)
      ensures Scope() == old(Scope()) && Prior() == old(Prior())
    {
      Terminate(CondBr(v, yes, no));
      StartBlock(yes);
    }

    method Branch(l: Lbl)
      requires Valid()
      modifies this`out, this`terminated
      ensures Valid() && View() == BrTo(old(View()), l)
      ensures Scope() == old(Scope()) && Prior() == old(Prior())
    {
      if !terminated { Terminate(Br(l)); }
    }

    // --- expressions ------------------------------------------------------------------------

    method EmitExpr(e: Expr) returns (x: Opd)
      requires Valid() && FineExpr(e, inDefer)
      modifies this
      ensures Valid() && (View(), x) == CExpr(e, old(Scope()), old(View()))
      ensures Scope() == old(Scope()) && Prior() == old(Prior())
      decreases if inDefer then 0 else 1, ESize(e), 5
    {
      match e {
        case IntLit(v, _) => x := Const(v);
        case BoolLit(b) => x := Const(if b then 1 else 0);
        case NilLit => x := Const(0);
        case Var(name) => x := EmitVar(name);
        case Unary(op, a) => x := EmitUnary(op, a);
        case Arith(op, a, b) => x := EmitArith(op, a, b);
        case Compare(op, a, b) => x := EmitCompare(op, a, b);
        case Logic(isOr, a, b) => x := EmitLogic(isOr, a, b);
        case Call(f, args) => x := EmitCall(f, args);
        case ResultOf(op, a) => x := EmitResult(op, a);
        case Emphatic(a, k) => x := EmitEmphatic(a, k);
        case SafeUnwrap(a, d) => x := EmitSafeUnwrap(a, d);
      }
    }

    /** The checker's type of an expression, in the scope the emitter knows. */
    function TypeHere(e: Expr): (t: XTy)
      reads this
      ensures t == XTyOf(e, Scope())
    {
      var t := TypeOf(e, TypesOf(locals), g);
      if t.Some? then t.value else Sc(NilT)
    }

    method EmitUnary(op: UnOp, a: Expr) returns (x: Opd)
      requires Valid() && FineExpr(a, inDefer)
      modifies this
      ensures Valid() && (View(), x) == CExpr(Unary(op, a), old(Scope()), old(View()))
      ensures Scope() == old(Scope()) && Prior() == old(Prior())
      decreases if inDefer then 0 else 1, ESize(a), 6
    {
      var w := Bits(TypeHere(a).ty);
      var v := EmitExpr(a);
      x := WriteUnary(op, w, v);
    }

    method WriteUnary(op: UnOp, w: nat, v: Opd) returns (x: Opd)
      requires Valid()
      modifies this
      ensures Valid() && View() == UnaryTail(op, w, v, old(View())) && x == Reg(old(n) + 1)
      ensures Scope() == old(Scope()) && Prior() == old(Prior())
    {
      var r := Temp();
      match op {
        case Neg => Write(Bin(r, MSub, w, Const(0), v));
        case Compl => Write(Bin(r, MXor, w, v, Const(-1)));
        case Not =>
          var c := Temp();
          Write(Icmp(c, PNe, w, v, Const(0)));
          var t := Temp();
          Write(Bin(t, MXor, 1, Reg(c), Const(1)));
          Write(Zext(r, Reg(t), 8));
      }
      x := Reg(r);
    }

    method EmitVar(name: string) returns (x: Opd)
      requires Valid()
      modifies this
      ensures Valid() && View() == VarTail(SlotOf(old(Scope()), name), old(View())) && x == Reg(old(n) + 1)
      ensures Scope() == old(Scope()) && Prior() == old(Prior())
    {
      var l := if name in locals then locals[name] else Local(0, NilT);
      var r := Temp();
      Write(Load(r, Bits(l.ty), l.slot));
      x := Reg(r);
    }

    method EmitArith(op: BinOp, a: Expr, b: Expr) returns (x: Opd)
      requires Valid() && FineExpr(a, inDefer) && FineExpr(b, inDefer)
      modifies this
      ensures Valid() && (View(), x) == CExpr(Arith(op, a, b), old(Scope()), old(View()))
      ensures Scope() == old(Scope()) && Prior() == old(Prior())
      decreases if inDefer then 0 else 1, ESize(a) + ESize(b), 7
    {
      var ty, v, w := EmitOperands(a, b);
      x := WriteArith(op, v, w, ty);
    }

    method EmitCompare(op: CmpOp, a: Expr, b: Expr) returns (x: Opd)
      requires Valid() && FineExpr(a, inDefer) && FineExpr(b, inDefer)
      modifies this
      ensures Valid() && (View(), x) == CExpr(Compare(op, a, b), old(Scope()), old(View()))
      ensures Scope() == old(Scope()) && Prior() == old(Prior())
      decreases if inDefer then 0 else 1, ESize(a) + ESize(b), 7
    {
      var ty, v, w := EmitOperands(a, b);
      x := WriteCompare(op, v, w, ty);
    }

    /** Both operands, left first; the left one's type decides the instruction. */
    method EmitOperands(a: Expr, b: Expr) returns (ty: Ty, v: Opd, w: Opd)
      requires Valid() && FineExpr(a, inDefer) && FineExpr(b, inDefer)
      modifies this
      ensures Valid() && var (s1, x) := CExpr(a, old(Scope()), old(View()));
              v == x && (View(), w) == CExpr(b, old(Scope()), s1)
      ensures ty == XTyOf(a, old(Scope())).ty && Scope() == old(Scope()) && Prior() == old(Prior())
      decreases if inDefer then 0 else 1, ESize(a) + ESize(b), 6
    {
      ty := TypeHere(a).ty;
      v := EmitExpr(a);
      w := EmitExpr(b);
    }

    method WriteArith(op: BinOp, a: Opd, b: Opd, ty: Ty) returns (x: Opd)
      requires Valid()
      modifies this
      ensures Valid() && View() == ArithTail(op, ty, a, b, old(View())) && x == Reg(old(n) + 1)
      ensures Scope() == old(Scope()) && Prior() == old(Prior())
    {
      var r := Temp();
      Write(Bin(r, LowerOp(op, Signed(ty)), Bits(ty), a, b));
      x := Reg(r);
    }

    method WriteCompare(op: CmpOp, a: Opd, b: Opd, ty: Ty) returns (x: Opd)
      requires Valid()
      modifies this
      ensures Valid() && View() == CompareTail(op, ty, a, b, old(View())) && x == Reg(old(n) + 2)
      ensures Scope() == old(Scope()) && Prior() == old(Prior())
    {
      var r := Temp();
      Write(Icmp(r, LowerCmp(op, Signed(ty)), Bits(ty), a, b));
      var z := Temp();
      Write(Zext(z, Reg(r), 8));
      x := Reg(z);
    }

    /** Short-circuiting, without phi: a slot the two paths write. */
    method EmitLogic(isOr: bool, a: Expr, b: Expr) returns (x: Opd)
      requires Valid() && FineExpr(a, inDefer) && FineExpr(b, inDefer)
      modifies this
      ensures Valid() && (View(), x) == CLogic(isOr, a, b, old(Scope()), old(View()))
      ensures Scope() == old(Scope()) && Prior() == old(Prior())
      decreases if inDefer then 0 else 1, ESize(a) + ESize(b), 7
    {
      ghost var c, s0 := Scope(), View();
      var slot, rhs, done := BeginLogic();
      ghost var h := View();
      var l := EmitCond(a);
      ghost var s1 := View();
      ForkLogic(isOr, l, slot, rhs, done, s0);
      ghost var m := View();
      var r := EmitCond(b);
      ghost var s2 := View();
      x := EndLogic(r, slot, done, s0);
      LogicIs(isOr, a, b, c, s0, h, s1, l, m, s2, r, View());
    }

    method BeginLogic() returns (slot: nat, rhs: Lbl, done: Lbl)
      requires Valid()
      modifies this
      ensures Valid() && View() == LogicHead(old(View())) && Scope() == old(Scope()) && Prior() == old(Prior())
      ensures slot == old(n) + 1 && rhs == L(ScRhs, old(lbl) + 1) && done == L(ScDone, old(lbl) + 2)
    {
      slot := NewSlot(8);
      rhs := NewLabel(ScRhs);
      done := NewLabel(ScDone);
    }

    method ForkLogic(isOr: bool, l: Opd, slot: nat, rhs: Lbl, done: Lbl, ghost s0: Out)
      requires Valid() && slot == s0.n + 1 && rhs == L(ScRhs, s0.lbl + 1) && done == L(ScDone, s0.lbl + 2)
      modifies this
      ensures Valid() && View() == LogicMid(isOr, s0, l, old(View())) && Scope() == old(Scope())
              && Prior() == old(Prior())
    {
      Write(Store(8, Const(if isOr then 1 else 0), slot));
      Terminate(if isOr then CondBr(l, done, rhs) else CondBr(l, rhs, done));
      StartBlock(rhs);
    }

    method EndLogic(r: Opd, slot: nat, done: Lbl, ghost s0: Out) returns (x: Opd)
      requires Valid() && slot == s0.n + 1 && done == L(ScDone, s0.lbl + 2)
      modifies this
      ensures Valid() && View() == LogicTail(s0, r, old(View())) && x == Reg(n) && Scope() == old(Scope())
              && Prior() == old(Prior())
    {
      StoreByte(r, slot);
      Branch(done);
      StartBlock(done);
      var t := Temp();
      Write(Load(t, 8, slot));
      x := Reg(t);
    }

    method StoreByte(r: Opd, slot: nat)
      requires Valid()
      modifies this
      ensures Valid() && View() == W(Ins1(old(View()), Zext(old(n) + 1, r, 8)), Store(8, Reg(old(n) + 1), slot))
      ensures Scope() == old(Scope()) && Prior() == old(Prior())
    {
      var z := Temp();
      Write(Zext(z, r, 8));
      Write(Store(8, Reg(z), slot));
    }

    method EmitCond(e: Expr) returns (x: Opd)
      requires Valid() && FineExpr(e, inDefer)
      modifies this
      ensures Valid() && (View(), x) == CCond(e, old(Scope()), old(View()))
      ensures Scope() == old(Scope()) && Prior() == old(Prior())
      decreases if inDefer then 0 else 1, ESize(e), 6
    {
      var w := Bits(TypeHere(e).ty);
      var v := EmitExpr(e);
      var r := Temp();
      Write(Icmp(r, PNe, w, v, Const(0)));
      x := Reg(r);
    }

    method EmitCall(f: string, args: seq<Expr>) returns (x: Opd)
      requires Valid() && (!inDefer || NoRelays(args))
      modifies this
      ensures Valid() && (View(), x) == CExpr(Call(f, args), old(Scope()), old(View()))
      ensures Scope() == old(Scope()) && Prior() == old(Prior())
      decreases if inDefer then 0 else 1, ESizes(args), 7
    {
      var xs := EmitArgs(args);
      var r := Temp();
      Write(CallFn(r, if f in g then ResLLOf(g[f].ret) else Lone, f, xs));
      x := Reg(r);
    }

    method EmitArgs(args: seq<Expr>) returns (xs: seq<(nat, Opd)>)
      requires Valid() && (!inDefer || NoRelays(args))
      modifies this
      ensures Valid() && (View(), xs) == CArgs(args, old(Scope()), old(View()))
      ensures Scope() == old(Scope()) && Prior() == old(Prior())
      decreases if inDefer then 0 else 1, ESizes(args), 6
    {
      ghost var c, s0 := Scope(), View();
      xs := [];
      var i := 0;
      assert args[i..] == args && forall ys: seq<(nat, Opd)> :: [] + ys == ys;
      while i < |args|
        invariant 0 <= i <= |args| && Valid() && Scope() == c && Prior() == old(Prior())
        invariant !inDefer || NoRelays(args[i..])
        invariant ESizes(args[i..]) <= ESizes(args)
        invariant var (s1, ys) := CArgs(args[i..], c, View()); CArgs(args, c, s0) == (s1, xs + ys)
      {
        var rest := args[i..];
        assert rest[1..] == args[i + 1..];
        var w := Bits(TypeHere(args[i]).ty);
        var v := EmitExpr(args[i]);
        ghost var ys := CArgs(args[i + 1..], c, View()).1;
        assert xs + ([(w, v)] + ys) == (xs + [(w, v)]) + ys;
        xs := xs + [(w, v)];
        i := i + 1;
      }
      assert args[i..] == [] && xs + [] == xs;
    }

    /** `raw`, `drop` and `relay`. */
    method EmitResult(op: ResOp, a: Expr) returns (x: Opd)
      requires Valid() && FineExpr(ResultOf(op, a), inDefer)
      modifies this
      ensures Valid() && (View(), x) == CResultOf(op, a, old(Scope()), old(View()))
      ensures Scope() == old(Scope()) && Prior() == old(Prior())
      decreases if inDefer then 0 else 1, ESize(a), 7
    {
      var t := TypeHere(a);
      var v := EmitExpr(a);
      if op.Drop? { x := Const(0); return; }
      if t.Sc? { x := v; return; }
      x := EmitValue(v, t.ty);
      if op.Relay? { EmitRelay(v, t.ty); }
    }

    method EmitValue(v: Opd, ty: Ty) returns (x: Opd)
      requires Valid()
      modifies this
      ensures Valid() && (View(), x) == TakeValue(v, ty, old(View())) && Scope() == old(Scope())
              && Prior() == old(Prior())
    {
      if ty.NilT? { x := Const(0); return; }
      var r := Temp();
      Write(Extract(r, v, 0, Bits(ty)));
      x := Reg(r);
    }

    method EmitErrTest(v: Opd, ty: Ty) returns (code: nat, bad: nat)
      requires Valid()
      modifies this
      ensures Valid() && View() == ErrTest(v, ty, old(View())) && code == old(n) + 1 && bad == old(n) + 2
      ensures Scope() == old(Scope()) && Prior() == old(Prior())
    {
      code := Temp();
      Write(Extract(code, v, if ty.NilT? then 0 else 1, 32));
      bad := Temp();
      Write(Icmp(bad, PNe, 32, Reg(code), Const(0)));
    }

    /** On an error, the same code from the enclosing function; the defers run. */
    method EmitRelay(v: Opd, ty: Ty)
      requires Valid() && !inDefer
      modifies this
      ensures Valid() && View() == CRelay(v, ty, old(Scope()), old(View()))
      ensures Scope() == old(Scope()) && Prior() == old(Prior())
      decreases 1, 0, 6
    {
      var code, ok := ForkRelay(v, ty);
      UnwindIs(defers, LErr(Reg(code)), Scope(), View());
      RunAllDefers();
      EmitReturnErr(Reg(code));
      StartBlock(ok);
    }

    method ForkRelay(v: Opd, ty: Ty) returns (code: nat, ok: Lbl)
      requires Valid()
      modifies this
      ensures Valid() && View() == RelayHead(v, ty, old(View())) && code == old(n) + 1 && ok == L(RelayOk, old(lbl) + 2)
      ensures Scope() == old(Scope()) && Prior() == old(Prior())
    {
      var bad;
      code, bad := EmitErrTest(v, ty);
      var err := NewLabel(RelayErr);
      ok := NewLabel(RelayOk);
      Fork(Reg(bad), err, ok);
    }

    /** The trap: `failsafe` is called with the code, and the process exits with its answer. */
    method EmitTrap(code: Opd)
      requires Valid()
      modifies this
      ensures Valid() && View() == W(W(Ins1(old(View()), CallFailsafe(old(n) + 1, code)), CallExit(Reg(old(n) + 1))),
              Unreachable)
      ensures Scope() == old(Scope()) && Prior() == old(Prior())
    {
      var r := Temp();
      Write(CallFailsafe(r, code));
      Write(CallExit(Reg(r)));
      Write(Unreachable);
    }

    method EmitStop(e: Expr)
      requires Valid() && FineExpr(e, inDefer)
      modifies this
      ensures Valid() && View() == CStmt(Trap(e), old(Scope()), old(View()))
      ensures Scope() == old(Scope()) && Prior() == old(Prior())
      decreases if inDefer then 0 else 1, ESize(e), 6
    {
      var x := EmitExpr(e);
      EmitTrap(x);
      terminated := true;
    }

    /** `e ?! code`: on an error, a trap with the caller's code, and no defer runs. */
    method EmitEmphatic(a: Expr, k: Expr) returns (x: Opd)
      requires Valid() && FineExpr(a, inDefer) && FineExpr(k, inDefer)
      modifies this
      ensures Valid() && (View(), x) == CEmphatic(a, k, old(Scope()), old(View()))
      ensures Scope() == old(Scope()) && Prior() == old(Prior())
      decreases if inDefer then 0 else 1, ESize(a) + ESize(k), 7
    {
      var t := TypeHere(a);
      var v := EmitExpr(a);
      if t.Sc? { x := v; return; }
      EmphaticIs(a, k, old(Scope()), old(View()));
      x := EmitOrTrap(v, t.ty, k);
    }

    /** `e ?! code` from the test of the error code on. */
    method EmitOrTrap(v: Opd, ty: Ty, k: Expr) returns (x: Opd)
      requires Valid() && FineExpr(k, inDefer)
      modifies this
      ensures Valid() && (View(), x) == EmphaticRest(v, ty, old(View()), k, old(Scope()))
      ensures Scope() == old(Scope()) && Prior() == old(Prior())
      decreases if inDefer then 0 else 1, ESize(k), 6
    {
      var ok := ForkEmphatic(v, ty);
      var y := EmitExpr(k);
      EndEmphatic(y, ok, old(View()));
      x := EmitValue(v, ty);
    }

    method EndEmphatic(y: Opd, ok: Lbl, ghost s1: Out)
      requires Valid() && ok == L(EmphOk, s1.lbl + 2)
      modifies this
      ensures Valid() && View() == EmphTail(s1, y, old(View())) && Scope() == old(Scope()) && Prior() == old(Prior())
    {
      EmitTrap(y);
      Write(Label(ok));
    }

    method ForkEmphatic(v: Opd, ty: Ty) returns (ok: Lbl)
      requires Valid()
      modifies this
      ensures Valid() && View() == EmphHead(v, ty, old(View())) && ok == L(EmphOk, old(lbl) + 2)
      ensures Scope() == old(Scope()) && Prior() == old(Prior())
    {
      var code, bad := EmitErrTest(v, ty);
      var err := NewLabel(EmphErr);
      ok := NewLabel(EmphOk);
      Write(CondBr(Reg(bad), err, ok));
      Write(Label(err));
    }

    /** `e ?| default`: the fallback on the error path only. */
    method EmitSafeUnwrap(a: Expr, d: Expr) returns (x: Opd)
      requires Valid() && FineExpr(a, inDefer) && FineExpr(d, inDefer)
      modifies this
      ensures Valid() && (View(), x) == CSafeUnwrap(a, d, old(Scope()), old(View()))
      ensures Scope() == old(Scope()) && Prior() == old(Prior())
      decreases if inDefer then 0 else 1, ESize(a) + ESize(d), 7
    {
      var t := TypeHere(a);
      var v := EmitExpr(a);
      if t.Sc? { x := v; return; }
      UnwrapIs(a, d, old(Scope()), old(View()));
      ghost var s1 := View();
      var _, bad := EmitErrTest(v, t.ty);
      if t.ty.NilT? { x := Const(0); return; }
      x := EmitFallback(v, t.ty, d, bad, s1);
    }

    /** `e ?| default` from the test of the error code on. */
    method EmitFallback(v: Opd, ty: Ty, d: Expr, bad: nat, ghost s1: Out) returns (x: Opd)
      requires Valid() && FineExpr(d, inDefer) && View() == ErrTest(v, ty, s1) && bad == s1.n + 2
      modifies this
      ensures Valid() && (View(), x) == UnwrapRest(v, ty, s1, d, old(Scope()))
      ensures Scope() == old(Scope()) && Prior() == old(Prior())
      decreases if inDefer then 0 else 1, ESize(d), 6
    {
      var slot, ok, done := ForkUnwrap(v, ty, bad, s1);
      var y := EmitExpr(d);
      x := EndUnwrap(v, ty, y, slot, ok, done, s1);
    }

    method ForkUnwrap(v: Opd, ty: Ty, bad: nat, ghost s1: Out) returns (slot: nat, ok: Lbl, done: Lbl)
      requires Valid() && View() == ErrTest(v, ty, s1) && bad == s1.n + 2
      modifies this
      ensures Valid() && View() == UnwrapHead(v, ty, s1) && Scope() == old(Scope()) && Prior() == old(Prior())
      ensures slot == s1.n + 3 && ok == L(QpOk, s1.lbl + 2) && done == L(QpDone, s1.lbl + 3)
    {
      slot := NewSlot(Bits(ty));
      var def := NewLabel(QpDef);
      ok := NewLabel(QpOk);
      done := NewLabel(QpDone);
      Write(CondBr(Reg(bad), def, ok));
      Write(Label(def));
    }

    method EndUnwrap(v: Opd, ty: Ty, y: Opd, slot: nat, ok: Lbl, done: Lbl, ghost s1: Out) returns (x: Opd)
      requires Valid() && slot == s1.n + 3 && ok == L(QpOk, s1.lbl + 2) && done == L(QpDone, s1.lbl + 3)
      modifies this
      ensures Valid() && View() == UnwrapTail(s1, v, ty, y, old(View())) && x == Reg(n) && Scope() == old(Scope())
              && Prior() == old(Prior())
    {
      var w := Bits(ty);
      ghost var s := View();
      StoreAndGo(w, y, slot, done, ok);
      ghost var s1' := View();
      StoreValue(w, v, slot, done);
      UnwrapTailFrom(s1, v, ty, y, s, s1', View());
      var z := Temp();
      Write(Load(z, w, slot));
      x := Reg(z);
    }

    method StoreValue(w: nat, v: Opd, slot: nat, done: Lbl)
      requires Valid()
      modifies this
      ensures Valid() && Scope() == old(Scope()) && Prior() == old(Prior())
      ensures var s2 := Ins1(old(View()), Extract(old(n) + 1, v, 0, w));
              View() == W(W(W(s2, Store(w, Reg(old(n) + 1), slot)), Br(done)), Label(done))
    {
      var r := Temp();
      Write(Extract(r, v, 0, w));
      StoreAndGo(w, Reg(r), slot, done, done);
    }

    /** The end of one of the two paths to `done`, and the label of what comes next. */
    method StoreAndGo(w: nat, v: Opd, slot: nat, done: Lbl, next: Lbl)
      requires Valid()
      modifies this`out
      ensures Valid() && View() == W(W(W(old(View()), Store(w, v, slot)), Br(done)), Label(next))
      ensures Scope() == old(Scope()) && Prior() == old(Prior())
    {
      Write(Store(w, v, slot));
      Write(Br(done));
      Write(Label(next));
    }

    // --- leaving --------------------------------------------------------------------------------

    /** The defers of every open scope; the frames stay. */
    method RunAllDefers()
      requires Valid() && !inDefer
      modifies this
      ensures Valid() && View() == CFrames(old(defers), old(Scope()).(inDefer := true), old(View()))
      ensures Scope() == old(Scope()) && Prior() == old(Prior())
      decreases 1, 0, 5
    {
      inDefer := true;
      RunDefers(defers);
      inDefer := false;
    }

    /** Frames innermost first, and each frame's defers latest first. */
    method RunDefers(frames: seq<seq<seq<Stmt>>>)
      requires Valid() && inDefer && FineFrames(frames)
      modifies this
      ensures Valid() && View() == CFrames(frames, old(Scope()), old(View()))
      ensures Scope() == old(Scope()) && Prior() == old(Prior())
      decreases 0, FsSize(frames), 6
    {
      ghost var c, s0 := Scope(), View();
      var k := |frames|;
      assert frames[..k] == frames;
      while k > 0
        invariant 0 <= k <= |frames| && Valid() && Scope() == c && Prior() == old(Prior())
        invariant FsSize(frames[..k]) <= FsSize(frames)
        invariant CFrames(frames, c, s0) == CFrames(frames[..k], c, View())
      {
        k := k - 1;
        assert frames[..k + 1][..k] == frames[..k];
        RunFrame(frames[k]);
      }
    }

    method RunFrame(frame: seq<seq<Stmt>>)
      requires Valid() && inDefer && FineFrame(frame)
      modifies this
      ensures Valid() && View() == CDefers(frame, old(Scope()), old(View()))
      ensures Scope() == old(Scope()) && Prior() == old(Prior())
      decreases 0, FSize(frame), 5
    {
      ghost var c, s0 := Scope(), View();
      var j := |frame|;
      assert frame[..j] == frame;
      while j > 0
        invariant 0 <= j <= |frame| && Valid() && Scope() == c && Prior() == old(Prior())
        invariant FSize(frame[..j]) <= FSize(frame)
        invariant CDefers(frame, c, s0) == CDefers(frame[..j], c, View())
      {
        j := j - 1;
        assert frame[..j + 1][..j] == frame[..j];
        var saved := locals;
        EmitBody(frame[j], false);
        locals := saved;
      }
    }

    method EmitReturnErr(code: Opd)
      requires Valid()
      modifies this
      ensures Valid() && View() == RetErr(code, old(Scope()), old(View())) && Scope() == old(Scope())
              && Prior() == old(Prior())
    {
      if fn.bare { Terminate(RetWord(Bits(fn.ret), code)); return; }
      var a := Temp();
      if fn.ret.NilT? {
        Write(Insert(a, None, 32, code, 0));
        Terminate(RetAgg(Reg(a)));
        return;
      }
      ReturnPair(a, Const(0), code, old(View()));
    }

    /** A Result of a value: its two halves, the first into the temporary `a`. */
    method ReturnPair(a: nat, v: Opd, code: Opd, ghost s0: Out)
      requires Valid() && View() == Tmp(s0) && a == n
      modifies this
      ensures Valid() && View() == RetPair(v, code, fn.ret, s0) && Scope() == old(Scope()) && Prior() == old(Prior())
    {
      Write(Insert(a, None, Bits(fn.ret), v, 0));
      var b := Temp();
      Write(Insert(b, Some(Reg(a)), 32, code, 1));
      Terminate(RetAgg(Reg(b)));
    }

    method EmitReturnOk(value: Option<Expr>)
      requires Valid() && !inDefer
      modifies this
      ensures Valid() && View() == CLeave(LOk(value), old(Scope()), old(View()))
      ensures Scope() == old(Scope()) && Prior() == old(Prior())
      decreases 1, LSize(LOk(value)), 6
    {
      if fn.bare {
        var x := Const(0);
        if value.Some? { x := EmitExpr(value.value); }
        Terminate(RetWord(Bits(fn.ret), x));
        return;
      }
      if value.None? { Terminate(RetLone); return; }
      if fn.ret.NilT? {
        if !value.value.NilLit? {
          var _ := EmitExpr(value.value);
          if terminated { return; }
        }
        Terminate(RetLone);
        return;
      }
      var v := EmitExpr(value.value);
      ghost var s1 := View();
      var a := Temp();
      ReturnPair(a, v, Const(0), s1);
    }

    // --- statements -------------------------------------------------------------------------------

    /** A scope: its statements, then its defers. */
    method EmitBody(ss: seq<Stmt>, ownScope: bool)
      requires Valid() && FineAll(ss, inDefer)
      modifies this
      ensures Valid() && View() == CBlock(ss, old(Scope()), old(View())) && Prior() == old(Prior())
      ensures if ownScope then Scope() == old(Scope()) else Scope().(locals := old(locals)) == old(Scope())
      decreases if inDefer then 0 else 1, BSize(ss) + 1, 5
    {
      var saved := locals;
      EmitScope(ss);
      if ownScope { locals := saved; }
    }

    method EmitScope(ss: seq<Stmt>)
      requires Valid() && FineAll(ss, inDefer)
      modifies this
      ensures Valid() && View() == CBlock(ss, old(Scope()), old(View())) && Prior() == old(Prior())
      ensures Scope() == old(Scope()).(locals := locals)
      decreases if inDefer then 0 else 1, BSize(ss) + 1, 4
    {
      ghost var c, s := Scope(), View();
      defers := defers + [[]];
      assert Scope() == c.(defers := c.defers + [[]]);
      EmitList(ss);
      BodyEnd(ss, c, s, View(), Scope());
      CloseScope(BSize(ss) + 1);
    }

    /** The scope's frame is popped, and its defers run if the block has not ended. */
    method CloseScope(ghost bound: nat)
      requires Valid() && defers != [] && (terminated || FSize(defers[|defers| - 1]) < bound)
      modifies this
      ensures Valid() && Prior() == old(Prior()) && Scope() == old(Scope()).(defers := old(defers)[..|old(defers)| - 1])
      ensures View() == if old(terminated) then old(View())
                        else CDefers(old(defers)[|old(defers)| - 1], Scope().(inDefer := true), old(View()))
      decreases if inDefer then 0 else 1, bound, 3
    {
      ghost var inside := inDefer;
      var frame := defers[|defers| - 1];
      defers := defers[..|defers| - 1];
      if !terminated {
        FrameSize(frame);
        OneFrame(frame, Scope().(inDefer := true), View());
        inDefer := true;
        RunDefers([frame]);
        inDefer := inside;
      }
    }

    /** Statements up to one that ends the block. */
    method EmitList(ss: seq<Stmt>)
      requires Valid() && FineAll(ss, inDefer) && defers != []
      modifies this
      ensures Valid() && (View(), Scope()) == CStmts(ss, old(Scope()), old(View())) && Prior() == old(Prior())
      decreases if inDefer then 0 else 1, BSize(ss) + 1, 3
    {
      ghost var c, s, inside := Scope(), View(), inDefer;
      var i := 0;
      assert ss[i..] == ss;
      while i < |ss| && !terminated
        invariant 0 <= i <= |ss| && Valid() && Prior() == old(Prior()) && inDefer == inside && defers != []
        invariant FineAll(ss[i..], inDefer) && BSize(ss[i..]) <= BSize(ss)
        invariant CStmts(ss, c, s) == CStmts(ss[i..], Scope(), View())
      {
        assert ss[i..][1..] == ss[i + 1..];
        EmitStmt(ss[i]);
        i := i + 1;
      }
    }

    method EmitStmt(st: Stmt)
      requires Valid() && Fine(st, inDefer) && defers != []
      modifies this
      ensures Valid() && View() == CStmt(st, old(Scope()), old(View()))
              && Scope() == After(st, old(Scope()), old(View()))
      ensures Prior() == old(Prior())
      decreases if inDefer then 0 else 1, SSize(st), 4
    {
      match st {
        case Block(b) => EmitBody(b, true);
        case VarDecl(x, ty, e) => EmitDecl(x, ty, e);
        case Assign(x, op, e) => EmitAssign(x, op, e);
        case ExprStmt(e) => var _ := EmitExpr(e);
        case If(e, t, els) => EmitIf(e, t, els);
        case While(e, b) => EmitWhile(e, b);
        case Pick(e, arms) => EmitPick(e, arms);
        case Pass(r) => EmitLeave(LOk(r));
        case Fail(e) => EmitLeave(LFail(e));
        case Exit(e) => EmitLeave(LExit(e));
        case Trap(e) => EmitStop(e);
        case Defer(b) => Register(b);
        case Break => if loops != [] { Branch(loops[|loops| - 1].done); }
        case Continue => if loops != [] { Branch(loops[|loops| - 1].head); }
      }
    }

    /** `pass`, `fail` and `exit`: the defers of every open scope, and only then the operand and the return. */
    method EmitLeave(m: Leave)
      requires Valid() && !inDefer && !m.LErr?
      modifies this
      ensures Valid() && View() == CUnwind(old(defers), m, old(Scope()), old(View()))
      ensures Scope() == old(Scope()) && Prior() == old(Prior())
      decreases 1, LSize(m), 7
    {
      UnwindIs(defers, m, Scope(), View());
      RunAllDefers();
      match m {
        case LOk(r) => EmitReturnOk(r);
        case LFail(e) =>
          var x := EmitExpr(e);
          EmitReturnErr(x);
        case LExit(e) =>
          var x := EmitExpr(e);
          Terminate(RetWord(Bits(fn.ret), x));
      }
    }

    /** A `defer` body joins the innermost frame; nothing is emitted yet. */
    method Register(b: seq<Stmt>)
      requires Valid() && FineAll(b, true) && defers != []
      modifies this`defers
      ensures Valid() && View() == old(View()) && Prior() == old(Prior())
              && Scope() == After(Defer(b), old(Scope()), old(View()))
    {
      var k := |defers| - 1;
      defers := defers[k := defers[k] + [b]];
    }

    method EmitDecl(x: string, ty: Ty, e: Expr)
      requires Valid() && FineExpr(e, inDefer)
      modifies this
      ensures Valid() && View() == CStmt(VarDecl(x, ty, e), old(Scope()), old(View())) && Prior() == old(Prior())
      ensures Scope() == After(VarDecl(x, ty, e), old(Scope()), old(View()))
      decreases if inDefer then 0 else 1, ESize(e), 7
    {
      var slot := NewSlot(Bits(ty));
      var v := EmitExpr(e);
      Write(Store(Bits(ty), v, slot));
      locals := locals[x := Local(slot, ty)];
    }

    method EmitAssign(x: string, op: Option<BinOp>, e: Expr)
      requires Valid() && FineExpr(e, inDefer)
      modifies this
      ensures Valid() && View() == CStmt(Assign(x, op, e), old(Scope()), old(View())) && Prior() == old(Prior())
              && Scope() == old(Scope())
      decreases if inDefer then 0 else 1, ESize(e), 7
    {
      var l := if x in locals then locals[x] else Local(0, NilT);
      if op.None? {
        var v := EmitExpr(e);
        Write(Store(Bits(l.ty), v, l.slot));
      } else {
        EmitUpdate(l, op.value, e);
      }
    }

    method EmitUpdate(l: Local, op: BinOp, e: Expr)
      requires Valid() && FineExpr(e, inDefer)
      modifies this
      ensures Valid() && Prior() == old(Prior()) && Scope() == old(Scope())
      ensures var (s1, v) := CExpr(e, old(Scope()), VarTail(l, old(View())));
              View() == AssignTail(l, Some(op), old(n) + 1, v, s1)
      decreases if inDefer then 0 else 1, ESize(e), 6
    {
      var cur := Temp();
      Write(Load(cur, Bits(l.ty), l.slot));
      var v := EmitExpr(e);
      WriteUpdate(l, op, cur, v);
    }

    method WriteUpdate(l: Local, op: BinOp, cur: nat, v: Opd)
      requires Valid()
      modifies this
      ensures Valid() && View() == AssignTail(l, Some(op), cur, v, old(View())) && Scope() == old(Scope())
              && Prior() == old(Prior())
    {
      var z := WriteArith(op, Reg(cur), v, l.ty);
      Write(Store(Bits(l.ty), z, l.slot));
    }

    method EmitIf(e: Expr, t: seq<Stmt>, els: Option<Stmt>)
      requires Valid() && Fine(If(e, t, els), inDefer) && defers != []
      modifies this
      ensures Valid() && View() == CIf(e, t, els, old(Scope()), old(View())) && Prior() == old(Prior())
              && Scope() == old(Scope())
      decreases if inDefer then 0 else 1, ESize(e) + BSize(t) + 1 + (if els.Some? then SSize(els.value) else 0), 7
    {
      ghost var c, s := Scope(), View();
      var yes, done, no := IfLabelsHere(els.Some?);
      var v := EmitCond(e);
      ghost var s1 := View();
      Terminate(CondBr(v, yes, no));
      ghost var h := View();
      EmitArm(t, yes, done, true);
      ghost var s2 := View();
      if els.Some? { EmitElse(els.value, no, done); }
      IfIs(e, t, els, c, s, s1, v, h, s2, View());
      StartBlock(done);
    }

    method EmitElse(st: Stmt, no: Lbl, done: Lbl)
      requires Valid() && Fine(st, inDefer) && (st.Block? || st.If?) && defers != []
      modifies this
      ensures Valid() && View() == BrTo(CStmt(st, old(Scope()), Start(old(View()), no)), done)
      ensures Scope() == old(Scope()) && Prior() == old(Prior())
      decreases if inDefer then 0 else 1, SSize(st), 5
    {
      StartBlock(no);
      EmitStmt(st);
      Branch(done);
    }

    method IfLabelsHere(hasElse: bool) returns (yes: Lbl, done: Lbl, no: Lbl)
      requires Valid()
      modifies this
      ensures Valid() && View() == IfLabels(old(View()), hasElse) && Scope() == old(Scope()) && Prior() == old(Prior())
      ensures yes == IfThen(old(View())) && done == IfDone(old(View())) && no == IfElse(old(View()), hasElse)
    {
      yes := NewLabel(IfYes);
      done := NewLabel(IfEnd);
      no := done;
      if hasElse { no := NewLabel(IfNo); }
    }

    method EmitWhile(e: Expr, b: seq<Stmt>)
      requires Valid() && FineExpr(e, inDefer) && FineAll(b, inDefer)
      modifies this
      ensures Valid() && View() == CWhile(e, b, old(Scope()), old(View())) && Prior() == old(Prior())
              && Scope() == old(Scope())
      decreases if inDefer then 0 else 1, ESize(e) + BSize(b) + 1, 7
    {
      ghost var c, s := Scope(), View();
      var head, body, done := BeginWhile();
      ghost var h := View();
      var v := EmitCond(e);
      ghost var s1 := View();
      Fork(v, body, done);
      ghost var b0 := View();
      EmitTrip(b, Loop(head, done));
      ghost var s2 := View();
      Branch(head);
      StartBlock(done);
      WhileFrom(e, b, c, s, h, s1, v, b0, s2, View());
    }

    /** A loop's body: `break` and `continue` in it mean this loop. */
    method EmitTrip(b: seq<Stmt>, l: Loop)
      requires Valid() && FineAll(b, inDefer)
      modifies this
      ensures Valid() && View() == CBlock(b, old(Scope()).(loops := old(loops) + [l]), old(View()))
      ensures Scope() == old(Scope()) && Prior() == old(Prior())
      decreases if inDefer then 0 else 1, BSize(b) + 1, 6
    {
      loops := loops + [l];
      EmitBody(b, true);
      loops := loops[..|loops| - 1];
      assert loops == old(loops);
    }

    method BeginWhile() returns (head: Lbl, body: Lbl, done: Lbl)
      requires Valid()
      modifies this
      ensures Valid() && View() == WhStart(old(View())) && Scope() == old(Scope()) && Prior() == old(Prior())
      ensures head == WhHead(old(View())) && body == WhBody(old(View())) && done == WhDone(old(View()))
    {
      head := NewLabel(WhTop);
      body := NewLabel(WhTrip);
      done := NewLabel(WhEnd);
      Branch(head);
      StartBlock(head);
    }

    /** The arms' labels and the `switch`: the last wildcard is its default, or else the end. */
    method EmitSwitch(w: nat, v: Opd, arms: seq<Arm>)
            returns (done: Lbl, lits: seq<(int, Lbl, nat)>, dflt: Option<(Lbl, nat)>)
      requires Valid()
      modifies this
      ensures Valid() && View() == PickSwitch(w, v, arms, old(View())) && Scope() == old(Scope())
              && Prior() == old(Prior())
      ensures done == PickDone(old(View())) && lits == LitsFrom(arms, 0, old(lbl) + 2)
      ensures dflt == WildLabel(arms, old(lbl) + 2)
    {
      done := NewLabel(PickEnd);
      lits, dflt := LabelArms(arms);
      CasesFrom(arms, 0, old(lbl) + 2);
      assert arms[0..] == arms;
      Terminate(Switch(w, v, if dflt.Some? then dflt.value.0 else done, CasesIn(lits)));
    }

    method EmitPick(e: Expr, arms: seq<Arm>)
      requires Valid() && FineExpr(e, inDefer) && FineArms(arms, inDefer)
      modifies this
      ensures Valid() && View() == CPick(e, arms, old(Scope()), old(View())) && Prior() == old(Prior())
              && Scope() == old(Scope())
      decreases if inDefer then 0 else 1, ESize(e) + ASize(arms), 8
    {
      ghost var c, s := Scope(), View();
      var w := Bits(TypeHere(e).ty);
      var v := EmitExpr(e);
      ghost var s1 := View();
      var done, lits, dflt := EmitSwitch(w, v, arms);
      ghost var sw := View();
      EmitAllArms(arms, lits, dflt, done, s1.lbl + 2);
      PickFrom(e, arms, c, s, s1, v, sw, View());
      StartBlock(done);
    }

    /** The literal arms, and then the last wildcard's. */
    method EmitAllArms(arms: seq<Arm>, lits: seq<(int, Lbl, nat)>, dflt: Option<(Lbl, nat)>, done: Lbl,
            ghost first: nat)
      requires Valid() && FineArms(arms, inDefer) && lits == LitsFrom(arms, 0, first)
      requires dflt == WildLabel(arms, first)
      modifies this
      ensures Valid() && View() == ArmsOut(arms, first, done, old(Scope()), old(View()))
      ensures Scope() == old(Scope()) && Prior() == old(Prior())
      decreases if inDefer then 0 else 1, ASize(arms), 7
    {
      EmitArms(arms, lits, done, first);
      if dflt.Some? {
        ArmFacts(arms, dflt.value.1, inDefer);
        EmitArm(arms[dflt.value.1].body, dflt.value.0, done, true);
      }
    }

    /** A label for each arm; the literal arms with their constants, and the last wildcard. */
    method LabelArms(arms: seq<Arm>) returns (lits: seq<(int, Lbl, nat)>, dflt: Option<(Lbl, nat)>)
      requires Valid()
      modifies this`lbl
      ensures Valid() && View() == Numbered(old(View()), |arms|) && Scope() == old(Scope()) && Prior() == old(Prior())
      ensures lits == LitsFrom(arms, 0, old(lbl) + 1)
      ensures dflt == WildLabel(arms, old(lbl) + 1)
    {
      lits, dflt := [], None;
      var i := 0;
      while i < |arms|
        invariant 0 <= i <= |arms| && Valid() && View() == Numbered(old(View()), i) && Scope() == old(Scope())
                  && Prior() == old(Prior())
        invariant lits + LitsFrom(arms, i, old(lbl) + 1) == LitsFrom(arms, 0, old(lbl) + 1)
        invariant dflt == WildLabel(arms[..i], old(lbl) + 1)
      {
        var l := NewLabel(PickArm);
        WildStep(arms, i, old(lbl) + 1);
        if arms[i].pat.None? { dflt := Some((l, i)); } else { lits := lits + [(arms[i].pat.value, l, i)]; }
        i := i + 1;
      }
      assert arms[..i] == arms && lits + [] == lits;
    }

    method EmitArm(b: seq<Stmt>, l: Lbl, done: Lbl, ownScope: bool)
      requires Valid() && FineAll(b, inDefer)
      modifies this
      ensures Valid() && View() == CArm(b, l, done, old(Scope()), old(View())) && Prior() == old(Prior())
              && Scope() == old(Scope())
      decreases if inDefer then 0 else 1, BSize(b) + 1, 6
    {
      StartBlock(l);
      var saved := locals;
      EmitBody(b, ownScope);
      locals := saved;
      Branch(done);
    }

    method EmitArms(arms: seq<Arm>, lits: seq<(int, Lbl, nat)>, done: Lbl, ghost first: nat)
      requires Valid() && FineArms(arms, inDefer) && lits == LitsFrom(arms, 0, first)
      modifies this
      ensures Valid() && View() == CArms(arms, 0, first, done, old(Scope()), old(View())) && Prior() == old(Prior())
              && Scope() == old(Scope())
      decreases if inDefer then 0 else 1, ASize(arms), 6
    {
      ghost var c, s := Scope(), View();
      var k := 0;
      ghost var j := 0;
      while k < |lits|
        invariant 0 <= k <= |lits| && j <= |arms| && Valid() && Scope() == c && Prior() == old(Prior())
                  && FineArms(arms, inDefer)
        invariant lits[k..] == LitsFrom(arms, j, first)
        invariant CArms(arms, 0, first, done, c, s) == CArms(arms, j, first, done, c, View())
      {
        j := NextArm(arms, lits, k, j, first, done, c, View());
        ArmFacts(arms, j, inDefer);
        EmitArm(arms[lits[k].2].body, lits[k].1, done, false);
        k := k + 1;
        j := j + 1;
      }
      NoLit(arms, j, first, done, c, View());
    }

    // --- a function ------------------------------------------------------------------------------

    /** The whole function: its header, its one entry block with the allocas, the body, and the closing lines. */
    method EmitFunc(name: string, f: Func)
      requires Valid() && FineAll(f.body, false) && !inDefer && loops == []
      modifies this
      ensures Valid() && !inDefer && loops == [] && lbl == CFunc(f, g, old(lbl)).lbl
      ensures out == old(out) + [Define(name)] + TextOf(CFunc(f, g, old(lbl))) + [Close, Blank]
    {
      OpenFunc(name, f);
      ghost var before, s0 := out, Start0(old(lbl));
      ParamsScope(f.params, 0, Ctx0(f, g), s0);
      EmitParams(f.params);
      ghost var s1, c1 := View(), Scope();
      EmitBody(f.body, true);
      FallOff();
      FuncIs(f, g, old(lbl), s1, c1, View());
      assert out == before + View().head + View().body;
      Assembled(old(out), Define(name), View().head, View().body);
      out := out + [Close];
      out := out + [Blank];
    }

    method OpenFunc(name: string, f: Func)
      requires Valid() && !inDefer && loops == []
      modifies this
      ensures Valid() && View() == Start0(old(lbl)) && Scope() == Ctx0(f, g)
      ensures out == old(out) + [Define(name), Label(Entry)] && Prior() == out
    {
      fn := f;
      n := 0;
      locals := map[];
      defers := [[]];
      terminated := false;
      out := out + [Define(name)];
      out := out + [Label(Entry)];
      allocaIp := |out|;
      start := |out|;
    }

    /** Falling off the end answers zero. */
    method FallOff()
      requires Valid()
      modifies this`out
      ensures Valid() && Scope() == old(Scope()) && Prior() == old(Prior())
      ensures var s := old(View());
              View() == if s.terminated then s
                  else W(s, if fn.bare then RetWord(Bits(fn.ret), Const(0)) else RetZero(ResLLOf(fn.ret)))
    {
      if !terminated {
        if fn.bare { Write(RetWord(Bits(fn.ret), Const(0))); } else { Write(RetZero(ResLLOf(fn.ret))); }
      }
    }

    method EmitParams(params: seq<Source.Param>)
      requires Valid()
      modifies this
      ensures Valid() && (View(), Scope()) == CParams(params, 0, old(Scope()), old(View())) && Prior() == old(Prior())
    {
      var i := 0;
      while i < |params|
        invariant 0 <= i <= |params| && Valid() && Prior() == old(Prior())
        invariant CParams(params, 0, old(Scope()), old(View())) == CParams(params, i, Scope(), View())
      {
        var ty := params[i].ty;
        var slot := NewSlot(Bits(ty));
        Write(Store(Bits(ty), Target.Param(i), slot));
        locals := locals[params[i].name := Local(slot, ty)];
        i := i + 1;
      }
    }
  }
}
