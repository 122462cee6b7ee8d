/** Every slot the text of a function reads or writes is one it allocates first. */
module Slots {
  import opened Words
  import opened Source
  import opened Target
  import opened Lowering
  import opened Checked
  import opened Layout

  // --- names in scope -------------------------------------------------------------------------

  /** Every variable named is one of `names`. */
  predicate ScopedExpr(e: Expr, names: set<string>)
    decreases e
  {
    match e
    case Var(x) => x in names
    case Unary(_, a) => ScopedExpr(a, names)
    case Arith(_, a, b) => ScopedExpr(a, names) && ScopedExpr(b, names)
    case Compare(_, a, b) => ScopedExpr(a, names) && ScopedExpr(b, names)
    case Logic(_, a, b) => ScopedExpr(a, names) && ScopedExpr(b, names)
    case Call(_, args) => ScopedExprs(args, names)
    case ResultOf(_, a) => ScopedExpr(a, names)
    case Emphatic(a, b) => ScopedExpr(a, names) && ScopedExpr(b, names)
    case SafeUnwrap(a, b) => ScopedExpr(a, names) && ScopedExpr(b, names)
    case _ => true
  }

  predicate ScopedExprs(es: seq<Expr>, names: set<string>)
    decreases es
  {
    es == [] || (ScopedExpr(es[0], names) && ScopedExprs(es[1..], names))
  }

  predicate ScopedStmt(st: Stmt, names: set<string>)
    decreases SSize(st), 0
  {
    match st
    case Block(b) => ScopedList(b, names)
    case VarDecl(_, _, e) => ScopedExpr(e, names)
    case Assign(x, _, e) => x in names && ScopedExpr(e, names)
    case ExprStmt(e) => ScopedExpr(e, names)
    case If(e, t, els) =>
      ScopedExpr(e, names) && ScopedList(t, names) && (els.Some? ==> ScopedStmt(els.value, names))
    case While(e, b) => ScopedExpr(e, names) && ScopedList(b, names)
    case Pick(e, arms) => ScopedExpr(e, names) && ScopedArms(arms, names)
    case Pass(Some(e)) => ScopedExpr(e, names)
    case Fail(e) => ScopedExpr(e, names)
    case Exit(e) => ScopedExpr(e, names)
    case Trap(e) => ScopedExpr(e, names)
    case Defer(b) => ScopedList(b, names)
    case _ => true
  }

  function Declared(st: Stmt): set<string> {
    if st.VarDecl? then {st.name} else {}
  }

  predicate ScopedList(ss: seq<Stmt>, names: set<string>)
    decreases BSize(ss), 1
  {
    ss == [] || (ScopedStmt(ss[0], names) && ScopedList(ss[1..], names + Declared(ss[0])))
  }

  predicate ScopedArms(arms: seq<Arm>, names: set<string>)
    decreases ASize(arms), 1
  {
    arms == [] || (ScopedList(arms[0].body, names) && ScopedArms(arms[1..], names))
  }

  predicate ScopedFrame(frame: seq<seq<Stmt>>, names: set<string>) {
    forall i :: 0 <= i < |frame| ==> ScopedList(frame[i], names)
  }

  predicate ScopedFrames(frames: seq<seq<seq<Stmt>>>, names: set<string>) {
    forall i :: 0 <= i < |frames| ==> ScopedFrame(frames[i], names)
  }

  // More names do no harm.

  lemma {:induction false} MoreExpr(e: Expr, a: set<string>, b: set<string>)
    requires a <= b && ScopedExpr(e, a)
    ensures ScopedExpr(e, b)
    decreases e
  {
    match e {
      case Unary(_, x) => MoreExpr(x, a, b);
      case Arith(_, x, y) => MoreExpr(x, a, b); MoreExpr(y, a, b);
      case Compare(_, x, y) => MoreExpr(x, a, b); MoreExpr(y, a, b);
      case Logic(_, x, y) => MoreExpr(x, a, b); MoreExpr(y, a, b);
      case Call(_, args) => MoreExprs(args, a, b);
      case ResultOf(_, x) => MoreExpr(x, a, b);
      case Emphatic(x, y) => MoreExpr(x, a, b); MoreExpr(y, a, b);
      case SafeUnwrap(x, y) => MoreExpr(x, a, b); MoreExpr(y, a, b);
      case _ =>
    }
  }

  lemma {:induction false} MoreExprs(es: seq<Expr>, a: set<string>, b: set<string>)
    requires a <= b && ScopedExprs(es, a)
    ensures ScopedExprs(es, b)
    decreases es
  {
    if es != [] {
      MoreExpr(es[0], a, b);
      MoreExprs(es[1..], a, b);
    }
  }

  lemma {:induction false} MoreStmt(st: Stmt, a: set<string>, b: set<string>)
    requires a <= b && ScopedStmt(st, a)
    ensures ScopedStmt(st, b)
    decreases SSize(st), 0
  {
    match st {
      case Block(ss) => MoreList(ss, a, b);
      case VarDecl(_, _, e) => MoreExpr(e, a, b);
      case Assign(_, _, e) => MoreExpr(e, a, b);
      case ExprStmt(e) => MoreExpr(e, a, b);
      case If(e, t, els) =>
        MoreExpr(e, a, b);
        MoreList(t, a, b);
        if els.Some? { MoreStmt(els.value, a, b); }
      case While(e, ss) => MoreExpr(e, a, b); MoreList(ss, a, b);
      case Pick(e, arms) => MoreExpr(e, a, b); MoreArms(arms, a, b);
      case Pass(Some(e)) => MoreExpr(e, a, b);
      case Fail(e) => MoreExpr(e, a, b);
      case Exit(e) => MoreExpr(e, a, b);
      case Trap(e) => MoreExpr(e, a, b);
      case Defer(ss) => MoreList(ss, a, b);
      case _ =>
    }
  }

  lemma {:induction false} MoreList(ss: seq<Stmt>, a: set<string>, b: set<string>)
    requires a <= b && ScopedList(ss, a)
    ensures ScopedList(ss, b)
    decreases BSize(ss), 1
  {
    if ss != [] {
      MoreStmt(ss[0], a, b);
      MoreList(ss[1..], a + Declared(ss[0]), b + Declared(ss[0]));
    }
  }

  lemma {:induction false} MoreArms(arms: seq<Arm>, a: set<string>, b: set<string>)
    requires a <= b && ScopedArms(arms, a)
    ensures ScopedArms(arms, b)
    decreases ASize(arms), 1
  {
    if arms != [] {
      MoreList(arms[0].body, a, b);
      MoreArms(arms[1..], a, b);
    }
  }

  lemma MoreFrame(frame: seq<seq<Stmt>>, a: set<string>, b: set<string>)
    requires a <= b && ScopedFrame(frame, a)
    ensures ScopedFrame(frame, b)
  {
    forall i | 0 <= i < |frame| ensures ScopedList(frame[i], b) { MoreList(frame[i], a, b); }
  }

  lemma MoreFrames(frames: seq<seq<seq<Stmt>>>, a: set<string>, b: set<string>)
    requires a <= b && ScopedFrames(frames, a)
    ensures ScopedFrames(frames, b)
  {
    forall i | 0 <= i < |frames| ensures ScopedFrame(frames[i], b) { MoreFrame(frames[i], a, b); }
  }

  // --- slots in lines ----------------------------------------------------------------------------

  predicate Makes(x: Line, slot: nat) {
    x.Alloca? && x.slot == slot
  }

  ghost predicate Has(head: seq<Line>, slot: nat) {
    exists j :: 0 <= j < |head| && Makes(head[j], slot)
  }

  /** The slot a line reads or writes is made in `head`. */
  ghost predicate Lodged(x: Line, head: seq<Line>) {
    match x
    case Load(_, _, slot) => Has(head, slot)
    case Store(_, _, slot) => Has(head, slot)
    case _ => true
  }

  lemma HasMore(head: seq<Line>, head1: seq<Line>, slot: nat)
    requires head <= head1 && Has(head, slot)
    ensures Has(head1, slot)
  {
    var j :| 0 <= j < |head| && Makes(head[j], slot);
    assert Makes(head1[j], slot);
  }

  /** From `s` on, only lines whose slots are made. */
  ghost predicate Lives(s: Out, s1: Out) {
    s.head <= s1.head && s.body <= s1.body && forall i :: |s.body| <= i < |s1.body| ==> Lodged(s1.body[i], s1.head)
  }

  lemma LivesOn(s: Out, s1: Out, s2: Out)
    requires Lives(s, s1) && Lives(s1, s2)
    ensures Lives(s, s2)
  {
    forall i | |s.body| <= i < |s2.body| ensures Lodged(s2.body[i], s2.head) {
      if i < |s1.body| {
        assert s2.body[i] == s1.body[i];
        LodgedMore(s1.body[i], s1.head, s2.head);
      }
    }
  }

  lemma LodgedMore(x: Line, head: seq<Line>, head1: seq<Line>)
    requires head <= head1 && Lodged(x, head)
    ensures Lodged(x, head1)
  {
    match x {
      case Load(_, _, slot) => HasMore(head, head1, slot);
      case Store(_, _, slot) => HasMore(head, head1, slot);
      case _ =>
    }
  }

  predicate Slotless(x: Line) {
    !x.Load? && !x.Store?
  }

  /** Lines that name no slot. */
  lemma LivesPlain(s: Out, xs: seq<Line>, s1: Out)
    requires s1.head == s.head && s1.body == s.body + xs && forall i :: 0 <= i < |xs| ==> Slotless(xs[i])
    ensures Lives(s, s1)
  {
    forall i | |s.body| <= i < |s1.body| ensures Lodged(s1.body[i], s1.head) { assert s1.body[i] == xs[i - |s.body|]; }
  }

  lemma LivesLine(s: Out, x: Line, s1: Out)
    requires s1.head == s.head && s1.body == s.body + [x] && Lodged(x, s1.head)
    ensures Lives(s, s1)
  {}

  lemma LivesAlloca(s: Out, slot: nat, w: nat, s1: Out)
    requires s1.body == s.body && s1.head == s.head + [Alloca(slot, w)]
    ensures Lives(s, s1) && Has(s1.head, slot)
  {
    assert Makes(s1.head[|s.head|], slot);
  }

  // --- a scope over an output -------------------------------------------------------------------

  ghost predicate Homes(locals: map<string, Local>, head: seq<Line>) {
    forall x :: x in locals ==> Has(head, locals[x].slot)
  }

  /** The locals' slots are made, and the open defers name locals. */
  ghost predicate InScope(c: Ctx, s: Out) {
    Homes(c.locals, s.head) && ScopedFrames(c.defers, c.locals.Keys)
  }

  lemma InLater(c: Ctx, s: Out, s1: Out)
    requires InScope(c, s) && s.head <= s1.head
    ensures InScope(c, s1)
  {
    forall x | x in c.locals ensures Has(s1.head, c.locals[x].slot) { HasMore(s.head, s1.head, c.locals[x].slot); }
  }

  // --- expressions -----------------------------------------------------------------------------------

  lemma {:induction false} ExprLives(e: Expr, c: Ctx, s: Out)
    requires InScope(c, s) && ScopedExpr(e, c.locals.Keys)
    ensures Lives(s, CExpr(e, c, s).0)
    decreases Lv(c), ESize(e), 0
  {
    match e {
      case Var(x) => LivesLine(s, Load(s.n + 1, Bits(SlotOf(c, x).ty), SlotOf(c, x).slot), VarTail(SlotOf(c, x), s));
      case Unary(op, a) =>
        var (s1, x) := CExpr(a, c, s);
        ExprLives(a, c, s);
        UnaryLives(op, Bits(XTyOf(a, c).ty), x, s1);
        LivesOn(s, s1, UnaryTail(op, Bits(XTyOf(a, c).ty), x, s1));
      case Arith(op, a, b) =>
        PairLives(a, b, c, s);
        var (s1, x) := CExpr(a, c, s);
        var (s2, y) := CExpr(b, c, s1);
        ArithLives(op, XTyOf(a, c).ty, x, y, s2);
        LivesOn(s, s2, ArithTail(op, XTyOf(a, c).ty, x, y, s2));
      case Compare(op, a, b) =>
        PairLives(a, b, c, s);
        var (s1, x) := CExpr(a, c, s);
        var (s2, y) := CExpr(b, c, s1);
        CompareLives(op, XTyOf(a, c).ty, x, y, s2);
        LivesOn(s, s2, CompareTail(op, XTyOf(a, c).ty, x, y, s2));
      case Logic(isOr, a, b) => LogicLives(isOr, a, b, c, s);
      case Call(f, args) =>
        var (s1, xs) := CArgs(args, c, s);
        var ret := if f in c.g then ResLLOf(c.g[f].ret) else Lone;
        ArgsLive(args, c, s);
        LivesLine(s1, CallFn(s1.n + 1, ret, f, xs), CallTail(f, ret, xs, s1));
        LivesOn(s, s1, CallTail(f, ret, xs, s1));
      case ResultOf(op, a) => ResultLives(op, a, c, s);
      case Emphatic(a, k) => EmphaticLives(a, k, c, s);
      case SafeUnwrap(a, d) => UnwrapLives(a, d, c, s);
      case _ =>
    }
  }

  lemma {:induction false} UnaryLives(op: UnOp, w: nat, x: Opd, s: Out)
    ensures Lives(s, UnaryTail(op, w, x, s))
  {
    var t := s.n + 1;
    match op {
      case Neg => LivesLine(s, Bin(t, MSub, w, Const(0), x), UnaryTail(op, w, x, s));
      case Compl => LivesLine(s, Bin(t, MXor, w, x, Const(-1)), UnaryTail(op, w, x, s));
      case Not =>
        LivesPlain(s, [Icmp(t + 1, PNe, w, x, Const(0)), Bin(t + 2, MXor, 1, Reg(t + 1), Const(1)),
                       Zext(t, Reg(t + 2), 8)], UnaryTail(op, w, x, s));
    }
  }

  lemma {:induction false} ArithLives(op: BinOp, ty: Ty, x: Opd, y: Opd, s: Out)
    ensures Lives(s, ArithTail(op, ty, x, y, s))
  {
    LivesLine(s, Bin(s.n + 1, LowerOp(op, Signed(ty)), Bits(ty), x, y), ArithTail(op, ty, x, y, s));
  }

  lemma {:induction false} CompareLives(op: CmpOp, ty: Ty, x: Opd, y: Opd, s: Out)
    ensures Lives(s, CompareTail(op, ty, x, y, s))
  {
    LivesPlain(s, [Icmp(s.n + 1, LowerCmp(op, Signed(ty)), Bits(ty), x, y), Zext(s.n + 2, Reg(s.n + 1), 8)],
        CompareTail(op, ty, x, y, s));
  }

  lemma {:induction false} PairLives(a: Expr, b: Expr, c: Ctx, s: Out)
    requires InScope(c, s) && ScopedExpr(a, c.locals.Keys) && ScopedExpr(b, c.locals.Keys)
    ensures Lives(s, CExpr(b, c, CExpr(a, c, s).0).0)
    decreases Lv(c), ESize(a) + ESize(b), 1
  {
    var s1 := CExpr(a, c, s).0;
    ExprLives(a, c, s);
    InLater(c, s, s1);
    ExprLives(b, c, s1);
    LivesOn(s, s1, CExpr(b, c, s1).0);
  }

  lemma {:induction false} CondLives(e: Expr, c: Ctx, s: Out)
    requires InScope(c, s) && ScopedExpr(e, c.locals.Keys)
    ensures Lives(s, CCond(e, c, s).0)
    decreases Lv(c), ESize(e), 1
  {
    var (s1, x) := CExpr(e, c, s);
    var w := Bits(XTyOf(e, c).ty);
    ExprLives(e, c, s);
    LivesLine(s1, Icmp(s1.n + 1, PNe, w, x, Const(0)), CondTail(w, x, s1));
    LivesOn(s, s1, CondTail(w, x, s1));
  }

  lemma {:induction false} LogicLives(isOr: bool, a: Expr, b: Expr, c: Ctx, s: Out)
    requires InScope(c, s) && ScopedExpr(a, c.locals.Keys) && ScopedExpr(b, c.locals.Keys)
    ensures Lives(s, CLogic(isOr, a, b, c, s).0)
    decreases Lv(c), ESize(a) + ESize(b), 2
  {
    var (s1, x) := CCond(a, c, LogicHead(s));
    LogicLeft(a, c, s);
    InLater(c, s, s1);
    LogicRight(isOr, b, c, s, x, s1);
    LogicIs(isOr, a, b, c, s);
    LivesOn(s, s1, LogicEnd(isOr, b, c, s, x, s1));
  }

  /** The output after the right operand of a short circuit, joined. */
  function LogicEnd(isOr: bool, b: Expr, c: Ctx, s0: Out, x: Opd, s: Out): Out {
    var (s2, y) := CCond(b, c, LogicMid(isOr, s0, x, s));
    LogicTail(s0, y, s2)
  }

  lemma LogicIs(isOr: bool, a: Expr, b: Expr, c: Ctx, s: Out)
    ensures var (s1, x) := CCond(a, c, LogicHead(s)); CLogic(isOr, a, b, c, s).0 == LogicEnd(isOr, b, c, s, x, s1)
  {}

  /** The right operand's lines, from the test to the join. */
  lemma {:induction false} LogicRight(isOr: bool, b: Expr, c: Ctx, s0: Out, x: Opd, s: Out)
    requires InScope(c, s) && ScopedExpr(b, c.locals.Keys) && Has(s.head, s0.n + 1)
    ensures Lives(s, LogicEnd(isOr, b, c, s0, x, s))
    decreases Lv(c), ESize(b), 2
  {
    var m := LogicMid(isOr, s0, x, s);
    LogicMidLives(isOr, s0, x, s);
    InLater(c, s, m);
    var (s2, y) := CCond(b, c, m);
    CondLives(b, c, m);
    LivesOn(s, m, s2);
    HasMore(s.head, s2.head, s0.n + 1);
    LogicTailLives(s0, y, s2);
    LivesOn(s, s2, LogicTail(s0, y, s2));
  }

  /** The slot, and the left operand's lines. */
  lemma {:induction false} LogicLeft(a: Expr, c: Ctx, s: Out)
    requires InScope(c, s) && ScopedExpr(a, c.locals.Keys)
    ensures var s1 := CCond(a, c, LogicHead(s)).0; Ext(s, s1) && Lives(s, s1) && Has(s1.head, s.n + 1)
    decreases Lv(c), ESize(a), 2
  {
    var h := LogicHead(s);
    LivesAlloca(s, s.n + 1, 8, h);
    InLater(c, s, h);
    var s1 := CCond(a, c, h).0;
    CondLives(a, c, h);
    LivesOn(s, h, s1);
    HasMore(h.head, s1.head, s.n + 1);
  }

  lemma {:induction false} LogicMidLives(isOr: bool, s0: Out, x: Opd, s: Out)
    requires Has(s.head, s0.n + 1)
    ensures Lives(s, LogicMid(isOr, s0, x, s))
  {
    var rhs, done := L(ScRhs, s0.lbl + 1), L(ScDone, s0.lbl + 2);
    var st, br := Store(8, Const(if isOr then 1 else 0), s0.n + 1),
        if isOr then CondBr(x, done, rhs) else CondBr(x, rhs, done);
    LivesLine(s, st, W(s, st));
    LivesPlain(W(s, st), [br, Label(rhs)], LogicMid(isOr, s0, x, s));
    LivesOn(s, W(s, st), LogicMid(isOr, s0, x, s));
  }

  lemma {:induction false} LogicTailLives(s0: Out, y: Opd, s: Out)
    requires Has(s.head, s0.n + 1)
    ensures Lives(s, LogicTail(s0, y, s))
  {
    var done, slot := L(ScDone, s0.lbl + 2), s0.n + 1;
    var z := Ins1(s, Zext(s.n + 1, y, 8));
    var s1 := W(z, Store(8, Reg(s.n + 1), slot));
    var s2 := Start(BrTo(s1, done), done);
    LivesLine(s, Zext(s.n + 1, y, 8), z);
    LivesLine(z, Store(8, Reg(s.n + 1), slot), s1);
    LivesOn(s, z, s1);
    JoinLives(s1, done, done);
    LivesOn(s, s1, s2);
    LivesLine(s2, Load(s2.n + 1, 8, slot), LogicTail(s0, y, s));
    LivesOn(s, s2, LogicTail(s0, y, s));
  }

  /** The end of a block and the label after it. */
  lemma JoinLives(s: Out, to: Lbl, l: Lbl)
    ensures Lives(s, Start(BrTo(s, to), l)) && Lives(s, BrTo(s, to))
  {
    LivesPlain(s, if s.terminated then [Label(l)] else [Br(to), Label(l)], Start(BrTo(s, to), l));
    LivesPlain(s, if s.terminated then [] else [Br(to)], BrTo(s, to));
  }

  lemma {:induction false} ArgsLive(args: seq<Expr>, c: Ctx, s: Out)
    requires InScope(c, s) && ScopedExprs(args, c.locals.Keys)
    ensures Lives(s, CArgs(args, c, s).0)
    decreases Lv(c), ESizes(args), 0
  {
    if args != [] {
      var s1 := CExpr(args[0], c, s).0;
      ExprLives(args[0], c, s);
      InLater(c, s, s1);
      ArgsLive(args[1..], c, s1);
      LivesOn(s, s1, CArgs(args[1..], c, s1).0);
    }
  }

  lemma TakeLives(x: Opd, ty: Ty, s: Out)
    ensures Lives(s, TakeValue(x, ty, s).0)
  {
    if !ty.NilT? { LivesLine(s, Extract(s.n + 1, x, 0, Bits(ty)), TakeValue(x, ty, s).0); }
  }

  lemma TestLives(x: Opd, ty: Ty, s: Out)
    ensures Lives(s, ErrTest(x, ty, s))
  {
    LivesPlain(s, [Extract(s.n + 1, x, if ty.NilT? then 0 else 1, 32), Icmp(s.n + 2, PNe, 32, Reg(s.n + 1), Const(0))],
        ErrTest(x, ty, s));
  }

  lemma {:induction false} ResultLives(op: ResOp, a: Expr, c: Ctx, s: Out)
    requires InScope(c, s) && ScopedExpr(a, c.locals.Keys)
    ensures Lives(s, CResultOf(op, a, c, s).0)
    decreases Lv(c), ESize(a), 4
  {
    var (s1, x) := CExpr(a, c, s);
    var t := XTyOf(a, c);
    ExprLives(a, c, s);
    if !op.Drop? && t.Rs? {
      var s2 := TakeValue(x, t.ty, s1).0;
      TakeLives(x, t.ty, s1);
      LivesOn(s, s1, s2);
      if op.Relay? {
        InLater(c, s, s2);
        RelayLives(x, t.ty, c, s2);
        LivesOn(s, s2, CRelay(x, t.ty, c, s2));
      }
    }
  }

  lemma {:induction false} RelayLives(x: Opd, ty: Ty, c: Ctx, s: Out)
    requires InScope(c, s)
    ensures Lives(s, CRelay(x, ty, c, s))
    decreases Lv(c), 0, 5
  {
    var h := RelayHead(x, ty, s);
    RelayIs(x, ty, c, s);
    RelayHeadLives(x, ty, s);
    InLater(c, s, h);
    RelayPathLives(s.n + 1, c, h);
    var p, ok := RelayPath(s.n + 1, c, h), L(RelayOk, s.lbl + 2);
    LivesOn(s, h, p);
    LivesLine(p, Label(ok), Start(p, ok));
    LivesOn(s, p, Start(p, ok));
  }

  lemma RelayHeadLives(x: Opd, ty: Ty, s: Out)
    ensures Lives(s, RelayHead(x, ty, s))
  {
    var err, ok, t := L(RelayErr, s.lbl + 1), L(RelayOk, s.lbl + 2), ErrTest(x, ty, s);
    TestLives(x, ty, s);
    LivesPlain(t, [CondBr(Reg(s.n + 2), err, ok), Label(err)], RelayHead(x, ty, s));
    LivesOn(s, t, RelayHead(x, ty, s));
  }

  lemma {:induction false} RelayPathLives(code: nat, c: Ctx, s: Out)
    requires InScope(c, s)
    ensures Lives(s, RelayPath(code, c, s))
    decreases Lv(c), 0, 4
  {
    if !c.inDefer { UnwindLives(c.defers, LErr(Reg(code)), c, s); }
  }

  lemma {:induction false} EmphaticLives(a: Expr, k: Expr, c: Ctx, s: Out)
    requires InScope(c, s) && ScopedExpr(a, c.locals.Keys) && ScopedExpr(k, c.locals.Keys)
    ensures Lives(s, CEmphatic(a, k, c, s).0)
    decreases Lv(c), ESize(a) + ESize(k), 4
  {
    var (s1, x) := CExpr(a, c, s);
    var t := XTyOf(a, c);
    EmphaticIs(a, k, c, s);
    ExprLives(a, c, s);
    if t.Rs? {
      InLater(c, s, s1);
      EmphaticRestLives(x, t.ty, s1, k, c);
      LivesOn(s, s1, EmphaticRest(x, t.ty, s1, k, c).0);
    }
  }

  lemma {:induction false} EmphaticRestLives(x: Opd, ty: Ty, s: Out, k: Expr, c: Ctx)
    requires InScope(c, s) && ScopedExpr(k, c.locals.Keys)
    ensures Lives(s, EmphaticRest(x, ty, s, k, c).0)
    decreases Lv(c), ESize(k), 2
  {
    var h := EmphHead(x, ty, s);
    EmphHeadLives(x, ty, s);
    InLater(c, s, h);
    var (s2, y) := CExpr(k, c, h);
    ExprLives(k, c, h);
    LivesOn(s, h, s2);
    var s3 := EmphTail(s, y, s2);
    EmphTailLives(s, y, s2);
    LivesOn(s, s2, s3);
    TakeLives(x, ty, s3);
    LivesOn(s, s3, TakeValue(x, ty, s3).0);
  }

  lemma EmphHeadLives(x: Opd, ty: Ty, s: Out)
    ensures Lives(s, EmphHead(x, ty, s))
  {
    var err, ok, t := L(EmphErr, s.lbl + 1), L(EmphOk, s.lbl + 2), ErrTest(x, ty, s);
    TestLives(x, ty, s);
    LivesPlain(t, [CondBr(Reg(s.n + 2), err, ok), Label(err)], EmphHead(x, ty, s));
    LivesOn(s, t, EmphHead(x, ty, s));
  }

  lemma EmphTailLives(s0: Out, y: Opd, s: Out)
    ensures Lives(s, EmphTail(s0, y, s))
  {
    var t := s.n + 1;
    LivesPlain(s, [CallFailsafe(t, y), CallExit(Reg(t)), Unreachable, Label(L(EmphOk, s0.lbl + 2))],
        EmphTail(s0, y, s));
  }

  lemma {:induction false} UnwrapLives(a: Expr, d: Expr, c: Ctx, s: Out)
    requires InScope(c, s) && ScopedExpr(a, c.locals.Keys) && ScopedExpr(d, c.locals.Keys)
    ensures Lives(s, CSafeUnwrap(a, d, c, s).0)
    decreases Lv(c), ESize(a) + ESize(d), 4
  {
    var (s1, x) := CExpr(a, c, s);
    var t := XTyOf(a, c);
    UnwrapIs(a, d, c, s);
    ExprLives(a, c, s);
    if t.Rs? {
      if t.ty.NilT? {
        TestLives(x, t.ty, s1);
        LivesOn(s, s1, ErrTest(x, t.ty, s1));
      } else {
        InLater(c, s, s1);
        UnwrapRestLives(x, t.ty, s1, d, c);
        LivesOn(s, s1, UnwrapRest(x, t.ty, s1, d, c).0);
      }
    }
  }

  lemma {:induction false} UnwrapRestLives(x: Opd, ty: Ty, s: Out, d: Expr, c: Ctx)
    requires InScope(c, s) && ScopedExpr(d, c.locals.Keys)
    ensures Lives(s, UnwrapRest(x, ty, s, d, c).0)
    decreases Lv(c), ESize(d), 2
  {
    var h := UnwrapHead(x, ty, s);
    UnwrapHeadLives(x, ty, s);
    InLater(c, s, h);
    var (s2, y) := CExpr(d, c, h);
    ExprLives(d, c, h);
    LivesOn(s, h, s2);
    HasMore(h.head, s2.head, s.n + 3);
    UnwrapTailLives(s, x, ty, y, s2);
    LivesOn(s, s2, UnwrapTail(s, x, ty, y, s2));
  }

  lemma UnwrapHeadLives(x: Opd, ty: Ty, s: Out)
    ensures Lives(s, UnwrapHead(x, ty, s)) && Has(UnwrapHead(x, ty, s).head, s.n + 3)
  {
    var t := ErrTest(x, ty, s);
    var a := AllocaAt(Tmp(t), s.n + 3, Bits(ty));
    TestLives(x, ty, s);
    LivesAlloca(t, s.n + 3, Bits(ty), a);
    LivesOn(s, t, a);
    var def, ok := L(QpDef, s.lbl + 1), L(QpOk, s.lbl + 2);
    LivesPlain(a, [CondBr(Reg(s.n + 2), def, ok), Label(def)], UnwrapHead(x, ty, s));
    LivesOn(s, a, UnwrapHead(x, ty, s));
  }

  lemma StoreGoLives(w: nat, y: Opd, slot: nat, to: Lbl, l: Lbl, s: Out)
    requires Has(s.head, slot)
    ensures Lives(s, W(W(W(s, Store(w, y, slot)), Br(to)), Label(l)))
  {
    var s1 := W(s, Store(w, y, slot));
    LivesLine(s, Store(w, y, slot), s1);
    LivesPlain(s1, [Br(to), Label(l)], W(W(s1, Br(to)), Label(l)));
    LivesOn(s, s1, W(W(s1, Br(to)), Label(l)));
  }

  lemma UnwrapTailLives(s0: Out, x: Opd, ty: Ty, y: Opd, s: Out)
    requires Has(s.head, s0.n + 3)
    ensures Lives(s, UnwrapTail(s0, x, ty, y, s))
  {
    var w, slot := Bits(ty), s0.n + 3;
    var ok, done := L(QpOk, s0.lbl + 2), L(QpDone, s0.lbl + 3);
    var s1 := W(W(W(s, Store(w, y, slot)), Br(done)), Label(ok));
    var s2 := Ins1(s1, Extract(s1.n + 1, x, 0, w));
    var s3 := W(W(W(s2, Store(w, Reg(s2.n), slot)), Br(done)), Label(done));
    StoreGoLives(w, y, slot, done, ok, s);
    LivesLine(s1, Extract(s1.n + 1, x, 0, w), s2);
    LivesOn(s, s1, s2);
    StoreGoLives(w, Reg(s2.n), slot, done, done, s2);
    LivesOn(s, s2, s3);
    LivesLine(s3, Load(s3.n + 1, w, slot), UnwrapTail(s0, x, ty, y, s));
    LivesOn(s, s3, UnwrapTail(s0, x, ty, y, s));
  }

  // --- leaving ------------------------------------------------------------------------------------------

  predicate ScopedLeave(m: Leave, names: set<string>) {
    match m
    case LOk(Some(e)) => ScopedExpr(e, names)
    case LFail(e) => ScopedExpr(e, names)
    case LExit(e) => ScopedExpr(e, names)
    case _ => true
  }

  lemma {:induction false} UnwindLives(frames: seq<seq<seq<Stmt>>>, m: Leave, c: Ctx, s: Out)
    requires InScope(c, s) && ScopedLeave(m, c.locals.Keys) && ScopedFrames(frames, c.locals.Keys)
    ensures Lives(s, CUnwind(frames, m, c, s))
    decreases Lv(c), LSize(m), 3, |frames|
  {
    if !c.inDefer {
      if frames == [] {
        LeaveLives(m, c, s);
      } else {
        var k, cd := |frames| - 1, c.(inDefer := true);
        var s1 := CDefers(frames[k], cd, s);
        DefersLive(frames[k], cd, s);
        InLater(c, s, s1);
        UnwindLives(frames[..k], m, c, s1);
        LivesOn(s, s1, CUnwind(frames[..k], m, c, s1));
      }
    }
  }

  lemma {:induction false} LeaveLives(m: Leave, c: Ctx, s: Out)
    requires InScope(c, s) && ScopedLeave(m, c.locals.Keys)
    ensures Lives(s, CLeave(m, c, s))
    decreases Lv(c), LSize(m), 2
  {
    match m {
      case LOk(None) =>
        LivesLine(s, if c.fn.bare then RetWord(Bits(c.fn.ret), Const(0)) else RetLone, CLeave(m, c, s));
      case LOk(Some(e)) => ValueLives(e, c, s);
      case LFail(e) =>
        var (s1, x) := CExpr(e, c, s);
        ExprLives(e, c, s);
        RetErrLives(x, c, s1);
        LivesOn(s, s1, RetErr(x, c, s1));
      case LExit(e) =>
        var (s1, x) := CExpr(e, c, s);
        ExprLives(e, c, s);
        LivesLine(s1, RetWord(Bits(c.fn.ret), x), CLeave(m, c, s));
        LivesOn(s, s1, CLeave(m, c, s));
      case LErr(x) => RetErrLives(x, c, s);
    }
  }

  lemma {:induction false} ValueLives(e: Expr, c: Ctx, s: Out)
    requires InScope(c, s) && ScopedExpr(e, c.locals.Keys)
    ensures Lives(s, CLeave(LOk(Some(e)), c, s))
    decreases Lv(c), ESize(e), 1
  {
    var r := CLeave(LOk(Some(e)), c, s);
    if !c.fn.bare && c.fn.ret.NilT? && e.NilLit? {
      LivesLine(s, RetLone, r);
    } else {
      var (s1, x) := CExpr(e, c, s);
      ExprLives(e, c, s);
      if c.fn.bare {
        LivesLine(s1, RetWord(Bits(c.fn.ret), x), r);
      } else if !c.fn.ret.NilT? {
        RetPairLives(x, Const(0), c.fn.ret, s1);
      } else if !s1.terminated {
        LivesLine(s1, RetLone, r);
      }
      LivesOn(s, s1, r);
    }
  }

  lemma RetPairLives(v: Opd, code: Opd, ty: Ty, s: Out)
    ensures Lives(s, RetPair(v, code, ty, s))
  {
    var a := s.n + 1;
    LivesPlain(s, [Insert(a, None, Bits(ty), v, 0), Insert(a + 1, Some(Reg(a)), 32, code, 1), RetAgg(Reg(a + 1))],
        RetPair(v, code, ty, s));
  }

  lemma RetErrLives(x: Opd, c: Ctx, s: Out)
    ensures Lives(s, RetErr(x, c, s))
  {
    if c.fn.bare {
      LivesLine(s, RetWord(Bits(c.fn.ret), x), RetErr(x, c, s));
    } else if c.fn.ret.NilT? {
      LivesPlain(s, [Insert(s.n + 1, None, 32, x, 0), RetAgg(Reg(s.n + 1))], RetErr(x, c, s));
    } else {
      RetPairLives(Const(0), x, c.fn.ret, s);
    }
  }

  // --- statements --------------------------------------------------------------------------------------------

  lemma {:induction false} DefersLive(frame: seq<seq<Stmt>>, c: Ctx, s: Out)
    requires InScope(c, s) && ScopedFrame(frame, c.locals.Keys)
    ensures Lives(s, CDefers(frame, c, s))
    decreases Lv(c), FSize(frame), 0
  {
    if frame != [] {
      var k := |frame| - 1;
      var s1 := CBlock(frame[k], c, s);
      BlockLives(frame[k], c, s);
      InLater(c, s, s1);
      DefersLive(frame[..k], c, s1);
      LivesOn(s, s1, CDefers(frame[..k], c, s1));
    }
  }

  lemma {:induction false} BlockLives(ss: seq<Stmt>, c: Ctx, s: Out)
    requires InScope(c, s) && ScopedList(ss, c.locals.Keys)
    ensures Lives(s, CBlock(ss, c, s))
    decreases Lv(c), BSize(ss) + 1, 0
  {
    var c0 := c.(defers := c.defers + [[]]);
    var (s1, c1) := CStmts(ss, c0, s);
    StmtsLive(ss, c0, s);
    if !s1.terminated {
      var cd := c1.(defers := c.defers, inDefer := true);
      DefersSize(ss);
      MoreFrames(c.defers, c.locals.Keys, c1.locals.Keys);
      DefersLive(DefersOf(ss), cd, s1);
      LivesOn(s, s1, CDefers(DefersOf(ss), cd, s1));
    }
  }

  lemma {:induction false} StmtsLive(ss: seq<Stmt>, c: Ctx, s: Out)
    requires InScope(c, s) && ScopedList(ss, c.locals.Keys)
    ensures var (s1, c1) := CStmts(ss, c, s);
            && Lives(s, s1) && c1.inDefer == c.inDefer && c.locals.Keys <= c1.locals.Keys && Homes(c1.locals, s1.head)
            && (!s1.terminated ==> ScopedFrame(DefersOf(ss), c1.locals.Keys))
    decreases Lv(c), BSize(ss), 5
  {
    if ss != [] && !s.terminated {
      var s1, c1 := CStmt(ss[0], c, s), After(ss[0], c, s);
      StmtLives(ss[0], c, s);
      AfterIn(ss[0], c, s);
      StmtsLive(ss[1..], c1, s1);
      var (s2, c2) := CStmts(ss[1..], c1, s1);
      LivesOn(s, s1, s2);
      if !s2.terminated && ss[0].Defer? { MoreList(ss[0].body, c.locals.Keys, c2.locals.Keys); }
    }
  }

  /** The scope after a statement is one, over the output after it. */
  lemma AfterIn(st: Stmt, c: Ctx, s: Out)
    requires InScope(c, s) && ScopedStmt(st, c.locals.Keys) && Lives(s, CStmt(st, c, s))
    ensures var c1 := After(st, c, s);
            InScope(c1, CStmt(st, c, s)) && c1.locals.Keys == c.locals.Keys + Declared(st)
  {
    var s1, c1 := CStmt(st, c, s), After(st, c, s);
    InLater(c, s, s1);
    match st {
      case VarDecl(x, ty, e) =>
        DeclMakes(x, ty, e, c, s);
        MoreFrames(c.defers, c.locals.Keys, c1.locals.Keys);
      case Defer(b) =>
        forall i | 0 <= i < |c1.defers| ensures ScopedFrame(c1.defers[i], c.locals.Keys) {
          assert ScopedFrame(c.defers[i], c.locals.Keys);
        }
      case _ =>
    }
  }

  lemma DeclMakes(x: string, ty: Ty, e: Expr, c: Ctx, s: Out)
    ensures Has(CStmt(VarDecl(x, ty, e), c, s).head, s.n + 1)
  {
    var a := AllocaAt(Tmp(s), s.n + 1, Bits(ty));
    LivesAlloca(s, s.n + 1, Bits(ty), a);
    HasMore(a.head, CStmt(VarDecl(x, ty, e), c, s).head, s.n + 1);
  }

  lemma {:induction false} StmtLives(st: Stmt, c: Ctx, s: Out)
    requires InScope(c, s) && ScopedStmt(st, c.locals.Keys)
    ensures Lives(s, CStmt(st, c, s))
    decreases Lv(c), SSize(st), 4
  {
    match st {
      case Block(b) => BlockLives(b, c, s);
      case VarDecl(x, ty, e) => DeclLives(x, ty, e, c, s);
      case Assign(x, op, e) => AssignLives(x, op, e, c, s);
      case ExprStmt(e) => ExprLives(e, c, s);
      case If(e, t, els) => IfLives(e, t, els, c, s);
      case While(e, b) => WhileLives(e, b, c, s);
      case Pick(e, arms) => PickLives(e, arms, c, s);
      case Pass(r) => UnwindLives(c.defers, LOk(r), c, s);
      case Fail(e) => UnwindLives(c.defers, LFail(e), c, s);
      case Exit(e) => UnwindLives(c.defers, LExit(e), c, s);
      case Trap(e) => TrapLives(e, c, s);
      case Break => if c.loops != [] { JoinLives(s, c.loops[|c.loops| - 1].done, L(IfEnd, 0)); }
      case Continue => if c.loops != [] { JoinLives(s, c.loops[|c.loops| - 1].head, L(IfEnd, 0)); }
      case Defer(_) =>
    }
  }

  lemma {:induction false} TrapLives(e: Expr, c: Ctx, s: Out)
    requires InScope(c, s) && ScopedExpr(e, c.locals.Keys)
    ensures Lives(s, CStmt(Trap(e), c, s))
    decreases Lv(c), ESize(e), 1
  {
    var (s1, v) := CExpr(e, c, s);
    ExprLives(e, c, s);
    LivesPlain(s1, [CallFailsafe(s1.n + 1, v), CallExit(Reg(s1.n + 1)), Unreachable], TrapTail(v, s1));
    LivesOn(s, s1, TrapTail(v, s1));
  }

  lemma {:induction false} DeclLives(x: string, ty: Ty, e: Expr, c: Ctx, s: Out)
    requires InScope(c, s) && ScopedExpr(e, c.locals.Keys)
    ensures Lives(s, CStmt(VarDecl(x, ty, e), c, s))
    decreases Lv(c), ESize(e), 1
  {
    var slot := s.n + 1;
    var a := AllocaAt(Tmp(s), slot, Bits(ty));
    LivesAlloca(s, slot, Bits(ty), a);
    InLater(c, s, a);
    var (s1, v) := CExpr(e, c, a);
    ExprLives(e, c, a);
    LivesOn(s, a, s1);
    HasMore(a.head, s1.head, slot);
    LivesLine(s1, Store(Bits(ty), v, slot), W(s1, Store(Bits(ty), v, slot)));
    LivesOn(s, s1, W(s1, Store(Bits(ty), v, slot)));
  }

  lemma {:induction false} AssignLives(x: string, op: Option<BinOp>, e: Expr, c: Ctx, s: Out)
    requires InScope(c, s) && x in c.locals && ScopedExpr(e, c.locals.Keys)
    ensures Lives(s, CStmt(Assign(x, op, e), c, s))
    decreases Lv(c), ESize(e), 1
  {
    var l := SlotOf(c, x);
    var s0 := if op.None? then s else VarTail(l, s);
    if op.Some? { LivesLine(s, Load(s.n + 1, Bits(l.ty), l.slot), s0); }
    InLater(c, s, s0);
    var (s1, v) := CExpr(e, c, s0);
    ExprLives(e, c, s0);
    LivesOn(s, s0, s1);
    HasMore(s.head, s1.head, l.slot);
    AssignTailLives(l, op, s.n + 1, v, s1);
    LivesOn(s, s1, AssignTail(l, op, s.n + 1, v, s1));
  }

  lemma AssignTailLives(l: Local, op: Option<BinOp>, cur: nat, v: Opd, s: Out)
    requires Has(s.head, l.slot)
    ensures Lives(s, AssignTail(l, op, cur, v, s))
  {
    if op.None? {
      LivesLine(s, Store(Bits(l.ty), v, l.slot), AssignTail(l, op, cur, v, s));
    } else {
      var s1 := ArithTail(op.value, l.ty, Reg(cur), v, s);
      ArithLives(op.value, l.ty, Reg(cur), v, s);
      LivesLine(s1, Store(Bits(l.ty), Reg(s.n + 1), l.slot), AssignTail(l, op, cur, v, s));
      LivesOn(s, s1, AssignTail(l, op, cur, v, s));
    }
  }

  lemma {:induction false} IfLives(e: Expr, t: seq<Stmt>, els: Option<Stmt>, c: Ctx, s: Out)
    requires InScope(c, s) && ScopedStmt(If(e, t, els), c.locals.Keys)
    ensures Lives(s, CIf(e, t, els, c, s))
    decreases Lv(c), ESize(e) + BSize(t) + (if els.Some? then SSize(els.value) else 0), 6
  {
    var s0, done := IfLabels(s, els.Some?), IfDone(s);
    LivesPlain(s, [], s0);
    InLater(c, s, s0);
    var (s1, v) := CCond(e, c, s0);
    CondLives(e, c, s0);
    LivesOn(s, s0, s1);
    var h := IfTest(s, els.Some?, v, s1);
    LivesPlain(s1, [CondBr(v, IfThen(s), IfElse(s, els.Some?)), Label(IfThen(s))], h);
    LivesOn(s, s1, h);
    InLater(c, s, h);
    var b := CBlock(t, c, h);
    BlockLives(t, c, h);
    LivesOn(s, h, b);
    var s2 := BrTo(b, done);
    JoinLives(b, done, done);
    LivesOn(s, b, s2);
    if els.Some? {
      InLater(c, s, s2);
      ElseLives(els.value, IfElse(s, true), done, c, s2);
      LivesOn(s, s2, CIf(e, t, els, c, s));
    } else {
      LivesLine(s2, Label(done), Start(s2, done));
      LivesOn(s, s2, Start(s2, done));
    }
  }

  lemma {:induction false} ElseLives(st: Stmt, l: Lbl, done: Lbl, c: Ctx, s: Out)
    requires InScope(c, s) && ScopedStmt(st, c.locals.Keys)
    ensures Lives(s, Start(BrTo(CStmt(st, c, Start(s, l)), done), done))
    decreases Lv(c), SSize(st), 5
  {
    var s0 := Start(s, l);
    LivesLine(s, Label(l), s0);
    InLater(c, s, s0);
    var s1 := CStmt(st, c, s0);
    StmtLives(st, c, s0);
    LivesOn(s, s0, s1);
    JoinLives(s1, done, done);
    LivesOn(s, s1, Start(BrTo(s1, done), done));
  }

  lemma {:induction false} WhileLives(e: Expr, b: seq<Stmt>, c: Ctx, s: Out)
    requires InScope(c, s) && ScopedExpr(e, c.locals.Keys) && ScopedList(b, c.locals.Keys)
    ensures Lives(s, CWhile(e, b, c, s))
    decreases Lv(c), ESize(e) + BSize(b) + 1, 5
  {
    var h := WhStart(s);
    LivesPlain(s, if s.terminated then [Label(WhHead(s))] else [Br(WhHead(s)), Label(WhHead(s))], h);
    InLater(c, s, h);
    var (s1, v) := CCond(e, c, h);
    CondLives(e, c, h);
    LivesOn(s, h, s1);
    var b0, ci := WhTest(s, v, s1), c.(loops := c.loops + [Loop(WhHead(s), WhDone(s))]);
    LivesPlain(s1, [CondBr(v, WhBody(s), WhDone(s)), Label(WhBody(s))], b0);
    LivesOn(s, s1, b0);
    InLater(c, s, b0);
    var s2 := CBlock(b, ci, b0);
    BlockLives(b, ci, b0);
    LivesOn(s, b0, s2);
    JoinLives(s2, WhHead(s), WhDone(s));
    WhileIs(e, b, c, s);
    LivesOn(s, s2, Start(BrTo(s2, WhHead(s)), WhDone(s)));
  }

  lemma {:induction false} PickLives(e: Expr, arms: seq<Arm>, c: Ctx, s: Out)
    requires InScope(c, s) && ScopedExpr(e, c.locals.Keys) && ScopedArms(arms, c.locals.Keys)
    ensures Lives(s, CPick(e, arms, c, s))
    decreases Lv(c), ESize(e) + ASize(arms), 5
  {
    var (s1, v) := CExpr(e, c, s);
    var w := Bits(XTyOf(e, c).ty);
    ExprLives(e, c, s);
    InLater(c, s, s1);
    PickRestLives(w, v, arms, c, s1);
    PickIs(e, arms, c, s);
    LivesOn(s, s1, PickRest(w, v, arms, c, s1));
  }

  lemma {:induction false} PickRestLives(w: nat, v: Opd, arms: seq<Arm>, c: Ctx, s: Out)
    requires InScope(c, s) && ScopedArms(arms, c.locals.Keys)
    ensures Lives(s, PickRest(w, v, arms, c, s))
    decreases Lv(c), ASize(arms), 5
  {
    var sw, first, done := PickSwitch(w, v, arms, s), s.lbl + 2, PickDone(s);
    var s3 := ArmsOut(arms, first, done, c, sw);
    assert PickRest(w, v, arms, c, s) == Start(s3, done);
    LivesLine(s, sw.body[|s.body|], sw);
    InLater(c, s, sw);
    ArmsOutLive(arms, first, done, c, sw);
    LivesOn(s, sw, s3);
    LivesLine(s3, Label(done), Start(s3, done));
    LivesOn(s, s3, Start(s3, done));
  }

  lemma {:induction false} ArmScoped(arms: seq<Arm>, i: nat, names: set<string>)
    requires i < |arms| && ScopedArms(arms, names)
    ensures ScopedList(ArmAt(arms, i), names)
  {
    if i > 0 { ArmScoped(arms[1..], i - 1, names); }
  }

  lemma {:induction false} ArmsOutLive(arms: seq<Arm>, first: nat, done: Lbl, c: Ctx, s: Out)
    requires InScope(c, s) && ScopedArms(arms, c.locals.Keys)
    ensures Lives(s, ArmsOut(arms, first, done, c, s))
    decreases Lv(c), ASize(arms), 4
  {
    var wild, s1 := WildArm(arms), CArms(arms, 0, first, done, c, s);
    ArmsLive(arms, 0, first, done, c, s);
    if wild.Some? {
      var b, l := ArmAt(arms, wild.value), ArmLabel(first, wild.value);
      ArmScoped(arms, wild.value, c.locals.Keys);
      InLater(c, s, s1);
      ArmLives(b, l, done, c, s1);
      LivesOn(s, s1, CArm(b, l, done, c, s1));
    }
  }

  lemma {:induction false} ArmsLive(arms: seq<Arm>, i: nat, first: nat, done: Lbl, c: Ctx, s: Out)
    requires i <= |arms| && InScope(c, s) && ScopedArms(arms, c.locals.Keys)
    ensures Lives(s, CArms(arms, i, first, done, c, s))
    decreases Lv(c), ASize(arms), 3, |arms| - i
  {
    if i < |arms| {
      if arms[i].pat.None? {
        ArmsLive(arms, i + 1, first, done, c, s);
      } else {
        var s1 := CArm(ArmAt(arms, i), ArmLabel(first, i), done, c, s);
        ArmScoped(arms, i, c.locals.Keys);
        ArmLives(ArmAt(arms, i), ArmLabel(first, i), done, c, s);
        InLater(c, s, s1);
        ArmsLive(arms, i + 1, first, done, c, s1);
        LivesOn(s, s1, CArms(arms, i + 1, first, done, c, s1));
      }
    }
  }

  lemma {:induction false} ArmLives(b: seq<Stmt>, l: Lbl, done: Lbl, c: Ctx, s: Out)
    requires InScope(c, s) && ScopedList(b, c.locals.Keys)
    ensures Lives(s, CArm(b, l, done, c, s))
    decreases Lv(c), BSize(b) + 1, 1
  {
    var s0 := Start(s, l);
    LivesLine(s, Label(l), s0);
    InLater(c, s, s0);
    var s1 := CBlock(b, c, s0);
    BlockLives(b, c, s0);
    LivesOn(s, s0, s1);
    JoinLives(s1, done, done);
    LivesOn(s, s1, BrTo(s1, done));
  }

  // --- a function ------------------------------------------------------------------------------------------------

  function ParamNames(params: seq<Source.Param>): set<string> {
    if params == [] then {} else ParamNames(params[1..]) + {params[0].name}
  }

  lemma {:induction false} ParamsLive(params: seq<Source.Param>, i: nat, c: Ctx, s: Out)
    requires i <= |params| && Homes(c.locals, s.head)
    ensures var (s1, c1) := CParams(params, i, c, s);
            Lives(s, s1) && Homes(c1.locals, s1.head) && c1.defers == c.defers
            && c1.locals.Keys == c.locals.Keys + ParamNames(params[i..])
    decreases |params| - i
  {
    if i < |params| {
      var slot, w := s.n + 1, Bits(params[i].ty);
      var a := AllocaAt(Tmp(s), slot, w);
      var s1 := W(a, Store(w, Target.Param(i), slot));
      var c1 := c.(locals := c.locals[params[i].name := Local(slot, params[i].ty)]);
      LivesAlloca(s, slot, w, a);
      LivesLine(a, Store(w, Target.Param(i), slot), s1);
      LivesOn(s, a, s1);
      forall x | x in c1.locals ensures Has(s1.head, c1.locals[x].slot) {
        if x != params[i].name { HasMore(s.head, s1.head, c.locals[x].slot); }
      }
      assert params[i..][1..] == params[i + 1..];
      ParamsLive(params, i + 1, c1, s1);
      LivesOn(s, s1, CParams(params, i + 1, c1, s1).0);
    }
  }

  /** In the text of a function whose names are declared before they are used, the slot of every load and store
      is one that an alloca before it made. */
  lemma SlotsMade(f: Func, g: Sigs, lbl: nat)
    requires ScopedList(f.body, ParamNames(f.params))
    ensures var text := TextOf(CFunc(f, g, lbl));
            forall i :: 0 <= i < |text| ==> Lodged(text[i], text[..i])
  {
    var s := CFunc(f, g, lbl);
    FuncLives(f, g, lbl);
    HeadOnly(f, g, lbl);
    forall i | 0 <= i < |TextOf(s)| ensures Lodged(TextOf(s)[i], TextOf(s)[..i]) { LodgedText(s, i); }
  }

  lemma FuncLives(f: Func, g: Sigs, lbl: nat)
    requires ScopedList(f.body, ParamNames(f.params))
    ensures Lives(Start0(lbl), CFunc(f, g, lbl))
  {
    var s0, c0 := Start0(lbl), Ctx0(f, g);
    var (s1, c1) := CParams(f.params, 0, c0, s0);
    ParamsLive(f.params, 0, c0, s0);
    assert f.params[0..] == f.params;
    assert c0.locals.Keys + ParamNames(f.params) == ParamNames(f.params) && ScopedFrame([], c1.locals.Keys);
    var s2, s := CBlock(f.body, c1, s1), CFunc(f, g, lbl);
    BlockLives(f.body, c1, s1);
    LivesOn(s0, s1, s2);
    EndLives(f, s2, s);
    LivesOn(s0, s2, s);
  }

  /** Falling off the end. */
  lemma EndLives(f: Func, s: Out, r: Out)
    requires r == if s.terminated then s
                  else W(s, if f.bare then RetWord(Bits(f.ret), Const(0)) else RetZero(ResLLOf(f.ret)))
    ensures Lives(s, r)
  {
    LivesPlain(s, r.body[|s.body|..], r);
  }

  /** The head is allocas. */
  lemma HeadOnly(f: Func, g: Sigs, lbl: nat)
    ensures forall i :: 0 <= i < |CFunc(f, g, lbl).head| ==> Slotless(CFunc(f, g, lbl).head[i])
  {
    WellLaidOut(f, g, lbl);
  }

  lemma LodgedText(s: Out, i: nat)
    requires i < |TextOf(s)| && (forall j :: 0 <= j < |s.head| ==> Slotless(s.head[j]))
    requires forall j :: 0 <= j < |s.body| ==> Lodged(s.body[j], s.head)
    ensures Lodged(TextOf(s)[i], TextOf(s)[..i])
  {
    var text, k := TextOf(s), 1 + |s.head|;
    if i >= k {
      assert text[i] == s.body[i - k];
      match text[i] {
        case Load(_, _, slot) => HeadHas(s, i, slot);
        case Store(_, _, slot) => HeadHas(s, i, slot);
        case _ =>
      }
    } else if i > 0 {
      assert text[i] == s.head[i - 1];
    }
  }

  lemma HeadHas(s: Out, i: nat, slot: nat)
    requires 1 + |s.head| <= i < |TextOf(s)| && Has(s.head, slot)
    ensures Has(TextOf(s)[..i], slot)
  {
    var j :| 0 <= j < |s.head| && Makes(s.head[j], slot);
    assert Makes(TextOf(s)[..i][j + 1], slot);
  }

  // --- what is well typed is scoped ---------------------------------------------------------------

  lemma {:induction false} TypedScoped(e: Expr, T: Types, g: Sigs)
    requires TypeOf(e, T, g).Some?
    ensures ScopedExpr(e, T.Keys)
    decreases e
  {
    match e {
      case Unary(_, a) => TypedScoped(a, T, g);
      case Arith(_, a, b) => TypedScoped(a, T, g); TypedScoped(b, T, g);
      case Compare(_, a, b) => TypedScoped(a, T, g); TypedScoped(b, T, g);
      case Logic(_, a, b) => TypedScoped(a, T, g); TypedScoped(b, T, g);
      case Call(f, args) => TypedArgs(args, g[f].params, T, g);
      case ResultOf(_, a) => TypedScoped(a, T, g);
      case Emphatic(a, b) => TypedScoped(a, T, g); TypedScoped(b, T, g);
      case SafeUnwrap(a, b) => TypedScoped(a, T, g); TypedScoped(b, T, g);
      case _ =>
    }
  }

  lemma {:induction false} TypedArgs(args: seq<Expr>, params: seq<Ty>, T: Types, g: Sigs)
    requires ArgsTyped(args, params, T, g)
    ensures ScopedExprs(args, T.Keys)
    decreases args
  {
    if args != [] {
      TypedScoped(args[0], T, g);
      TypedArgs(args[1..], params[1..], T, g);
    }
  }

  lemma {:induction false} OkScoped(st: Stmt, k: Chk)
    requires OkStmt(st, k)
    ensures ScopedStmt(st, k.T.Keys) && AfterK(st, k).T.Keys == k.T.Keys + Declared(st)
    decreases SSize(st), 0
  {
    match st {
      case Block(b) => OkBodyScoped(b, k);
      case VarDecl(_, _, e) => TypedScoped(e, k.T, k.g);
      case Assign(_, _, e) => TypedScoped(e, k.T, k.g);
      case ExprStmt(e) => TypedScoped(e, k.T, k.g);
      case If(e, t, els) =>
        TypedScoped(e, k.T, k.g);
        OkBodyScoped(t, k);
        if els.Some? { OkScoped(els.value, k); }
      case While(e, b) =>
        TypedScoped(e, k.T, k.g);
        OkBodyScoped(b, k.(loop := Some(|k.defers|)));
      case Pick(e, arms) =>
        TypedScoped(e, k.T, k.g);
        OkArmsScoped(arms, k);
      case Pass(Some(e)) => TypedScoped(e, k.T, k.g);
      case Fail(e) => TypedScoped(e, k.T, k.g);
      case Exit(e) => TypedScoped(e, k.T, k.g);
      case Trap(e) => TypedScoped(e, k.T, k.g);
      case Defer(b) => OkBodyScoped(b, InDefer(k));
      case _ =>
    }
  }

  lemma OkBodyScoped(ss: seq<Stmt>, k: Chk)
    requires OkBlock(ss, k)
    ensures ScopedList(ss, k.T.Keys)
    decreases BSize(ss), 2
  {
    OkListScoped(ss, k.(defers := k.defers + [[]]));
  }

  lemma {:induction false} OkListScoped(ss: seq<Stmt>, k: Chk)
    requires OkStmts(ss, k)
    ensures ScopedList(ss, k.T.Keys)
    decreases BSize(ss), 1
  {
    if ss != [] {
      OkScoped(ss[0], k);
      OkListScoped(ss[1..], AfterK(ss[0], k));
    }
  }

  lemma {:induction false} OkArmsScoped(arms: seq<Arm>, k: Chk)
    requires OkArms(arms, k)
    ensures ScopedArms(arms, k.T.Keys)
    decreases ASize(arms), 1
  {
    if arms != [] {
      OkBodyScoped(arms[0].body, k);
      OkArmsScoped(arms[1..], k);
    }
  }

  lemma {:induction false} ParamKeys(params: seq<Source.Param>)
    ensures ParamTypes(params).Keys == ParamNames(params)
  {
    if params != [] {
      var i := |params| - 1;
      ParamKeys(params[..i]);
      ParamsFront(params, i);
    }
  }

  lemma {:induction false} ParamsFront(params: seq<Source.Param>, i: nat)
    requires i + 1 == |params|
    ensures ParamNames(params) == ParamNames(params[..i]) + {params[i].name}
  {
    if i > 0 {
      ParamsFront(params[1..], i - 1);
      assert params[1..][..i - 1] == params[..i][1..];
    }
  }

  /** So it holds for every regular function. */
  lemma RegularSlots(f: Func, g: Sigs, lbl: nat)
    requires OkFunc(f, g)
    ensures var text := TextOf(CFunc(f, g, lbl));
            forall i :: 0 <= i < |text| ==> Lodged(text[i], text[..i])
  {
    ParamKeys(f.params);
    OkBodyScoped(f.body, Chk(ParamTypes(f.params), [[]], None, g, f, false));
    SlotsMade(f, g, lbl);
  }
}
