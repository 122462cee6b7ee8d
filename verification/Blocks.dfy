/** Where the emitted blocks end. Each block should end in one terminator with nothing after it. That is so
    exactly when no statement leaves, and no expression relays, past a registered defer body that itself ends
    its block: the lines of the leave would follow the body's `unreachable`. */
module Blocks {
  import opened Words
  import opened Source
  import opened Target
  import opened Lowering
  import opened Checked

  /** Between two lines: inside a block, after its terminator, or past a misplaced line. */
  datatype Place = Open | Closed | Bad

  function Next(p: Place, x: Line): Place {
    match p
    case Open => if x.Label? then Bad else if Terminator(x) then Closed else Open
    case Closed => if x.Label? then Open else Bad
    case Bad => Bad
  }

  /** The place after the first `k` lines, which start inside the entry block. */
  function ScanTo(xs: seq<Line>, k: nat): Place
    requires k <= |xs|
  {
    if k == 0 then Open else Next(ScanTo(xs, k - 1), xs[k - 1])
  }

  function Scan(xs: seq<Line>): Place {
    ScanTo(xs, |xs|)
  }

  lemma {:induction false} SameFront(xs: seq<Line>, ys: seq<Line>, k: nat)
    requires xs <= ys && k <= |xs|
    ensures ScanTo(xs, k) == ScanTo(ys, k)
  {
    if k > 0 { SameFront(xs, ys, k - 1); }
  }

  lemma {:induction false} Snoc()
    ensures forall xs: seq<Line>, x: Line {:trigger Scan(xs + [x])} :: Scan(xs + [x]) == Next(Scan(xs), x)
  {
    forall xs: seq<Line>, x: Line {:trigger Scan(xs + [x])}
      ensures Scan(xs + [x]) == Next(Scan(xs), x)
    {
      SameFront(xs, xs + [x], |xs|);
    }
  }

  lemma {:induction false} BadStays(xs: seq<Line>, ys: seq<Line>)
    requires xs <= ys && Scan(xs) == Bad
    ensures Scan(ys) == Bad
  {
    SameFront(xs, ys, |xs|);
    BadOn(ys, |xs|, |ys|);
  }

  lemma {:induction false} BadOn(xs: seq<Line>, j: nat, k: nat)
    requires j <= k <= |xs| && ScanTo(xs, j) == Bad
    ensures ScanTo(xs, k) == Bad
    decreases k - j
  {
    if j < k { BadOn(xs, j, k - 1); }
  }

  /** From inside a block, a construct whose lowering is sound leaves the flag telling the truth; any other
      misplaces a line. */
  ghost predicate Moves(s: Out, s1: Out, ok: bool) {
    && (Scan(s.body) == Bad ==> Scan(s1.body) == Bad)
    && (Scan(s.body) == Open && !s.terminated ==>
          Scan(s1.body) == if !ok then Bad else if s1.terminated then Closed else Open)
  }

  lemma {:induction false} MovesOn(s: Out, s1: Out, s2: Out, ok1: bool, ok2: bool)
    requires Moves(s, s1, ok1) && Moves(s1, s2, ok2) && (!s.terminated ==> !s1.terminated)
    ensures Moves(s, s2, ok1 && ok2)
  {}

  lemma {:induction false} NamesMove(s: Out, s1: Out)
    requires s1.body == s.body && s1.terminated == s.terminated
    ensures Moves(s, s1, true)
  {}

  lemma {:induction false} LineMoves(s: Out, x: Line, s1: Out)
    requires s1.body == s.body + [x] && s1.terminated == s.terminated && !x.Label? && !Terminator(x)
    ensures Moves(s, s1, true)
  {
    Snoc();
  }

  /** The end of a block, wherever it is, and the start of the next. */
  lemma {:induction false} MovesJoin(s: Out, b: Out, to: Lbl, l: Lbl, ok: bool)
    requires Moves(s, b, ok) && !s.terminated
    ensures Moves(s, Start(BrTo(b, to), l), ok)
  {
    Snoc();
  }

  // --- which statements end their block -----------------------------------------------------------

  predicate EndsStmt(st: Stmt)
    decreases SSize(st), 0
  {
    match st
    case Block(b) => EndsBlock(b)
    case Pass(_) => true
    case Fail(_) => true
    case Exit(_) => true
    case Trap(_) => true
    case Break => true
    case Continue => true
    case _ => false
  }

  predicate EndsList(ss: seq<Stmt>)
    decreases BSize(ss), 1
  {
    ss != [] && (EndsStmt(ss[0]) || EndsList(ss[1..]))
  }

  predicate EndsBlock(ss: seq<Stmt>)
    decreases BSize(ss), 2
  {
    DefersSize(ss);
    EndsList(ss) || EndsFrame(DefersOf(ss))
  }

  predicate EndsFrame(frame: seq<seq<Stmt>>)
    decreases FSize(frame), 0
  {
    frame != [] && (EndsBlock(frame[|frame| - 1]) || EndsFrame(frame[..|frame| - 1]))
  }

  predicate EndsAny(frames: seq<seq<seq<Stmt>>>) {
    frames != [] && (EndsFrame(frames[|frames| - 1]) || EndsAny(frames[..|frames| - 1]))
  }

  // --- which constructs are lowered soundly ---------------------------------------------------------

  /** What a construct's soundness depends on; `ends` says that some open defer body ends its block. */
  datatype Scope = Scope(T: Types, g: Sigs, fn: Func, ends: bool)

  function ScopeOf(c: Ctx): Scope {
    Scope(TypesOf(c.locals), c.g, c.fn, EndsAny(c.defers))
  }

  function XT(e: Expr, x: Scope): XTy {
    var t := TypeOf(e, x.T, x.g);
    if t.Some? then t.value else Sc(NilT)
  }

  /** An error path that leaves the function is lowered for the expression. */
  predicate Relays(e: Expr, x: Scope)
    decreases ESize(e)
  {
    match e
    case Unary(_, a) => Relays(a, x)
    case Arith(_, a, b) => Relays(a, x) || Relays(b, x)
    case Compare(_, a, b) => Relays(a, x) || Relays(b, x)
    case Logic(_, a, b) => Relays(a, x) || Relays(b, x)
    case Call(_, args) => RelaysAny(args, x)
    case ResultOf(op, a) => Relays(a, x) || (op.Relay? && XT(a, x).Rs?)
    case Emphatic(a, k) => Relays(a, x) || (XT(a, x).Rs? && Relays(k, x))
    case SafeUnwrap(a, d) => Relays(a, x) || (XT(a, x).Rs? && !XT(a, x).ty.NilT? && Relays(d, x))
    case _ => false
  }

  predicate RelaysAny(args: seq<Expr>, x: Scope)
    decreases ESizes(args)
  {
    args != [] && (Relays(args[0], x) || RelaysAny(args[1..], x))
  }

  predicate SoundExpr(e: Expr, x: Scope) {
    x.ends ==> !Relays(e, x)
  }

  /** Nothing is emitted for the expression. */
  predicate Silent(e: Expr) {
    match e
    case IntLit(_, _) => true
    case BoolLit(_) => true
    case NilLit => true
    case ResultOf(_, a) => Silent(a)
    case Emphatic(a, _) => Silent(a)
    case SafeUnwrap(a, _) => Silent(a)
    case _ => false
  }

  /** A leave that emits nothing once the defers have ended the block: a Result<NIL> of a silent expression. */
  predicate SilentLeave(m: Leave, f: Func) {
    m.LOk? && m.result.Some? && !f.bare && f.ret.NilT? && !m.result.value.NilLit? && Silent(m.result.value)
  }

  predicate SoundLeave(m: Leave, x: Scope) {
    x.ends ==> SilentLeave(m, x.fn)
  }

  function AfterX(st: Stmt, x: Scope): Scope {
    match st
    case VarDecl(v, ty, _) => x.(T := x.T[v := ty])
    case Defer(b) => x.(ends := x.ends || EndsBlock(b))
    case _ => x
  }

  predicate SoundStmt(st: Stmt, x: Scope)
    decreases SSize(st), 0
  {
    match st
    case Block(b) => SoundList(b, x)
    case VarDecl(_, _, e) => SoundExpr(e, x)
    case Assign(_, _, e) => SoundExpr(e, x)
    case ExprStmt(e) => SoundExpr(e, x)
    case If(e, t, els) => SoundExpr(e, x) && SoundList(t, x) && (els.Some? ==> SoundStmt(els.value, x))
    case While(e, b) => SoundExpr(e, x) && SoundList(b, x)
    case Pick(e, arms) =>
      SoundExpr(e, x) && SoundArms(arms, x) && (WildArm(arms).Some? ==> SoundList(ArmAt(arms, WildArm(arms).value), x))
    case Pass(r) => SoundLeave(LOk(r), x)
    case Fail(e) => SoundLeave(LFail(e), x)
    case Exit(e) => SoundLeave(LExit(e), x)
    case Trap(e) => SoundExpr(e, x)
    case _ => true
  }

  /** Statements after one that ends the block are not lowered. */
  predicate SoundList(ss: seq<Stmt>, x: Scope)
    decreases BSize(ss), 1
  {
    ss == [] || (SoundStmt(ss[0], x) && (EndsStmt(ss[0]) || SoundList(ss[1..], AfterX(ss[0], x))))
  }

  /** The literal arms; of the wildcards only the last is lowered. */
  predicate SoundArms(arms: seq<Arm>, x: Scope)
    decreases ASize(arms), 1
  {
    arms == [] || ((arms[0].pat.Some? ==> SoundList(arms[0].body, x)) && SoundArms(arms[1..], x))
  }

  // --- what the checker allows: no leave or relay in a defer body, no jump but in a loop -------------------

  predicate Tame(st: Stmt, d: bool, l: bool)
    decreases SSize(st), 0
  {
    match st
    case Block(b) => TameList(b, d, l)
    case VarDecl(_, _, e) => d ==> NoRelay(e)
    case Assign(_, _, e) => d ==> NoRelay(e)
    case ExprStmt(e) => d ==> NoRelay(e)
    case If(e, t, els) => (d ==> NoRelay(e)) && TameList(t, d, l) && (els.Some? ==> Tame(els.value, d, l))
    case While(e, b) => (d ==> NoRelay(e)) && TameList(b, d, true)
    case Pick(e, arms) => (d ==> NoRelay(e)) && TameArms(arms, d, l)
    case Pass(_) => !d
    case Fail(_) => !d
    case Exit(_) => !d
    case Trap(e) => d ==> NoRelay(e)
    case Defer(b) => TameList(b, true, false)
    case Break => l
    case Continue => l
  }

  predicate TameList(ss: seq<Stmt>, d: bool, l: bool)
    decreases BSize(ss), 1
  {
    ss == [] || (Tame(ss[0], d, l) && TameList(ss[1..], d, l))
  }

  predicate TameArms(arms: seq<Arm>, d: bool, l: bool)
    decreases ASize(arms), 1
  {
    arms == [] || (TameList(arms[0].body, d, l) && TameArms(arms[1..], d, l))
  }

  predicate TameFrame(frame: seq<seq<Stmt>>) {
    forall i :: 0 <= i < |frame| ==> TameList(frame[i], true, false)
  }

  predicate TameFrames(frames: seq<seq<seq<Stmt>>>) {
    forall i :: 0 <= i < |frames| ==> TameFrame(frames[i])
  }

  lemma {:induction false} OkCalm(e: Expr, ty: Ty, k: Chk)
    ensures OkExpr(e, k) || OkTyped(e, ty, k) || OkCond(e, k) ==> k.inDefer ==> NoRelay(e)
  {
    assert OkTyped(e, ty, k) || OkCond(e, k) ==> OkExpr(e, k);
  }

  lemma {:induction false} OkTame(st: Stmt, k: Chk)
    requires OkStmt(st, k)
    ensures Tame(st, k.inDefer, k.loop.Some?)
    decreases SSize(st), 0
  {
    match st {
      case Block(b) => OkTameBlock(b, k);
      case VarDecl(_, ty, e) => OkCalm(e, ty, k);
      case Assign(v, _, e) => OkCalm(e, k.T[v], k);
      case ExprStmt(e) => OkCalm(e, NilT, k);
      case Trap(e) => OkCalm(e, ERROR_CODE, k);
      case If(e, t, els) =>
        OkCalm(e, NilT, k);
        OkTameBlock(t, k);
        if els.Some? { OkTame(els.value, k); }
      case While(e, b) =>
        OkCalm(e, NilT, k);
        OkTameBlock(b, k.(loop := Some(|k.defers|)));
      case Pick(e, arms) =>
        OkCalm(e, NilT, k);
        OkTameArms(arms, k);
      case Defer(b) => OkTameBlock(b, InDefer(k));
      case _ =>
    }
  }

  lemma {:induction false} OkTameBlock(ss: seq<Stmt>, k: Chk)
    requires OkBlock(ss, k)
    ensures TameList(ss, k.inDefer, k.loop.Some?)
    decreases BSize(ss), 2
  {
    OkTameList(ss, k.(defers := k.defers + [[]]));
  }

  lemma {:induction false} OkTameList(ss: seq<Stmt>, k: Chk)
    requires OkStmts(ss, k)
    ensures TameList(ss, k.inDefer, k.loop.Some?)
    decreases BSize(ss), 1
  {
    if ss != [] {
      OkTame(ss[0], k);
      assert AfterK(ss[0], k).loop == k.loop;
      OkTameList(ss[1..], AfterK(ss[0], k));
    }
  }

  lemma {:induction false} OkTameArms(arms: seq<Arm>, k: Chk)
    requires OkArms(arms, k)
    ensures TameArms(arms, k.inDefer, k.loop.Some?)
    decreases ASize(arms), 1
  {
    if arms != [] {
      OkTameBlock(arms[0].body, k);
      OkTameArms(arms[1..], k);
    }
  }

  lemma {:induction false} DefersTame(ss: seq<Stmt>, d: bool, l: bool)
    requires TameList(ss, d, l)
    ensures TameFrame(DefersOf(ss))
  {
    if ss != [] { DefersTame(ss[1..], d, l); }
  }

  // --- expressions ----------------------------------------------------------------------------------

  /** The scope and flags under which a construct is lowered. */
  ghost predicate Fits(c: Ctx) {
    !c.inDefer ==> TameFrames(c.defers)
  }

  predicate Fine(e: Expr, c: Ctx) {
    c.inDefer || SoundExpr(e, ScopeOf(c))
  }

  ghost predicate Calm(e: Expr, c: Ctx) {
    Fits(c) && (c.inDefer ==> NoRelay(e))
  }

  lemma {:induction false} ExprMoves(e: Expr, c: Ctx, s: Out)
    requires Calm(e, c)
    ensures Moves(s, CExpr(e, c, s).0, Fine(e, c))
    decreases Lv(c), ESize(e), 1
  {
    match e {
      case Var(x) => LineMoves(s, Load(s.n + 1, Bits(SlotOf(c, x).ty), SlotOf(c, x).slot), CExpr(e, c, s).0);
      case Unary(op, a) =>
        ExprMoves(a, c, s);
        var (s1, x) := CExpr(a, c, s);
        UnaryMoves(op, Bits(XTyOf(a, c).ty), x, s1);
        MovesOn(s, s1, CExpr(e, c, s).0, Fine(a, c), true);
      case Arith(op, a, b) =>
        PairMoves(a, b, c, s);
        var (s1, x) := CExpr(a, c, s);
        var (s2, y) := CExpr(b, c, s1);
        ArithMoves(op, XTyOf(a, c).ty, x, y, s2);
        MovesOn(s, s2, CExpr(e, c, s).0, Fine(a, c) && Fine(b, c), true);
      case Compare(op, a, b) =>
        PairMoves(a, b, c, s);
        var (s1, x) := CExpr(a, c, s);
        var (s2, y) := CExpr(b, c, s1);
        CompareMoves(op, XTyOf(a, c).ty, x, y, s2);
        MovesOn(s, s2, CExpr(e, c, s).0, Fine(a, c) && Fine(b, c), true);
      case Logic(isOr, a, b) => LogicMoves(isOr, a, b, c, s);
      case Call(f, args) =>
        ArgsMove(args, c, s);
        var (s1, xs) := CArgs(args, c, s);
        CallMoves(f, if f in c.g then ResLLOf(c.g[f].ret) else Lone, xs, s1);
        MovesOn(s, s1, CExpr(e, c, s).0, c.inDefer || (EndsAny(c.defers) ==> !RelaysAny(args, ScopeOf(c))), true);
      case ResultOf(op, a) => ResultMoves(op, a, c, s);
      case Emphatic(a, k) => EmphaticMoves(a, k, c, s);
      case SafeUnwrap(a, d) => UnwrapMoves(a, d, c, s);
      case _ =>
    }
  }

  lemma {:induction false} UnaryMoves(op: UnOp, w: nat, x: Opd, s: Out)
    ensures Moves(s, UnaryTail(op, w, x, s), true)
  {
    Snoc();
  }

  lemma {:induction false} ArithMoves(op: BinOp, ty: Ty, x: Opd, y: Opd, s: Out)
    ensures Moves(s, ArithTail(op, ty, x, y, s), true)
  {
    Snoc();
  }

  lemma {:induction false} CompareMoves(op: CmpOp, ty: Ty, x: Opd, y: Opd, s: Out)
    ensures Moves(s, CompareTail(op, ty, x, y, s), true)
  {
    Snoc();
  }

  lemma {:induction false} CallMoves(f: string, ret: ResLL, xs: seq<(nat, Opd)>, s: Out)
    ensures Moves(s, CallTail(f, ret, xs, s), true)
  {
    Snoc();
  }

  lemma {:induction false} CondTailMoves(w: nat, x: Opd, s: Out)
    ensures Moves(s, CondTail(w, x, s), true)
  {
    Snoc();
  }

  lemma {:induction false} PairMoves(a: Expr, b: Expr, c: Ctx, s: Out)
    requires Calm(a, c) && Calm(b, c)
    ensures Moves(s, CExpr(b, c, CExpr(a, c, s).0).0, Fine(a, c) && Fine(b, c))
    decreases Lv(c), ESize(a) + ESize(b), 2
  {
    var s1 := CExpr(a, c, s).0;
    ExprMoves(a, c, s);
    ExprMoves(b, c, s1);
    MovesOn(s, s1, CExpr(b, c, s1).0, Fine(a, c), Fine(b, c));
  }

  lemma {:induction false} CondMoves(e: Expr, c: Ctx, s: Out)
    requires Calm(e, c)
    ensures Moves(s, CCond(e, c, s).0, Fine(e, c))
    decreases Lv(c), ESize(e), 2
  {
    var (s1, x) := CExpr(e, c, s);
    ExprMoves(e, c, s);
    CondTailMoves(Bits(XTyOf(e, c).ty), x, s1);
    MovesOn(s, s1, CCond(e, c, s).0, Fine(e, c), true);
  }

  lemma {:induction false} ArgsMove(args: seq<Expr>, c: Ctx, s: Out)
    requires Fits(c) && (c.inDefer ==> NoRelays(args))
    ensures Moves(s, CArgs(args, c, s).0, c.inDefer || (EndsAny(c.defers) ==> !RelaysAny(args, ScopeOf(c))))
    decreases Lv(c), ESizes(args), 1
  {
    if args != [] {
      var s1 := CExpr(args[0], c, s).0;
      ExprMoves(args[0], c, s);
      ArgsMove(args[1..], c, s1);
      MovesOn(s, s1, CArgs(args, c, s).0, Fine(args[0], c), c.inDefer
          || (EndsAny(c.defers) ==> !RelaysAny(args[1..], ScopeOf(c))));
    }
  }

  lemma {:induction false} LogicMoves(isOr: bool, a: Expr, b: Expr, c: Ctx, s: Out)
    requires Calm(a, c) && Calm(b, c)
    ensures Moves(s, CLogic(isOr, a, b, c, s).0, Fine(a, c) && Fine(b, c))
    decreases Lv(c), ESize(a) + ESize(b), 4
  {
    var (s1, x) := CCond(a, c, LogicHead(s));
    var mid := LogicMid(isOr, s, x, s1);
    var (s2, y) := CCond(b, c, mid);
    CondMoves(a, c, LogicHead(s));
    LogicMidMoves(isOr, s, x, s1);
    CondMoves(b, c, mid);
    LogicTailMoves(s, y, s2);
    MovesOn(LogicHead(s), s1, mid, Fine(a, c), true);
    MovesOn(LogicHead(s), mid, s2, Fine(a, c), Fine(b, c));
    MovesOn(LogicHead(s), s2, LogicTail(s, y, s2), Fine(a, c) && Fine(b, c), true);
  }

  lemma {:induction false} LogicMidMoves(isOr: bool, s0: Out, x: Opd, s: Out)
    ensures Moves(s, LogicMid(isOr, s0, x, s), true)
  {
    Snoc();
  }

  lemma {:induction false} LogicTailMoves(s0: Out, y: Opd, s: Out)
    ensures Moves(s, LogicTail(s0, y, s), true)
  {
    Snoc();
  }

  lemma {:induction false} ErrTestMoves(x: Opd, ty: Ty, s: Out)
    ensures Moves(s, ErrTest(x, ty, s), true)
  {
    Snoc();
  }

  lemma {:induction false} ValueMoves(x: Opd, ty: Ty, s: Out)
    ensures Moves(s, TakeValue(x, ty, s).0, true)
  {
    Snoc();
  }

  lemma {:induction false} ResultMoves(op: ResOp, a: Expr, c: Ctx, s: Out)
    requires Calm(ResultOf(op, a), c)
    ensures Moves(s, CResultOf(op, a, c, s).0, Fine(ResultOf(op, a), c))
    decreases Lv(c), ESize(a), 4
  {
    var (s1, x) := CExpr(a, c, s);
    var t, out := XTyOf(a, c), CResultOf(op, a, c, s).0;
    ExprMoves(a, c, s);
    if !op.Drop? && t.Rs? {
      var s2 := TakeValue(x, t.ty, s1).0;
      ValueMoves(x, t.ty, s1);
      MovesOn(s, s1, s2, Fine(a, c), true);
      if op.Relay? {
        RelayMoves(x, t.ty, c, s2);
        MovesOn(s, s2, out, Fine(a, c), !EndsAny(c.defers));
      }
    }
  }

  lemma {:induction false} EmphaticMoves(a: Expr, k: Expr, c: Ctx, s: Out)
    requires Calm(a, c) && Calm(k, c)
    ensures Moves(s, CEmphatic(a, k, c, s).0, Fine(Emphatic(a, k), c))
    decreases Lv(c), ESize(a) + ESize(k), 4
  {
    var (s1, x) := CExpr(a, c, s);
    var ty := XTyOf(a, c).ty;
    ExprMoves(a, c, s);
    EmphaticIs(a, k, c, s);
    EmphaticFine(a, k, c);
    if XTyOf(a, c).Rs? {
      var h := EmphHead(x, ty, s1);
      var (s2, y) := CExpr(k, c, h);
      ExprMoves(k, c, h);
      EmphaticParts(s, s1, x, ty, y, s2, Fine(a, c), Fine(k, c));
    }
  }

  lemma {:induction false} EmphaticFine(a: Expr, k: Expr, c: Ctx)
    ensures Fine(Emphatic(a, k), c) <==> Fine(a, c) && (XTyOf(a, c).Rs? ==> Fine(k, c))
  {}

  lemma {:induction false} EmphaticParts(s: Out, s1: Out, x: Opd, ty: Ty, y: Opd, s2: Out, ok1: bool, ok2: bool)
    requires Moves(s, s1, ok1) && (!s.terminated ==> !s1.terminated)
    requires Moves(EmphHead(x, ty, s1), s2, ok2) && (!s1.terminated ==> !s2.terminated)
    ensures Moves(s, TakeValue(x, ty, EmphTail(s1, y, s2)).0, ok1 && ok2)
  {
    var h, s3 := EmphHead(x, ty, s1), EmphTail(s1, y, s2);
    EmphHeadMoves(x, ty, s1);
    EmphTailMoves(s1, y, s2);
    ValueMoves(x, ty, s3);
    MovesOn(s, s1, h, ok1, true);
    MovesOn(s, h, s2, ok1, ok2);
    MovesOn(s, s2, s3, ok1 && ok2, true);
    MovesOn(s, s3, TakeValue(x, ty, s3).0, ok1 && ok2, true);
  }

  lemma {:induction false} EmphHeadMoves(x: Opd, ty: Ty, s: Out)
    ensures Moves(s, EmphHead(x, ty, s), true)
  {
    Snoc();
  }

  lemma {:induction false} EmphTailMoves(s0: Out, y: Opd, s: Out)
    ensures Moves(s, EmphTail(s0, y, s), true)
  {
    Snoc();
  }

  lemma {:induction false} UnwrapMoves(a: Expr, d: Expr, c: Ctx, s: Out)
    requires Calm(a, c) && Calm(d, c)
    ensures Moves(s, CSafeUnwrap(a, d, c, s).0, Fine(SafeUnwrap(a, d), c))
    decreases Lv(c), ESize(a) + ESize(d), 4
  {
    var (s1, x) := CExpr(a, c, s);
    var t := XTyOf(a, c);
    ExprMoves(a, c, s);
    UnwrapIs(a, d, c, s);
    UnwrapFine(a, d, c);
    if t.Rs? && t.ty.NilT? {
      ErrTestMoves(x, t.ty, s1);
      MovesOn(s, s1, ErrTest(x, t.ty, s1), Fine(a, c), true);
    } else if t.Rs? {
      var h := UnwrapHead(x, t.ty, s1);
      var (s2, y) := CExpr(d, c, h);
      ExprMoves(d, c, h);
      UnwrapParts(s, s1, x, t.ty, y, s2, Fine(a, c), Fine(d, c));
    }
  }

  lemma {:induction false} UnwrapFine(a: Expr, d: Expr, c: Ctx)
    ensures Fine(SafeUnwrap(a, d), c) <==> Fine(a, c) && (XTyOf(a, c).Rs? && !XTyOf(a, c).ty.NilT? ==> Fine(d, c))
  {}

  lemma {:induction false} UnwrapParts(s: Out, s1: Out, x: Opd, ty: Ty, y: Opd, s2: Out, ok1: bool, ok2: bool)
    requires Moves(s, s1, ok1) && (!s.terminated ==> !s1.terminated)
    requires Moves(UnwrapHead(x, ty, s1), s2, ok2) && (!s1.terminated ==> !s2.terminated)
    ensures Moves(s, UnwrapTail(s1, x, ty, y, s2), ok1 && ok2)
  {
    var h := UnwrapHead(x, ty, s1);
    UnwrapHeadMoves(x, ty, s1);
    UnwrapTailMoves(s1, x, ty, y, s2);
    MovesOn(s, s1, h, ok1, true);
    MovesOn(s, h, s2, ok1, ok2);
    MovesOn(s, s2, UnwrapTail(s1, x, ty, y, s2), ok1 && ok2, true);
  }

  lemma {:induction false} UnwrapHeadMoves(x: Opd, ty: Ty, s: Out)
    ensures Moves(s, UnwrapHead(x, ty, s), true)
  {
    Snoc();
  }

  lemma {:induction false} UnwrapTailMoves(s0: Out, x: Opd, ty: Ty, y: Opd, s: Out)
    ensures Moves(s, UnwrapTail(s0, x, ty, y, s), true)
  {
    var w, slot := Bits(ty), s0.n + 3;
    var ok, done := L(QpOk, s0.lbl + 2), L(QpDone, s0.lbl + 3);
    var s1 := StoreGo(w, y, slot, done, ok, s);
    var s2 := Ins1(s1, Extract(s1.n + 1, x, 0, w));
    var s3 := StoreGo(w, Reg(s2.n), slot, done, done, s2);
    var s4 := Ins1(s3, Load(s3.n + 1, w, slot));
    assert UnwrapTail(s0, x, ty, y, s) == s4 by { UnwrapTailIs(s0, x, ty, y, s); }
    StoreGoMoves(w, y, slot, done, ok, s);
    StoreGoMoves(w, Reg(s2.n), slot, done, done, s2);
    UnwrapChain(s, s1, Extract(s1.n + 1, x, 0, w), s2, s3, Load(s3.n + 1, w, slot), s4);
  }

  lemma {:induction false} UnwrapTailIs(s0: Out, x: Opd, ty: Ty, y: Opd, s: Out)
    ensures var w, slot, done := Bits(ty), s0.n + 3, L(QpDone, s0.lbl + 3);
            var s1 := StoreGo(w, y, slot, done, L(QpOk, s0.lbl + 2), s);
            var s2 := Ins1(s1, Extract(s1.n + 1, x, 0, w));
            var s3 := StoreGo(w, Reg(s2.n), slot, done, done, s2);
            UnwrapTail(s0, x, ty, y, s) == Ins1(s3, Load(s3.n + 1, w, slot))
  {}

  function StoreGo(w: nat, y: Opd, slot: nat, to: Lbl, l: Lbl, s: Out): (r: Out)
    ensures r.terminated == s.terminated && r.n == s.n
  {
    W(W(W(s, Store(w, y, slot)), Br(to)), Label(l))
  }

  lemma {:induction false} UnwrapChain(s: Out, s1: Out, x: Line, s2: Out, s3: Out, y: Line, s4: Out)
    requires Moves(s, s1, true) && s1.terminated == s.terminated && s2 == Ins1(s1, x) && !x.Label? && !Terminator(x)
    requires Moves(s2, s3, true) && s3.terminated == s2.terminated && s4 == Ins1(s3, y) && !y.Label? && !Terminator(y)
    ensures Moves(s, s4, true)
  {
    LineMoves(s1, x, s2);
    LineMoves(s3, y, s4);
  }

  lemma {:induction false} StoreGoMoves(w: nat, y: Opd, slot: nat, to: Lbl, l: Lbl, s: Out)
    ensures Moves(s, StoreGo(w, y, slot, to, l, s), true)
  {
    Snoc();
  }

  lemma {:induction false} RelayMoves(x: Opd, ty: Ty, c: Ctx, s: Out)
    requires !c.inDefer && TameFrames(c.defers)
    ensures Moves(s, CRelay(x, ty, c, s), !EndsAny(c.defers))
    decreases Lv(c), 0, 6
  {
    var h, m := RelayHead(x, ty, s), LErr(Reg(s.n + 1));
    var s1 := CUnwind(c.defers, m, c, h);
    RelayHeadMoves(x, ty, s);
    LeaveMoves(m, c, h);
    LeaveEnds(c.defers, m, c, h);
    Restarts(s1, L(RelayOk, s.lbl + 2));
  }

  /** After an ended block, a label starts the next. */
  lemma {:induction false} Restarts(s: Out, l: Lbl)
    ensures Scan(Start(s, l).body) == if Scan(s.body) == Closed then Open else Bad
  {
    Snoc();
  }

  lemma {:induction false} RelayHeadMoves(x: Opd, ty: Ty, s: Out)
    ensures Moves(s, RelayHead(x, ty, s), true)
  {
    Snoc();
  }

  // --- leaving -----------------------------------------------------------------------------------------

  /** A leaving statement ends its block. */
  lemma {:induction false} LeaveEnds(frames: seq<seq<seq<Stmt>>>, m: Leave, c: Ctx, s: Out)
    requires !c.inDefer
    ensures CUnwind(frames, m, c, s).terminated
    decreases |frames|
  {
    if frames != [] {
      LeaveEnds(frames[..|frames| - 1], m, c, CDefers(frames[|frames| - 1], c.(inDefer := true), s));
    }
  }

  lemma {:induction false} LeaveMoves(m: Leave, c: Ctx, s: Out)
    requires !c.inDefer && TameFrames(c.defers)
    ensures Moves(s, CUnwind(c.defers, m, c, s), SoundLeave(m, ScopeOf(c)))
    decreases Lv(c), LSize(m), 4
  {
    if Scan(s.body) == Bad {
      BadStays(s.body, CUnwind(c.defers, m, c, s).body);
    } else if Scan(s.body) == Open && !s.terminated {
      LeaveEnds(c.defers, m, c, s);
      UnwindMoves(c.defers, m, c, s);
    }
  }

  /** The defers run first; once one has ended the block, the later ones emit nothing. */
  lemma {:induction false} UnwindMoves(frames: seq<seq<seq<Stmt>>>, m: Leave, c: Ctx, s: Out)
    requires !c.inDefer && TameFrames(c.defers) && TameFrames(frames) && Scan(s.body) == Open && !s.terminated
    requires EndsAny(c.defers) ==> EndsAny(frames)
    ensures Scan(CUnwind(frames, m, c, s).body) == if EndsAny(frames) && !SilentLeave(m, c.fn) then Bad else Closed
    decreases Lv(c), LSize(m), 3, |frames|
  {
    if frames == [] {
      OpenLeave(m, c, s);
    } else {
      var k := |frames| - 1;
      var cd := c.(inDefer := true);
      var s1 := CDefers(frames[k], cd, s);
      DefersMove(frames[k], cd, s);
      if s1.terminated {
        DeadUnwind(frames[..k], m, c, s1);
      } else {
        UnwindMoves(frames[..k], m, c, s1);
      }
    }
  }

  lemma {:induction false} OpenLeave(m: Leave, c: Ctx, s: Out)
    requires !c.inDefer && !EndsAny(c.defers) && TameFrames(c.defers) && Scan(s.body) == Open && !s.terminated
    ensures Scan(CLeave(m, c, s).body) == Closed
    decreases Lv(c), LSize(m), 2
  {
    match m {
      case LOk(Some(e)) =>
        ExprMoves(e, c, s);
        OkTail(e, c, s, CExpr(e, c, s).0, CExpr(e, c, s).1);
      case LOk(None) =>
        Ends(s, RetWord(Bits(c.fn.ret), Const(0)));
        Ends(s, RetLone);
      case LFail(e) =>
        ExprMoves(e, c, s);
        ErrTail(CExpr(e, c, s).1, c, CExpr(e, c, s).0);
      case LExit(e) =>
        ExprMoves(e, c, s);
        Ends(CExpr(e, c, s).0, RetWord(Bits(c.fn.ret), CExpr(e, c, s).1));
      case LErr(x) => ErrTail(x, c, s);
    }
  }

  lemma {:induction false} Ends(s: Out, x: Line)
    requires Terminator(x)
    ensures Scan(End(s, x).body) == if Scan(s.body) == Open then Closed else Bad
  {
    Snoc();
  }

  lemma {:induction false} ErrTail(x: Opd, c: Ctx, s: Out)
    ensures Scan(RetErr(x, c, s).body) == if Scan(s.body) == Open then Closed else Bad
  {
    Ends(s, RetWord(Bits(c.fn.ret), x));
    InsertTail(s, x);
    PairTail(Const(0), x, c.fn.ret, s);
  }

  lemma {:induction false} InsertTail(s: Out, x: Opd)
    ensures Scan(End(Ins1(s, Insert(s.n + 1, None, 32, x, 0)), RetAgg(Reg(s.n + 1))).body) ==
            if Scan(s.body) == Open then Closed else Bad
  {
    Snoc();
  }

  lemma {:induction false} PairTail(v: Opd, code: Opd, ty: Ty, s: Out)
    ensures Scan(RetPair(v, code, ty, s).body) == if Scan(s.body) == Open then Closed else Bad
  {
    Snoc();
  }

  /** How `pass e` and `return e` end, once the operand has been lowered to `s1` and `x`. */
  lemma {:induction false} OkTail(e: Expr, c: Ctx, s: Out, s1: Out, x: Opd)
    requires CExpr(e, c, s) == (s1, x)
    ensures c.fn.bare || !c.fn.ret.NilT? ==>
              Scan(CLeave(LOk(Some(e)), c, s).body) == if Scan(s1.body) == Open then Closed else Bad
    ensures !c.fn.bare && c.fn.ret.NilT? && e.NilLit? ==>
              Scan(CLeave(LOk(Some(e)), c, s).body) == if Scan(s.body) == Open then Closed else Bad
    ensures !c.fn.bare && c.fn.ret.NilT? && !e.NilLit? ==>
              Scan(CLeave(LOk(Some(e)), c, s).body) ==
              if s1.terminated then Scan(s1.body) else if Scan(s1.body) == Open then Closed else Bad
  {
    Ends(s1, RetWord(Bits(c.fn.ret), x));
    Ends(s1, RetLone);
    Ends(s, RetLone);
    PairTail(x, Const(0), c.fn.ret, s1);
  }

  /** After a terminator the remaining defers are skipped, but the leave itself is not. */
  lemma {:induction false} DeadUnwind(frames: seq<seq<seq<Stmt>>>, m: Leave, c: Ctx, s: Out)
    requires !c.inDefer && Scan(s.body) == Closed && s.terminated
    ensures Scan(CUnwind(frames, m, c, s).body) == if SilentLeave(m, c.fn) then Closed else Bad
    decreases |frames|
  {
    if frames == [] {
      DeadLeave(m, c, s);
    } else {
      var k := |frames| - 1;
      DeadDefers(frames[k], c.(inDefer := true), s);
      DeadUnwind(frames[..k], m, c, s);
    }
  }

  lemma {:induction false} DeadDefers(frame: seq<seq<Stmt>>, c: Ctx, s: Out)
    requires s.terminated
    ensures CDefers(frame, c, s) == s
    decreases |frame|
  {
    if frame != [] {
      assert CBlock(frame[|frame| - 1], c, s) == s;
      DeadDefers(frame[..|frame| - 1], c, s);
    }
  }

  lemma {:induction false} DeadLeave(m: Leave, c: Ctx, s: Out)
    requires Scan(s.body) == Closed && s.terminated
    ensures Scan(CLeave(m, c, s).body) == if SilentLeave(m, c.fn) then Closed else Bad
  {
    match m {
      case LOk(Some(e)) =>
        DeadExpr(e, c, s);
        OkTail(e, c, s, CExpr(e, c, s).0, CExpr(e, c, s).1);
      case LOk(None) =>
        Ends(s, RetWord(Bits(c.fn.ret), Const(0)));
        Ends(s, RetLone);
      case LFail(e) =>
        DeadExpr(e, c, s);
        ErrTail(CExpr(e, c, s).1, c, CExpr(e, c, s).0);
      case LExit(e) =>
        DeadExpr(e, c, s);
        Ends(CExpr(e, c, s).0, RetWord(Bits(c.fn.ret), CExpr(e, c, s).1));
      case LErr(x) => ErrTail(x, c, s);
    }
  }

  lemma {:induction false} SilentIs(e: Expr, c: Ctx)
    requires Silent(e)
    ensures XTyOf(e, c).Sc?
    decreases e
  {
    match e {
      case ResultOf(_, a) => SilentIs(a, c);
      case Emphatic(a, _) => SilentIs(a, c);
      case SafeUnwrap(a, _) => SilentIs(a, c);
      case _ =>
    }
  }

  /** After a terminator, whatever an expression emits first is misplaced. */
  lemma {:induction false} DeadExpr(e: Expr, c: Ctx, s: Out)
    requires Scan(s.body) == Closed
    ensures if Silent(e) then CExpr(e, c, s).0 == s else Scan(CExpr(e, c, s).0.body) == Bad
    decreases ESize(e), 1
  {
    match e {
      case Var(x) => DeadVar(SlotOf(c, x), s);
      case Unary(op, a) =>
        DeadExpr(a, c, s);
        DeadUnary(op, Bits(XTyOf(a, c).ty), CExpr(a, c, s).1, CExpr(a, c, s).0);
      case Arith(op, a, b) =>
        DeadPair(a, b, c, s);
        var (s1, x) := CExpr(a, c, s);
        var (s2, y) := CExpr(b, c, s1);
        DeadArith(op, XTyOf(a, c).ty, x, y, s2);
      case Compare(op, a, b) =>
        DeadPair(a, b, c, s);
        var (s1, x) := CExpr(a, c, s);
        var (s2, y) := CExpr(b, c, s1);
        DeadCompare(op, XTyOf(a, c).ty, x, y, s2);
      case Logic(isOr, a, b) => DeadLogic(isOr, a, b, c, s);
      case Call(f, args) =>
        DeadArgs(args, c, s);
        var (s1, xs) := CArgs(args, c, s);
        DeadCall(f, if f in c.g then ResLLOf(c.g[f].ret) else Lone, xs, s1);
      case ResultOf(op, a) =>
        DeadExpr(a, c, s);
        DeadResult(op, a, c, s);
      case Emphatic(a, k) =>
        DeadExpr(a, c, s);
        DeadEmphatic(a, k, c, s);
      case SafeUnwrap(a, d) =>
        DeadExpr(a, c, s);
        DeadUnwrap(a, d, c, s);
      case _ =>
    }
  }

  lemma {:induction false} DeadUnary(op: UnOp, w: nat, x: Opd, s: Out)
    requires Scan(s.body) != Open
    ensures Scan(UnaryTail(op, w, x, s).body) == Bad
  {
    Snoc();
  }

  lemma {:induction false} DeadArith(op: BinOp, ty: Ty, x: Opd, y: Opd, s: Out)
    requires Scan(s.body) != Open
    ensures Scan(ArithTail(op, ty, x, y, s).body) == Bad
  {
    Snoc();
  }

  lemma {:induction false} DeadCompare(op: CmpOp, ty: Ty, x: Opd, y: Opd, s: Out)
    requires Scan(s.body) != Open
    ensures Scan(CompareTail(op, ty, x, y, s).body) == Bad
  {
    Snoc();
  }

  lemma {:induction false} DeadCall(f: string, ret: ResLL, xs: seq<(nat, Opd)>, s: Out)
    requires Scan(s.body) != Open
    ensures Scan(CallTail(f, ret, xs, s).body) == Bad
  {
    Snoc();
  }

  lemma {:induction false} DeadVar(l: Local, s: Out)
    requires Scan(s.body) != Open
    ensures Scan(VarTail(l, s).body) == Bad
  {
    Snoc();
  }

  lemma {:induction false} DeadPair(a: Expr, b: Expr, c: Ctx, s: Out)
    requires Scan(s.body) == Closed
    ensures Scan(CExpr(b, c, CExpr(a, c, s).0).0.body) != Open
    decreases ESize(a) + ESize(b), 2
  {
    var s1 := CExpr(a, c, s).0;
    DeadExpr(a, c, s);
    if Scan(s1.body) == Bad {
      BadStays(s1.body, CExpr(b, c, s1).0.body);
    } else {
      DeadExpr(b, c, s1);
    }
  }

  lemma {:induction false} DeadLogic(isOr: bool, a: Expr, b: Expr, c: Ctx, s: Out)
    requires Scan(s.body) == Closed
    ensures Scan(CLogic(isOr, a, b, c, s).0.body) == Bad
    decreases ESize(a) + ESize(b), 2
  {
    var h := LogicHead(s);
    DeadExpr(a, c, h);
    DeadCond(a, c, h);
    BadStays(CCond(a, c, h).0.body, CLogic(isOr, a, b, c, s).0.body) by { LogicExt(isOr, a, b, c, s); }
  }

  lemma {:induction false} LogicExt(isOr: bool, a: Expr, b: Expr, c: Ctx, s: Out)
    ensures CCond(a, c, LogicHead(s)).0.body <= CLogic(isOr, a, b, c, s).0.body
  {
    var (s1, x) := CCond(a, c, LogicHead(s));
    var mid := LogicMid(isOr, s, x, s1);
    var (s2, y) := CCond(b, c, mid);
    assert s1.body <= mid.body <= s2.body <= LogicTail(s, y, s2).body;
  }

  lemma {:induction false} DeadCond(e: Expr, c: Ctx, s: Out)
    requires Scan(CExpr(e, c, s).0.body) != Open
    ensures Scan(CCond(e, c, s).0.body) == Bad
  {
    Snoc();
  }

  lemma {:induction false} DeadArgs(args: seq<Expr>, c: Ctx, s: Out)
    requires Scan(s.body) == Closed
    ensures Scan(CArgs(args, c, s).0.body) != Open
    decreases ESizes(args), 1
  {
    if args != [] {
      var s1 := CExpr(args[0], c, s).0;
      DeadExpr(args[0], c, s);
      if Scan(s1.body) == Bad {
        BadStays(s1.body, CArgs(args[1..], c, s1).0.body);
      } else {
        DeadArgs(args[1..], c, s1);
      }
    }
  }

  /** An operand that ends up silent is a literal, so there is no Result to take apart; any other has misplaced
      a line. */
  lemma {:induction false} DeadResult(op: ResOp, a: Expr, c: Ctx, s: Out)
    requires if Silent(a) then CExpr(a, c, s).0 == s else Scan(CExpr(a, c, s).0.body) == Bad
    ensures if Silent(a) then CResultOf(op, a, c, s).0 == s else Scan(CResultOf(op, a, c, s).0.body) == Bad
  {
    if Silent(a) {
      SilentIs(a, c);
    } else {
      BadStays(CExpr(a, c, s).0.body, CResultOf(op, a, c, s).0.body);
    }
  }

  lemma {:induction false} DeadEmphatic(a: Expr, k: Expr, c: Ctx, s: Out)
    requires if Silent(a) then CExpr(a, c, s).0 == s else Scan(CExpr(a, c, s).0.body) == Bad
    ensures if Silent(a) then CEmphatic(a, k, c, s).0 == s else Scan(CEmphatic(a, k, c, s).0.body) == Bad
  {
    if Silent(a) {
      SilentIs(a, c);
    } else {
      BadStays(CExpr(a, c, s).0.body, CEmphatic(a, k, c, s).0.body);
    }
  }

  lemma {:induction false} DeadUnwrap(a: Expr, d: Expr, c: Ctx, s: Out)
    requires if Silent(a) then CExpr(a, c, s).0 == s else Scan(CExpr(a, c, s).0.body) == Bad
    ensures if Silent(a) then CSafeUnwrap(a, d, c, s).0 == s else Scan(CSafeUnwrap(a, d, c, s).0.body) == Bad
  {
    if Silent(a) {
      SilentIs(a, c);
      UnwrapIs(a, d, c, s);
    } else {
      UnwrapExt(a, d, c, s);
      BadStays(CExpr(a, c, s).0.body, CSafeUnwrap(a, d, c, s).0.body);
    }
  }

  lemma {:induction false} UnwrapExt(a: Expr, d: Expr, c: Ctx, s: Out)
    ensures CExpr(a, c, s).0.body <= CSafeUnwrap(a, d, c, s).0.body
  {
    UnwrapIs(a, d, c, s);
    var (s1, x) := CExpr(a, c, s);
    var t := XTyOf(a, c);
    if t.Rs? && !t.ty.NilT? {
      var h := UnwrapHead(x, t.ty, s1);
      var (s2, y) := CExpr(d, c, h);
      assert s1.body <= h.body <= s2.body <= UnwrapTail(s1, x, t.ty, y, s2).body;
    }
  }

  // --- statements ---------------------------------------------------------------------------------------

  lemma {:induction false} DefersMove(frame: seq<seq<Stmt>>, c: Ctx, s: Out)
    requires c.inDefer && TameFrame(frame) && !s.terminated
    ensures Moves(s, CDefers(frame, c, s), true) && CDefers(frame, c, s).terminated == EndsFrame(frame)
    decreases Lv(c), FSize(frame), 1
  {
    if frame != [] {
      var k := |frame| - 1;
      var s1 := CBlock(frame[k], c, s);
      BlockMoves(frame[k], c, s, false);
      if s1.terminated {
        DeadDefers(frame[..k], c, s1);
      } else {
        DefersMove(frame[..k], c, s1);
        MovesOn(s, s1, CDefers(frame, c, s), true, true);
      }
    }
  }

  predicate FineList(ss: seq<Stmt>, c: Ctx) {
    c.inDefer || SoundList(ss, ScopeOf(c))
  }

  /** `l`: a loop is open, so `break` and `continue` have somewhere to go. */
  ghost predicate Placed(ss: seq<Stmt>, c: Ctx, l: bool) {
    Fits(c) && TameList(ss, c.inDefer, l) && (l ==> c.loops != [])
  }

  lemma {:induction false} BlockMoves(ss: seq<Stmt>, c: Ctx, s: Out, l: bool)
    requires Placed(ss, c, l) && !s.terminated
    ensures Moves(s, CBlock(ss, c, s), FineList(ss, c)) && CBlock(ss, c, s).terminated == EndsBlock(ss)
    decreases Lv(c), BSize(ss) + 1, 1
  {
    var c0 := c.(defers := c.defers + [[]]);
    assert c0.defers[..|c0.defers| - 1] == c.defers;
    assert ScopeOf(c0) == ScopeOf(c);
    var (s1, c1) := CStmts(ss, c0, s);
    ListMoves(ss, c0, s, l);
    if !s1.terminated {
      DefersTame(ss, c.inDefer, l);
      assert FSize(DefersOf(ss)) <= BSize(ss) by { DefersSize(ss); }
      var cd := c1.(defers := c.defers, inDefer := true);
      DefersMove(DefersOf(ss), cd, s1);
      MovesOn(s, s1, CDefers(DefersOf(ss), cd, s1), FineList(ss, c), true);
    }
  }

  lemma {:induction false} ListMoves(ss: seq<Stmt>, c: Ctx, s: Out, l: bool)
    requires Placed(ss, c, l) && c.defers != [] && !s.terminated
    ensures Moves(s, CStmts(ss, c, s).0, FineList(ss, c)) && CStmts(ss, c, s).0.terminated == EndsList(ss)
    decreases Lv(c), BSize(ss), 6
  {
    if ss != [] {
      var s1, c1 := CStmt(ss[0], c, s), After(ss[0], c, s);
      StmtMoves(ss[0], c, s, l);
      if s1.terminated {
        assert CStmts(ss[1..], c1, s1) == (s1, c1);
      } else {
        ScopeAfter(ss[0], c, s, l);
        ListMoves(ss[1..], c1, s1, l);
        MovesOn(s, s1, CStmts(ss, c, s).0, FineStmt(ss[0], c), FineList(ss[1..], c1));
      }
    }
  }

  lemma {:induction false} ScopeAfter(st: Stmt, c: Ctx, s: Out, l: bool)
    requires Fits(c) && Tame(st, c.inDefer, l) && c.defers != []
    ensures Fits(After(st, c, s)) && ScopeOf(After(st, c, s)) == AfterX(st, ScopeOf(c))
    ensures After(st, c, s).loops == c.loops && After(st, c, s).inDefer == c.inDefer && After(st, c, s).defers != []
  {
    var c1 := After(st, c, s);
    match st {
      case VarDecl(x, ty, _) =>
        assert TypesOf(c1.locals) == TypesOf(c.locals)[x := ty];
      case Defer(b) =>
        var k := |c.defers| - 1;
        assert c1.defers[..k] == c.defers[..k];
        assert c1.defers[k][..|c1.defers[k]| - 1] == c.defers[k];
      case _ =>
    }
  }

  predicate FineStmt(st: Stmt, c: Ctx) {
    c.inDefer || SoundStmt(st, ScopeOf(c))
  }

  lemma {:induction false} StmtMoves(st: Stmt, c: Ctx, s: Out, l: bool)
    requires Fits(c) && Tame(st, c.inDefer, l) && (l ==> c.loops != []) && !s.terminated
    ensures Moves(s, CStmt(st, c, s), FineStmt(st, c)) && CStmt(st, c, s).terminated == EndsStmt(st)
    decreases Lv(c), SSize(st), 5
  {
    match st {
      case Block(b) => BlockMoves(b, c, s, l);
      case VarDecl(x, ty, e) => DeclMoves(ty, e, c, s);
      case Assign(x, op, e) => AssignMoves(x, op, e, c, s);
      case ExprStmt(e) => ExprMoves(e, c, s);
      case If(e, t, els) => IfMoves(e, t, els, c, s, l);
      case While(e, b) => WhileMoves(e, b, c, s);
      case Pick(e, arms) => PickMoves(e, arms, c, s, l);
      case Pass(r) => LeaveStmt(LOk(r), c, s);
      case Fail(e) => LeaveStmt(LFail(e), c, s);
      case Exit(e) => LeaveStmt(LExit(e), c, s);
      case Trap(e) => TrapStmt(e, c, s);
      case Defer(_) => NamesMove(s, s);
      case Break => GoMoves(s, c.loops[|c.loops| - 1].done);
      case Continue => GoMoves(s, c.loops[|c.loops| - 1].head);
    }
  }

  lemma {:induction false} DeclMoves(ty: Ty, e: Expr, c: Ctx, s: Out)
    requires Calm(e, c) && !s.terminated
    ensures var (s1, v) := CExpr(e, c, AllocaAt(Tmp(s), s.n + 1, Bits(ty)));
            Moves(s, W(s1, Store(Bits(ty), v, s.n + 1)), Fine(e, c)) && !s1.terminated
    decreases Lv(c), ESize(e), 2
  {
    var s0 := AllocaAt(Tmp(s), s.n + 1, Bits(ty));
    var (s1, v) := CExpr(e, c, s0);
    var s2 := W(s1, Store(Bits(ty), v, s.n + 1));
    NamesMove(s, s0);
    ExprMoves(e, c, s0);
    LineMoves(s1, Store(Bits(ty), v, s.n + 1), s2);
    MovesOn(s, s0, s1, true, Fine(e, c));
    MovesOn(s, s1, s2, Fine(e, c), true);
  }

  lemma {:induction false} LeaveStmt(m: Leave, c: Ctx, s: Out)
    requires !c.inDefer && TameFrames(c.defers)
    ensures Moves(s, CUnwind(c.defers, m, c, s), SoundLeave(m, ScopeOf(c))) && CUnwind(c.defers, m, c, s).terminated
    decreases Lv(c), LSize(m), 5
  {
    LeaveMoves(m, c, s);
    LeaveEnds(c.defers, m, c, s);
  }

  lemma {:induction false} TrapStmt(e: Expr, c: Ctx, s: Out)
    requires Calm(e, c) && !s.terminated
    ensures var (s1, v) := CExpr(e, c, s); Moves(s, TrapTail(v, s1), Fine(e, c))
    decreases Lv(c), ESize(e), 2
  {
    var (s1, v) := CExpr(e, c, s);
    ExprMoves(e, c, s);
    TrapMoves(v, s1);
    MovesOn(s, s1, TrapTail(v, s1), Fine(e, c), true);
  }

  lemma {:induction false} GoMoves(s: Out, l: Lbl)
    ensures Moves(s, BrTo(s, l), true)
  {
    Snoc();
  }

  lemma {:induction false} TrapMoves(v: Opd, s: Out)
    ensures Moves(s, TrapTail(v, s), true)
  {
    Snoc();
  }

  lemma {:induction false} AssignMoves(x: string, op: Option<BinOp>, e: Expr, c: Ctx, s: Out)
    requires Calm(e, c)
    ensures var l := SlotOf(c, x); var (s1, v) := CExpr(e, c, if op.None? then s else VarTail(l, s));
            Moves(s, AssignTail(l, op, s.n + 1, v, s1), Fine(e, c))
    decreases Lv(c), ESize(e), 2
  {
    var l := SlotOf(c, x);
    var s0 := if op.None? then s else VarTail(l, s);
    var (s1, v) := CExpr(e, c, s0);
    if op.None? { NamesMove(s, s0); } else { LineMoves(s, Load(s.n + 1, Bits(l.ty), l.slot), s0); }
    ExprMoves(e, c, s0);
    AssignParts(l, op, s, s0, s1, v, Fine(e, c));
  }

  lemma {:induction false} AssignParts(l: Local, op: Option<BinOp>, s: Out, s0: Out, s1: Out, v: Opd, ok: bool)
    requires Moves(s, s0, true) && s0.terminated == s.terminated && Moves(s0, s1, ok)
             && (!s0.terminated ==> !s1.terminated)
    ensures Moves(s, AssignTail(l, op, s.n + 1, v, s1), ok)
  {
    AssignTailMoves(l, op, s.n + 1, v, s1);
    MovesOn(s, s0, s1, true, ok);
    MovesOn(s, s1, AssignTail(l, op, s.n + 1, v, s1), ok, true);
  }

  lemma {:induction false} AssignTailMoves(l: Local, op: Option<BinOp>, cur: nat, v: Opd, s: Out)
    ensures Moves(s, AssignTail(l, op, cur, v, s), true)
  {
    Snoc();
  }

  lemma {:induction false} IfMoves(e: Expr, t: seq<Stmt>, els: Option<Stmt>, c: Ctx, s: Out, l: bool)
    requires Fits(c) && Tame(If(e, t, els), c.inDefer, l) && (l ==> c.loops != []) && !s.terminated
    ensures Moves(s, CIf(e, t, els, c, s), FineStmt(If(e, t, els), c))
    decreases Lv(c), ESize(e) + BSize(t) + (if els.Some? then SSize(els.value) else 0), 6
  {
    var s0 := IfLabels(s, els.Some?);
    var (s1, v) := CCond(e, c, s0);
    var h := IfTest(s, els.Some?, v, s1);
    var b := CBlock(t, c, h);
    var done, el := IfDone(s), IfElse(s, true);
    NamesMove(s, s0);
    CondMoves(e, c, s0);
    IfTestMoves(s, els.Some?, v, s1);
    BlockMoves(t, c, h, l);
    MovesOn(s, s0, s1, true, Fine(e, c));
    MovesOn(s, s1, h, Fine(e, c), true);
    MovesOn(s, h, b, Fine(e, c), FineList(t, c));
    if els.None? {
      MovesJoin(s, b, done, done, Fine(e, c) && FineList(t, c));
    } else {
      var s3 := Start(BrTo(b, done), el);
      var s4 := CStmt(els.value, c, s3);
      MovesJoin(s, b, done, el, Fine(e, c) && FineList(t, c));
      StmtMoves(els.value, c, s3, l);
      MovesOn(s, s3, s4, Fine(e, c) && FineList(t, c), FineStmt(els.value, c));
      MovesJoin(s, s4, done, done, Fine(e, c) && FineList(t, c) && FineStmt(els.value, c));
    }
  }

  lemma {:induction false} IfTestMoves(s0: Out, hasElse: bool, v: Opd, s: Out)
    ensures Moves(s, IfTest(s0, hasElse, v, s), true)
  {
    Snoc();
  }

  lemma {:induction false} WhileMoves(e: Expr, b: seq<Stmt>, c: Ctx, s: Out)
    requires Fits(c) && (c.inDefer ==> NoRelay(e)) && TameList(b, c.inDefer, true) && !s.terminated
    ensures Moves(s, CWhile(e, b, c, s), FineStmt(While(e, b), c))
    decreases Lv(c), ESize(e) + BSize(b), 5
  {
    var h := WhStart(s);
    var ci := c.(loops := c.loops + [Loop(WhHead(s), WhDone(s))]);
    var (s1, v) := CCond(e, c, h);
    var t := WhTest(s, v, s1);
    var s2 := CBlock(b, ci, t);
    assert ScopeOf(ci) == ScopeOf(c);
    CondMoves(e, c, h);
    BlockMoves(b, ci, t, true);
    WhileParts(s, v, s1, s2, Fine(e, c), FineList(b, c));
    WhileIs(e, b, c, s);
    WhileFine(e, b, c);
  }

  lemma {:induction false} WhileFine(e: Expr, b: seq<Stmt>, c: Ctx)
    ensures FineStmt(While(e, b), c) <==> Fine(e, c) && FineList(b, c)
  {}

  lemma {:induction false} WhileParts(s: Out, v: Opd, s1: Out, s2: Out, ok1: bool, ok2: bool)
    requires !s.terminated && !s1.terminated && Moves(WhStart(s), s1, ok1) && Moves(WhTest(s, v, s1), s2, ok2)
    ensures Moves(s, Start(BrTo(s2, WhHead(s)), WhDone(s)), ok1 && ok2)
  {
    var s0, h, t := Lab(Lab(Lab(s))), WhStart(s), WhTest(s, v, s1);
    NamesMove(s, s0);
    MovesJoin(s, s0, WhHead(s), WhHead(s), true);
    WhTestMoves(s, v, s1);
    MovesOn(s, h, s1, true, ok1);
    MovesOn(s, s1, t, ok1, true);
    MovesOn(s, t, s2, ok1, ok2);
    MovesJoin(s, s2, WhHead(s), WhDone(s), ok1 && ok2);
  }

  lemma {:induction false} WhTestMoves(s0: Out, v: Opd, s: Out)
    ensures Moves(s, WhTest(s0, v, s), true)
  {
    Snoc();
  }

  /** From the end of one block to the end of the next: an arm, or a list of them. */
  ghost predicate Arms(s: Out, s1: Out, ok: bool) {
    && (Scan(s.body) == Bad ==> Scan(s1.body) == Bad)
    && (Scan(s.body) == Closed ==> Scan(s1.body) == if ok then Closed else Bad)
  }

  lemma {:induction false} ArmMoves(b: seq<Stmt>, lb: Lbl, done: Lbl, c: Ctx, s: Out, l: bool)
    requires Placed(b, c, l)
    ensures Arms(s, CArm(b, lb, done, c, s), FineList(b, c))
    decreases Lv(c), BSize(b) + 1, 2
  {
    var s0 := Start(s, lb);
    var s1 := CBlock(b, c, s0);
    Restarts(s, lb);
    BlockMoves(b, c, s0, l);
    ArmEnds(s1, done);
  }

  lemma {:induction false} ArmEnds(s: Out, done: Lbl)
    ensures Scan(BrTo(s, done).body) ==
            if s.terminated then Scan(s.body) else if Scan(s.body) == Open then Closed else Bad
  {
    Snoc();
  }

  lemma {:induction false} ArmTame(arms: seq<Arm>, i: nat, d: bool, l: bool)
    requires i < |arms| && TameArms(arms, d, l)
    ensures TameList(ArmAt(arms, i), d, l)
  {
    if i > 0 { ArmTame(arms[1..], i - 1, d, l); }
  }

  lemma {:induction false} ArmIs(arms: seq<Arm>, i: nat)
    requires i < |arms|
    ensures ArmAt(arms, i) == arms[i].body
  {
    if i > 0 { ArmIs(arms[1..], i - 1); }
  }

  predicate FineArms(arms: seq<Arm>, c: Ctx) {
    c.inDefer || SoundArms(arms, ScopeOf(c))
  }

  lemma {:induction false} ArmsMove(arms: seq<Arm>, i: nat, first: nat, done: Lbl, c: Ctx, s: Out, l: bool)
    requires i <= |arms| && Fits(c) && TameArms(arms, c.inDefer, l) && (l ==> c.loops != [])
    ensures Arms(s, CArms(arms, i, first, done, c, s), FineArms(arms[i..], c))
    decreases Lv(c), ASize(arms), 3, |arms| - i
  {
    if i < |arms| {
      assert arms[i..][1..] == arms[i + 1..];
      if arms[i].pat.None? {
        ArmsMove(arms, i + 1, first, done, c, s, l);
      } else {
        var lb := ArmLabel(first, i);
        var s1 := CArm(ArmAt(arms, i), lb, done, c, s);
        ArmTame(arms, i, c.inDefer, l);
        ArmIs(arms, i);
        ArmMoves(ArmAt(arms, i), lb, done, c, s, l);
        ArmsMove(arms, i + 1, first, done, c, s1, l);
      }
    }
  }

  lemma {:induction false} PickMoves(e: Expr, arms: seq<Arm>, c: Ctx, s: Out, l: bool)
    requires Fits(c) && Tame(Pick(e, arms), c.inDefer, l) && (l ==> c.loops != []) && !s.terminated
    ensures Moves(s, CPick(e, arms, c, s), FineStmt(Pick(e, arms), c))
    decreases Lv(c), ESize(e) + ASize(arms), 5
  {
    var (s1, v) := CExpr(e, c, s);
    ExprMoves(e, c, s);
    PickRestMoves(Bits(XTyOf(e, c).ty), v, arms, c, s, s1, Fine(e, c), l);
    PickIs(e, arms, c, s);
    PickFine(e, arms, c);
  }

  lemma {:induction false} PickRestMoves(w: nat, v: Opd, arms: seq<Arm>, c: Ctx, s: Out, s1: Out, ok: bool, l: bool)
    requires Fits(c) && TameArms(arms, c.inDefer, l) && (l ==> c.loops != [])
    requires Moves(s, s1, ok) && !s.terminated && !s1.terminated
    ensures Moves(s, PickRest(w, v, arms, c, s1), ok && FinePick(arms, c))
    decreases Lv(c), ASize(arms), 5
  {
    var sw, done := PickSwitch(w, v, arms, s1), PickDone(s1);
    var s3 := ArmsOut(arms, s1.lbl + 2, done, c, sw);
    assert PickRest(w, v, arms, c, s1) == Start(s3, done);
    SwitchEnds(w, v, arms, s1);
    PickArmsMove(arms, s1.lbl + 2, done, c, sw, l);
    PickParts(s, s1, sw, s3, done, ok, FinePick(arms, c));
  }

  /** The literal arms, and the last wildcard's. */
  predicate FinePick(arms: seq<Arm>, c: Ctx) {
    var wild := WildArm(arms);
    FineArms(arms, c) && (wild.Some? ==> FineList(ArmAt(arms, wild.value), c))
  }

  lemma {:induction false} PickArmsMove(arms: seq<Arm>, first: nat, done: Lbl, c: Ctx, s: Out, l: bool)
    requires Fits(c) && TameArms(arms, c.inDefer, l) && (l ==> c.loops != [])
    ensures Arms(s, ArmsOut(arms, first, done, c, s), FinePick(arms, c))
    decreases Lv(c), ASize(arms), 4
  {
    var wild, s1 := WildArm(arms), CArms(arms, 0, first, done, c, s);
    assert arms[0..] == arms;
    ArmsMove(arms, 0, first, done, c, s, l);
    if wild.Some? {
      var b, lb := ArmAt(arms, wild.value), ArmLabel(first, wild.value);
      ArmTame(arms, wild.value, c.inDefer, l);
      ArmMoves(b, lb, done, c, s1, l);
      ArmsOn(s, s1, CArm(b, lb, done, c, s1), FineArms(arms, c), FineList(b, c));
    }
  }

  lemma {:induction false} ArmsOn(s: Out, s1: Out, s2: Out, ok1: bool, ok2: bool)
    requires Arms(s, s1, ok1) && Arms(s1, s2, ok2)
    ensures Arms(s, s2, ok1 && ok2)
  {}

  lemma {:induction false} PickParts(s: Out, s1: Out, sw: Out, s3: Out, done: Lbl, ok1: bool, ok2: bool)
    requires Moves(s, s1, ok1) && (!s.terminated ==> !s1.terminated) && Arms(sw, s3, ok2)
    requires Scan(sw.body) == if Scan(s1.body) == Open then Closed else Bad
    ensures Moves(s, Start(s3, done), ok1 && ok2)
  {
    Restarts(s3, done);
  }

  lemma {:induction false} PickFine(e: Expr, arms: seq<Arm>, c: Ctx)
    ensures FineStmt(Pick(e, arms), c) <==> Fine(e, c) && FinePick(arms, c)
  {}

  lemma {:induction false} SwitchEnds(w: nat, v: Opd, arms: seq<Arm>, s: Out)
    ensures Scan(PickSwitch(w, v, arms, s).body) == if Scan(s.body) == Open then Closed else Bad
  {
    Snoc();
  }

  // --- a function -----------------------------------------------------------------------------------------

  lemma {:induction false} ParamsMove(params: seq<Source.Param>, i: nat, c: Ctx, s: Out)
    requires i <= |params| && Scan(s.body) == Open && !s.terminated
    ensures var (s1, c1) := CParams(params, i, c, s);
            Scan(s1.body) == Open && !s1.terminated && c1 == c.(locals := c1.locals) &&
            TypesOf(c1.locals) == ParamsOver(TypesOf(c.locals), params[i..])
    decreases |params| - i
  {
    Snoc();
    if i < |params| {
      var slot, ty := s.n + 1, params[i].ty;
      var c1 := c.(locals := c.locals[params[i].name := Local(slot, ty)]);
      assert TypesOf(c1.locals) == TypesOf(c.locals)[params[i].name := ty];
      assert params[i..][1..] == params[i + 1..];
      ParamsMove(params, i + 1, c1, W(AllocaAt(Tmp(s), slot, Bits(ty)), Store(Bits(ty), Target.Param(i), slot)));
    }
  }

  function ParamsOver(T: Types, params: seq<Source.Param>): Types
    decreases |params|
  {
    if params == [] then T else ParamsOver(T[params[0].name := params[0].ty], params[1..])
  }

  /** No statement of the function leaves, and no expression relays, past a defer body that ends its block. */
  predicate Sound(f: Func, g: Sigs) {
    SoundList(f.body, Scope(ParamsOver(map[], f.params), g, f, false))
  }

  /** Every block of the emitted function ends in one terminator with nothing after it, exactly when the
      function is sound. */
  lemma {:induction false} BlocksEnd(f: Func, g: Sigs, lbl: nat)
    requires OkFunc(f, g)
    ensures Scan(CFunc(f, g, lbl).body) == if Sound(f, g) then Closed else Bad
  {
    Snoc();
    var s0, c0 := Out([], [], 0, lbl, false), Ctx(map[], [[]], [], g, f, false);
    var (s1, c1) := CParams(f.params, 0, c0, s0);
    assert f.params[0..] == f.params && TypesOf(c0.locals) == map[];
    ParamsMove(f.params, 0, c0, s0);
    OkTameBlock(f.body, Chk(ParamTypes(f.params), [[]], None, g, f, false));
    BlockMoves(f.body, c1, s1, false);
  }

  /** What the scan means: a label follows a terminator, and a terminator is followed by a label. */
  lemma {:induction false} ScanMeans(xs: seq<Line>, i: nat)
    requires Scan(xs) != Bad && 0 < i < |xs|
    ensures xs[i].Label? <==> Terminator(xs[i - 1])
  {
    if ScanTo(xs, i + 1) == Bad { BadOn(xs, i + 1, |xs|); }
    assert ScanTo(xs, i) == Next(ScanTo(xs, i - 1), xs[i - 1]);
    assert ScanTo(xs, i + 1) == Next(ScanTo(xs, i), xs[i]);
  }

  /** `{ defer { !!! 1; } pass 0; }` */
  function Misplaced(): Func {
    Func([], ERROR_CODE, false, [Defer([Trap(IntLit(1, ERROR_CODE))]), Pass(Some(IntLit(0, ERROR_CODE)))])
  }

  lemma {:induction false} TrapOk(k: Chk)
    requires k.inDefer
    ensures OkBlock([Trap(IntLit(1, ERROR_CODE))], k)
  {
    var ss, k1 := [Trap(IntLit(1, ERROR_CODE))], k.(defers := k.defers + [[]]);
    assert ss[1..] == [];
    assert OkTyped(ss[0].error, ERROR_CODE, k1) by { assert OkExpr(ss[0].error, k1); }
    assert OkStmts(ss[1..], AfterK(ss[0], k1));
    assert DefersOf(ss) == [] by { assert DefersOf(ss[1..]) == []; }
    assert OkFrame([], InDefer(AfterAllK(ss, k1).(defers := k.defers)));
  }

  /** The checker allows it, and the return lands after the trap's `unreachable`. */
  lemma {:induction false} MisplacedEnds(lbl: nat)
    ensures OkFunc(Misplaced(), map[]) && Scan(CFunc(Misplaced(), map[], lbl).body) == Bad
  {
    MisplacedOk();
    MisplacedSound(Misplaced().body, [Trap(IntLit(1, ERROR_CODE))]);
    BlocksEnd(Misplaced(), map[], lbl);
  }

  lemma {:induction false} MisplacedOk()
    ensures OkFunc(Misplaced(), map[])
  {
    var f, g := Misplaced(), map[];
    var body, trap := f.body, [Trap(IntLit(1, ERROR_CODE))];
    var k := Chk(map[], [[]], None, g, f, false);
    var k1, k2 := k.(defers := [[], []]), k.(defers := [[], [trap]]);
    assert body[0] == Defer(trap) && body[1..] == [Pass(Some(IntLit(0, ERROR_CODE)))] && body[1..][1..] == [];
    TrapOk(InDefer(k1));
    TrapOk(InDefer(k2));
    TrapOk(InDefer(k));
    assert k1.defers[1] + [trap] == [trap];
    assert k1 == k.(defers := k.defers + [[]]) && k1.defers[1 := k1.defers[1] + [trap]] == k2.defers;
    assert AfterK(body[0], k1) == k2;
    assert OkFrames(k2.defers, InDefer(k2)) by {
      assert k2.defers[..1] == k.defers && [trap][..0] == [] && k.defers[..0] == [];
      assert OkFrame([trap], InDefer(k2));
      assert OkFrames(k.defers, InDefer(k2));
    }
    assert OkStmt(body[1], k2);
    assert OkStmts(body[1..], k2);
    assert OkStmts(body, k1);
    assert DefersOf(body) == [trap] by { assert DefersOf(body[1..]) == []; }
    assert AfterAllK(body, k1) == k2 by { assert AfterAllK(body[1..], k2) == k2; }
    assert OkFrame([trap], InDefer(k2.(defers := k.defers))) by { assert [trap][..0] == []; }
    assert OkBlock(body, k);
  }

  lemma {:induction false} MisplacedSound(body: seq<Stmt>, trap: seq<Stmt>)
    requires trap == [Trap(IntLit(1, ERROR_CODE))] && body == [Defer(trap), Pass(Some(IntLit(0, ERROR_CODE)))]
    ensures !SoundList(body, Scope(map[], map[], Misplaced(), false))
  {
    var x := Scope(map[], map[], Misplaced(), false);
    assert EndsStmt(trap[0]) && EndsBlock(trap);
    assert AfterX(body[0], x) == x.(ends := true);
    assert !SoundStmt(body[1], x.(ends := true));
    assert body[1..][0] == body[1] && !SoundList(body[1..], x.(ends := true));
  }
}
