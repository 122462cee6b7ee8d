/** A defer body is lowered at every exit that runs it, in the locals of that exit. Its lines there are those of
    where it was registered exactly when the exit gives every name it mentions the same local. */
module Shadowing {
  import opened Words
  import opened Source
  import opened Target
  import opened Lowering
  import opened Checked
  import opened Blocks

  // --- the names a body mentions -----------------------------------------------------------------

  /** The names whose slots an expression's lines load, in order; a Result is always a call's. */
  function NamesOf(e: Expr, g: Sigs): seq<string>
    decreases ESize(e)
  {
    match e
    case Var(x) => [x]
    case Unary(_, a) => NamesOf(a, g)
    case Arith(_, a, b) => NamesOf(a, g) + NamesOf(b, g)
    case Compare(_, a, b) => NamesOf(a, g) + NamesOf(b, g)
    case Logic(_, a, b) => NamesOf(a, g) + NamesOf(b, g)
    case Call(_, args) => NamesOfAll(args, g)
    case ResultOf(_, a) => NamesOf(a, g)
    case Emphatic(a, k) => NamesOf(a, g) + if a.Call? then NamesOf(k, g) else []
    case SafeUnwrap(a, d) => NamesOf(a, g) + if GivesValue(a, g) then NamesOf(d, g) else []
    case _ => []
  }

  predicate GivesValue(a: Expr, g: Sigs) {
    a.Call? && a.callee in g && !g[a.callee].ret.NilT?
  }

  function NamesOfAll(args: seq<Expr>, g: Sigs): seq<string>
    decreases ESizes(args)
  {
    if args == [] then [] else NamesOf(args[0], g) + NamesOfAll(args[1..], g)
  }

  function Minus(names: seq<string>, x: string): seq<string> {
    if names == [] then []
    else (if names[0] == x then [] else [names[0]]) + Minus(names[1..], x)
  }

  function Undeclared(st: Stmt, names: seq<string>): seq<string> {
    if st.VarDecl? then Minus(names, st.name) else names
  }

  function NamesOfStmt(st: Stmt, g: Sigs): seq<string>
    decreases SSize(st), 0
  {
    match st
    case Block(b) => NamesOfBlock(b, g)
    case VarDecl(_, _, e) => NamesOf(e, g)
    case Assign(x, op, e) => (if op.Some? then [x] else []) + NamesOf(e, g) + [x]
    case ExprStmt(e) => NamesOf(e, g)
    case If(e, t, els) => NamesOf(e, g) + NamesOfBlock(t, g) + if els.Some? then NamesOfStmt(els.value, g) else []
    case While(e, b) => NamesOf(e, g) + NamesOfBlock(b, g)
    case Pick(e, arms) => NamesOf(e, g) + NamesOfArms(arms, g) + NamesOfWild(arms, g)
    case Trap(e) => NamesOf(e, g)
    case _ => []
  }

  /** A block's names: those of its statements up to one that ends it, and of its defers, less the ones it declares. */
  function NamesOfBlock(ss: seq<Stmt>, g: Sigs): seq<string>
    decreases BSize(ss), 3
  {
    DefersSize(ss);
    NamesOfList(ss, g, if EndsList(ss) then [] else NamesOfFrame(DefersOf(ss), g))
  }

  /** `after` are the names mentioned after the list, in its scope. */
  function NamesOfList(ss: seq<Stmt>, g: Sigs, after: seq<string>): seq<string>
    decreases BSize(ss), 1
  {
    if ss == [] then after
    else NamesOfStmt(ss[0], g) + if EndsStmt(ss[0]) then [] else Undeclared(ss[0], NamesOfList(ss[1..], g, after))
  }

  function NamesOfFrame(frame: seq<seq<Stmt>>, g: Sigs): seq<string>
    decreases FSize(frame), 0
  {
    if frame == [] then []
    else
      var k := |frame| - 1;
      NamesOfBlock(frame[k], g) + if EndsBlock(frame[k]) then [] else NamesOfFrame(frame[..k], g)
  }

  function NamesOfArms(arms: seq<Arm>, g: Sigs): seq<string>
    decreases ASize(arms), 1
  {
    if arms == [] then []
    else (if arms[0].pat.Some? then NamesOfBlock(arms[0].body, g) else []) + NamesOfArms(arms[1..], g)
  }

  function NamesOfWild(arms: seq<Arm>, g: Sigs): seq<string>
    decreases ASize(arms), 1
  {
    var wild := WildArm(arms);
    if wild.Some? then NamesOfBlock(ArmAt(arms, wild.value), g) else []
  }

  // --- well typed bodies --------------------------------------------------------------------------

  predicate Typed(e: Expr, T: Types, g: Sigs) {
    TypeOf(e, T, g).Some?
  }

  predicate FitStmt(st: Stmt, T: Types, g: Sigs)
    decreases SSize(st), 0
  {
    match st
    case Block(b) => FitBlock(b, T, g)
    case VarDecl(_, _, e) => Typed(e, T, g)
    case Assign(_, _, e) => Typed(e, T, g)
    case ExprStmt(e) => Typed(e, T, g)
    case If(e, t, els) => Typed(e, T, g) && FitBlock(t, T, g) && (els.Some? ==> FitStmt(els.value, T, g))
    case While(e, b) => Typed(e, T, g) && FitBlock(b, T, g)
    case Pick(e, arms) => Typed(e, T, g) && FitArms(arms, T, g)
    case Trap(e) => Typed(e, T, g)
    case _ => true
  }

  function TypesAfter(ss: seq<Stmt>, T: Types): Types {
    if ss == [] then T else TypesAfter(ss[1..], TypesNext(ss[0], T))
  }

  function TypesNext(st: Stmt, T: Types): Types {
    if st.VarDecl? then T[st.name := st.ty] else T
  }

  /** A name may be declared over a visible one. */
  predicate FitBlock(ss: seq<Stmt>, T: Types, g: Sigs)
    decreases BSize(ss), 3
  {
    DefersSize(ss);
    FitList(ss, T, g) && FitFrame(DefersOf(ss), TypesAfter(ss, T), g)
  }

  predicate FitList(ss: seq<Stmt>, T: Types, g: Sigs)
    decreases BSize(ss), 1
  {
    ss == [] || (FitStmt(ss[0], T, g) && FitList(ss[1..], TypesNext(ss[0], T), g))
  }

  predicate FitFrame(frame: seq<seq<Stmt>>, T: Types, g: Sigs)
    decreases FSize(frame), 0
  {
    frame == [] || (FitBlock(frame[|frame| - 1], T, g) && FitFrame(frame[..|frame| - 1], T, g))
  }

  predicate FitArms(arms: seq<Arm>, T: Types, g: Sigs)
    decreases ASize(arms), 1
  {
    arms == [] || (FitBlock(arms[0].body, T, g) && FitArms(arms[1..], T, g))
  }

  lemma {:induction false} ArmFits(arms: seq<Arm>, i: nat, T: Types, g: Sigs)
    requires i < |arms| && FitArms(arms, T, g)
    ensures FitBlock(ArmAt(arms, i), T, g)
  {
    if i > 0 { ArmFits(arms[1..], i - 1, T, g); }
  }

  // --- two scopes, and what is emitted in them -----------------------------------------------------

  /** Scopes in defer bodies that may differ in their locals; a slot is one local's in both. */
  ghost predicate Alike(c: Ctx, c2: Ctx) {
    && c.inDefer && c2 == c.(locals := c2.locals, defers := c2.defers) && c.defers != [] && c2.defers != []
    && forall x :: SlotOf(c, x).slot == SlotOf(c2, x).slot ==> SlotOf(c, x) == SlotOf(c2, x)
  }

  ghost predicate Agree(names: seq<string>, c: Ctx, c2: Ctx) {
    forall x :: x in names ==> SlotOf(c, x) == SlotOf(c2, x)
  }

  /** Some line, once emitted, is another. */
  ghost predicate Split(a: Out, b: Out) {
    exists k :: 0 <= k < |a.body| && k < |b.body| && a.body[k] != b.body[k]
  }

  ghost predicate Tie(names: seq<string>, c: Ctx, c2: Ctx, a: Out, b: Out) {
    if Agree(names, c, c2) then a == b else Split(a, b)
  }

  ghost predicate TieX<X>(names: seq<string>, c: Ctx, c2: Ctx, a: (Out, X), b: (Out, X)) {
    if Agree(names, c, c2) then a == b else Split(a.0, b.0)
  }

  lemma {:induction false} AgreeCat(a: seq<string>, b: seq<string>, c: Ctx, c2: Ctx)
    ensures Agree(a + b, c, c2) <==> Agree(a, c, c2) && Agree(b, c, c2)
  {
    assert forall x :: x in a + b <==> x in a || x in b;
  }

  lemma SplitStays(a: Out, b: Out, a1: Out, b1: Out)
    requires Ext(a, a1) && Ext(b, b1)
    ensures Split(a, b) ==> Split(a1, b1)
  {
    if Split(a, b) {
      var k :| 0 <= k < |a.body| && k < |b.body| && a.body[k] != b.body[k];
      assert a1.body[k] == a.body[k] && b1.body[k] == b.body[k];
    }
  }

  /** One line more in both. */
  lemma SplitHere(s: Out, a: Out, b: Out, x: Line, y: Line)
    requires a.body == s.body + [x] && b.body == s.body + [y] && x != y
    ensures Split(a, b)
  {
    assert a.body[|s.body|] == x && b.body[|s.body|] == y;
  }

  // --- expressions ------------------------------------------------------------------------------------

  /** A Result comes from a call, with the callee's type. */
  lemma {:induction false} ResultIsCall(e: Expr, T: Types, g: Sigs)
    requires TypeOf(e, T, g).Some?
    ensures TypeOf(e, T, g).value.Rs? <==> e.Call?
    ensures e.Call? ==> e.callee in g && TypeOf(e, T, g).value.ty == g[e.callee].ret
    decreases e
  {
    match e {
      case Unary(_, a) => ResultIsCall(a, T, g);
      case Arith(_, a, _) => ResultIsCall(a, T, g);
      case _ =>
    }
  }

  ghost predicate Both(e: Expr, c: Ctx, c2: Ctx) {
    Alike(c, c2) && NoRelay(e) && Typed(e, TypesOf(c.locals), c.g) && Typed(e, TypesOf(c2.locals), c.g)
  }

  ghost predicate BothAll(args: seq<Expr>, c: Ctx, c2: Ctx) {
    Alike(c, c2) && forall i :: 0 <= i < |args| ==> Both(args[i], c, c2)
  }

  lemma {:induction false} ArgsBoth(args: seq<Expr>, params: seq<Ty>, c: Ctx, c2: Ctx)
    requires Alike(c, c2) && NoRelays(args)
    requires ArgsTyped(args, params, TypesOf(c.locals), c.g) && ArgsTyped(args, params, TypesOf(c2.locals), c.g)
    ensures BothAll(args, c, c2)
  {
    if args != [] { ArgsBoth(args[1..], params[1..], c, c2); }
  }

  lemma {:induction false} TypeSame(e: Expr, c: Ctx, c2: Ctx)
    requires Both(e, c, c2) && Agree(NamesOf(e, c.g), c, c2)
    ensures XTyOf(e, c) == XTyOf(e, c2)
    decreases ESize(e)
  {
    match e {
      case Var(x) => assert x in NamesOf(e, c.g);
      case Unary(_, a) => TypeSame(a, c, c2);
      case Arith(_, a, b) =>
        AgreeCat(NamesOf(a, c.g), NamesOf(b, c.g), c, c2);
        TypeSame(a, c, c2);
      case ResultOf(_, a) => TypeSame(a, c, c2);
      case Emphatic(a, k) =>
        AgreeCat(NamesOf(a, c.g), if a.Call? then NamesOf(k, c.g) else [], c, c2);
        TypeSame(a, c, c2);
      case SafeUnwrap(a, d) =>
        AgreeCat(NamesOf(a, c.g), if GivesValue(a, c.g) then NamesOf(d, c.g) else [], c, c2);
        TypeSame(a, c, c2);
      case _ =>
    }
  }

  lemma {:induction false} ExprTie(e: Expr, c: Ctx, c2: Ctx, s: Out)
    requires Both(e, c, c2)
    ensures TieX(NamesOf(e, c.g), c, c2, CExpr(e, c, s), CExpr(e, c2, s))
    decreases ESize(e), 1
  {
    match e {
      case Var(x) => VarTie(x, c, c2, s);
      case Unary(op, a) =>
        PartTie(a, c, c2, s);
        SplitStays(CExpr(a, c, s).0, CExpr(a, c2, s).0, CExpr(e, c, s).0, CExpr(e, c2, s).0);
      case Arith(op, a, b) => ArithTie(op, a, b, c, c2, s);
      case Compare(op, a, b) => CompareTie(op, a, b, c, c2, s);
      case Logic(isOr, a, b) => LogicTie(isOr, a, b, c, c2, s);
      case Call(f, args) => CallTie(f, args, c, c2, s);
      case ResultOf(op, a) => ResultTie(op, a, c, c2, s);
      case Emphatic(a, k) => EmphaticTie(a, k, c, c2, s);
      case SafeUnwrap(a, d) => UnwrapTie(a, d, c, c2, s);
      case _ => NothingNamed(c, c2);
    }
  }

  lemma NothingNamed(c: Ctx, c2: Ctx)
    ensures Agree([], c, c2)
  {}

  lemma {:induction false} VarTie(x: string, c: Ctx, c2: Ctx, s: Out)
    requires Alike(c, c2)
    ensures Tie([x], c, c2, VarTail(SlotOf(c, x), s), VarTail(SlotOf(c2, x), s))
  {
    var l, l2 := SlotOf(c, x), SlotOf(c2, x);
    assert x in [x];
    if l != l2 {
      SplitHere(s, VarTail(l, s), VarTail(l2, s), Load(s.n + 1, Bits(l.ty), l.slot),
          Load(s.n + 1, Bits(l2.ty), l2.slot));
    }
  }

  /** An operand, its type, and its test as a condition. */
  lemma {:induction false} PartTie(a: Expr, c: Ctx, c2: Ctx, s: Out)
    requires Both(a, c, c2)
    ensures TieX(NamesOf(a, c.g), c, c2, CExpr(a, c, s), CExpr(a, c2, s))
    ensures TieX(NamesOf(a, c.g), c, c2, CCond(a, c, s), CCond(a, c2, s))
    ensures Agree(NamesOf(a, c.g), c, c2) ==> XTyOf(a, c) == XTyOf(a, c2)
    decreases ESize(a), 2
  {
    ExprTie(a, c, c2, s);
    if Agree(NamesOf(a, c.g), c, c2) { TypeSame(a, c, c2); }
    SplitStays(CExpr(a, c, s).0, CExpr(a, c2, s).0, CCond(a, c, s).0, CCond(a, c2, s).0);
  }

  lemma {:induction false} PairTie(a: Expr, b: Expr, c: Ctx, c2: Ctx, s: Out)
    requires Both(a, c, c2) && Both(b, c, c2)
    ensures var s1, t1 := CExpr(a, c, s), CExpr(a, c2, s);
            && TieX(NamesOf(a, c.g) + NamesOf(b, c.g), c, c2, CExpr(b, c, s1.0), CExpr(b, c2, t1.0))
            && (Agree(NamesOf(a, c.g) + NamesOf(b, c.g), c, c2) ==> s1 == t1 && XTyOf(a, c) == XTyOf(a, c2))
    decreases ESize(a) + ESize(b), 3
  {
    var s1, t1 := CExpr(a, c, s).0, CExpr(a, c2, s).0;
    AgreeCat(NamesOf(a, c.g), NamesOf(b, c.g), c, c2);
    PartTie(a, c, c2, s);
    if s1 == t1 { PartTie(b, c, c2, s1); }
    SplitStays(s1, t1, CExpr(b, c, s1).0, CExpr(b, c2, t1).0);
  }

  lemma {:induction false} ArithTie(op: BinOp, a: Expr, b: Expr, c: Ctx, c2: Ctx, s: Out)
    requires Both(a, c, c2) && Both(b, c, c2)
    ensures TieX(NamesOf(a, c.g) + NamesOf(b, c.g), c, c2, CExpr(Arith(op, a, b), c, s), CExpr(Arith(op, a, b), c2, s))
    decreases ESize(a) + ESize(b), 4
  {
    PairTie(a, b, c, c2, s);
    var s2, t2 := CExpr(b, c, CExpr(a, c, s).0).0, CExpr(b, c2, CExpr(a, c2, s).0).0;
    SplitStays(s2, t2, CExpr(Arith(op, a, b), c, s).0, CExpr(Arith(op, a, b), c2, s).0);
  }

  lemma {:induction false} CompareTie(op: CmpOp, a: Expr, b: Expr, c: Ctx, c2: Ctx, s: Out)
    requires Both(a, c, c2) && Both(b, c, c2)
    ensures TieX(NamesOf(a, c.g) + NamesOf(b, c.g), c, c2, CExpr(Compare(op, a, b), c, s),
            CExpr(Compare(op, a, b), c2, s))
    decreases ESize(a) + ESize(b), 4
  {
    PairTie(a, b, c, c2, s);
    var s2, t2 := CExpr(b, c, CExpr(a, c, s).0).0, CExpr(b, c2, CExpr(a, c2, s).0).0;
    SplitStays(s2, t2, CExpr(Compare(op, a, b), c, s).0, CExpr(Compare(op, a, b), c2, s).0);
  }

  lemma {:induction false} ArgsTie(args: seq<Expr>, c: Ctx, c2: Ctx, s: Out)
    requires BothAll(args, c, c2)
    ensures TieX(NamesOfAll(args, c.g), c, c2, CArgs(args, c, s), CArgs(args, c2, s))
    decreases ESizes(args), 1
  {
    if args == [] {
      NothingNamed(c, c2);
    } else {
      var s1, t1 := CExpr(args[0], c, s).0, CExpr(args[0], c2, s).0;
      AgreeCat(NamesOf(args[0], c.g), NamesOfAll(args[1..], c.g), c, c2);
      PartTie(args[0], c, c2, s);
      if s1 == t1 { ArgsTie(args[1..], c, c2, s1); }
      SplitStays(s1, t1, CArgs(args[1..], c, s1).0, CArgs(args[1..], c2, t1).0);
    }
  }

  lemma {:induction false} LogicTie(isOr: bool, a: Expr, b: Expr, c: Ctx, c2: Ctx, s: Out)
    requires Both(a, c, c2) && Both(b, c, c2)
    ensures TieX(NamesOf(a, c.g) + NamesOf(b, c.g), c, c2, CLogic(isOr, a, b, c, s), CLogic(isOr, a, b, c2, s))
    decreases ESize(a) + ESize(b), 4
  {
    var (s1, x) := CCond(a, c, LogicHead(s));
    var (t1, y) := CCond(a, c2, LogicHead(s));
    AgreeCat(NamesOf(a, c.g), NamesOf(b, c.g), c, c2);
    PartTie(a, c, c2, LogicHead(s));
    LogicRest(isOr, s, x, s1, b, c, c2);
    LogicFrom(isOr, s, x, s1, b, c);
    LogicFrom(isOr, s, y, t1, b, c2);
    SplitStays(s1, t1, LogicEnd(isOr, s, x, s1, b, c).0, LogicEnd(isOr, s, y, t1, b, c2).0);
  }

  /** What follows the left operand. */
  function LogicEnd(isOr: bool, s: Out, x: Opd, s1: Out, b: Expr, c: Ctx): (Out, Opd) {
    var (s2, y) := CCond(b, c, LogicMid(isOr, s, x, s1));
    var s3 := LogicTail(s, y, s2);
    (s3, Reg(s3.n))
  }

  lemma LogicFrom(isOr: bool, s: Out, x: Opd, s1: Out, b: Expr, c: Ctx)
    ensures Ext(s1, LogicEnd(isOr, s, x, s1, b, c).0)
  {
    var mid := LogicMid(isOr, s, x, s1);
    var (s2, y) := CCond(b, c, mid);
    assert s1.body <= mid.body <= s2.body <= LogicTail(s, y, s2).body;
    assert s1.head <= mid.head <= s2.head <= LogicTail(s, y, s2).head;
  }

  lemma {:induction false} LogicRest(isOr: bool, s: Out, x: Opd, s1: Out, b: Expr, c: Ctx, c2: Ctx)
    requires Both(b, c, c2)
    ensures TieX(NamesOf(b, c.g), c, c2, LogicEnd(isOr, s, x, s1, b, c), LogicEnd(isOr, s, x, s1, b, c2))
    decreases ESize(b), 3
  {
    var mid := LogicMid(isOr, s, x, s1);
    PartTie(b, c, c2, mid);
    var (s2, y) := CCond(b, c, mid);
    var (t2, z) := CCond(b, c2, mid);
    SplitStays(s2, t2, LogicTail(s, y, s2), LogicTail(s, z, t2));
  }

  lemma {:induction false} CallTie(f: string, args: seq<Expr>, c: Ctx, c2: Ctx, s: Out)
    requires Both(Call(f, args), c, c2)
    ensures TieX(NamesOfAll(args, c.g), c, c2, CExpr(Call(f, args), c, s), CExpr(Call(f, args), c2, s))
    decreases ESizes(args), 2
  {
    ArgsBoth(args, c.g[f].params, c, c2);
    ArgsTie(args, c, c2, s);
    SplitStays(CArgs(args, c, s).0, CArgs(args, c2, s).0, CExpr(Call(f, args), c, s).0, CExpr(Call(f, args), c2, s).0);
  }

  lemma {:induction false} ResultTie(op: ResOp, a: Expr, c: Ctx, c2: Ctx, s: Out)
    requires Both(ResultOf(op, a), c, c2)
    ensures TieX(NamesOf(a, c.g), c, c2, CResultOf(op, a, c, s), CResultOf(op, a, c2, s))
    decreases ESize(a), 4
  {
    PartTie(a, c, c2, s);
    ResultFrom(op, a, c, s);
    ResultFrom(op, a, c2, s);
    SplitStays(CExpr(a, c, s).0, CExpr(a, c2, s).0, CResultOf(op, a, c, s).0, CResultOf(op, a, c2, s).0);
  }

  lemma ResultFrom(op: ResOp, a: Expr, c: Ctx, s: Out)
    requires !op.Relay?
    ensures Ext(CExpr(a, c, s).0, CResultOf(op, a, c, s).0)
  {}

  lemma {:induction false} EmphaticTie(a: Expr, k: Expr, c: Ctx, c2: Ctx, s: Out)
    requires Both(Emphatic(a, k), c, c2)
    ensures TieX(NamesOf(Emphatic(a, k), c.g), c, c2, CEmphatic(a, k, c, s), CEmphatic(a, k, c2, s))
    decreases ESize(a) + ESize(k), 4
  {
    var (s1, x) := CExpr(a, c, s);
    var (t1, y) := CExpr(a, c2, s);
    AgreeCat(NamesOf(a, c.g), if a.Call? then NamesOf(k, c.g) else [], c, c2);
    NothingNamed(c, c2);
    PartTie(a, c, c2, s);
    ResultIsCall(a, TypesOf(c.locals), c.g);
    ResultIsCall(a, TypesOf(c2.locals), c.g);
    if a.Call? {
      var ty := c.g[a.callee].ret;
      EmphaticIs(a, k, c, s);
      EmphaticIs(a, k, c2, s);
      EmphaticAfter(x, ty, s1, k, c, c2);
      EmphaticFrom(x, ty, s1, k, c);
      EmphaticFrom(y, ty, t1, k, c2);
      SplitStays(s1, t1, EmphaticRest(x, ty, s1, k, c).0, EmphaticRest(y, ty, t1, k, c2).0);
    }
  }

  lemma EmphaticFrom(x: Opd, ty: Ty, s1: Out, k: Expr, c: Ctx)
    ensures Ext(s1, EmphaticRest(x, ty, s1, k, c).0)
  {
    var h := EmphHead(x, ty, s1);
    var (s2, y) := CExpr(k, c, h);
    var s3 := EmphTail(s1, y, s2);
    assert s1.body <= h.body <= s2.body <= s3.body && s1.head <= h.head <= s2.head <= s3.head;
  }

  lemma {:induction false} EmphaticAfter(x: Opd, ty: Ty, s1: Out, k: Expr, c: Ctx, c2: Ctx)
    requires Both(k, c, c2)
    ensures TieX(NamesOf(k, c.g), c, c2, EmphaticRest(x, ty, s1, k, c), EmphaticRest(x, ty, s1, k, c2))
    decreases ESize(k), 3
  {
    var h := EmphHead(x, ty, s1);
    PartTie(k, c, c2, h);
    var (s2, y) := CExpr(k, c, h);
    var (t2, z) := CExpr(k, c2, h);
    SplitStays(s2, t2, EmphTail(s1, y, s2), EmphTail(s1, z, t2));
    SplitStays(EmphTail(s1, y, s2), EmphTail(s1, z, t2), EmphaticRest(x, ty, s1, k, c).0,
        EmphaticRest(x, ty, s1, k, c2).0);
  }

  lemma {:induction false} UnwrapTie(a: Expr, d: Expr, c: Ctx, c2: Ctx, s: Out)
    requires Both(SafeUnwrap(a, d), c, c2)
    ensures TieX(NamesOf(SafeUnwrap(a, d), c.g), c, c2, CSafeUnwrap(a, d, c, s), CSafeUnwrap(a, d, c2, s))
    decreases ESize(a) + ESize(d), 4
  {
    var (s1, x) := CExpr(a, c, s);
    var (t1, y) := CExpr(a, c2, s);
    AgreeCat(NamesOf(a, c.g), if GivesValue(a, c.g) then NamesOf(d, c.g) else [], c, c2);
    NothingNamed(c, c2);
    PartTie(a, c, c2, s);
    ResultIsCall(a, TypesOf(c.locals), c.g);
    ResultIsCall(a, TypesOf(c2.locals), c.g);
    if GivesValue(a, c.g) {
      var ty := c.g[a.callee].ret;
      UnwrapIs(a, d, c, s);
      UnwrapIs(a, d, c2, s);
      UnwrapAfter(x, ty, s1, d, c, c2);
      UnwrapFrom(x, ty, s1, d, c);
      UnwrapFrom(y, ty, t1, d, c2);
      SplitStays(s1, t1, UnwrapRest(x, ty, s1, d, c).0, UnwrapRest(y, ty, t1, d, c2).0);
    } else if a.Call? {
      SplitStays(s1, t1, ErrTest(x, NilT, s1), ErrTest(y, NilT, t1));
    }
  }

  lemma UnwrapFrom(x: Opd, ty: Ty, s1: Out, d: Expr, c: Ctx)
    ensures Ext(s1, UnwrapRest(x, ty, s1, d, c).0)
  {
    var h := UnwrapHead(x, ty, s1);
    var (s2, y) := CExpr(d, c, h);
    var s3 := UnwrapTail(s1, x, ty, y, s2);
    assert s1.body <= h.body <= s2.body <= s3.body && s1.head <= h.head <= s2.head <= s3.head;
  }

  lemma {:induction false} UnwrapAfter(x: Opd, ty: Ty, s1: Out, d: Expr, c: Ctx, c2: Ctx)
    requires Both(d, c, c2)
    ensures TieX(NamesOf(d, c.g), c, c2, UnwrapRest(x, ty, s1, d, c), UnwrapRest(x, ty, s1, d, c2))
    decreases ESize(d), 3
  {
    var h := UnwrapHead(x, ty, s1);
    PartTie(d, c, c2, h);
    var (s2, y) := CExpr(d, c, h);
    var (t2, z) := CExpr(d, c2, h);
    SplitStays(s2, t2, UnwrapTail(s1, x, ty, y, s2), UnwrapTail(s1, x, ty, z, t2));
  }

  // --- statements ---------------------------------------------------------------------------------------

  /** The two scopes of a part of a body, both of which type it; `l`: a loop is open. */
  ghost predicate Scopes(c: Ctx, c2: Ctx, l: bool) {
    Alike(c, c2) && (l ==> c.loops != [])
  }

  ghost predicate FitBoth(st: Stmt, c: Ctx, c2: Ctx, l: bool) {
    Scopes(c, c2, l) && Tame(st, true, l) && FitStmt(st, TypesOf(c.locals), c.g) && FitStmt(st, TypesOf(c2.locals), c.g)
  }

  ghost predicate FitBothBlock(ss: seq<Stmt>, c: Ctx, c2: Ctx, l: bool) {
    Scopes(c, c2, l) && TameList(ss, true, l) && FitBlock(ss, TypesOf(c.locals), c.g)
        && FitBlock(ss, TypesOf(c2.locals), c.g)
  }

  ghost predicate FitBothList(ss: seq<Stmt>, c: Ctx, c2: Ctx, l: bool) {
    Scopes(c, c2, l) && TameList(ss, true, l) && FitList(ss, TypesOf(c.locals), c.g)
        && FitList(ss, TypesOf(c2.locals), c.g)
  }

  ghost predicate FitBothFrame(frame: seq<seq<Stmt>>, c: Ctx, c2: Ctx) {
    Scopes(c, c2, false) && TameFrame(frame) && FitFrame(frame, TypesOf(c.locals), c.g)
        && FitFrame(frame, TypesOf(c2.locals), c.g)
  }

  ghost predicate FitBothArms(arms: seq<Arm>, c: Ctx, c2: Ctx, l: bool) {
    Scopes(c, c2, l) && TameArms(arms, true, l) && FitArms(arms, TypesOf(c.locals), c.g)
        && FitArms(arms, TypesOf(c2.locals), c.g)
  }

  lemma {:induction false} MinusHas(names: seq<string>, x: string, y: string)
    ensures y in Minus(names, x) <==> y in names && y != x
  {
    if names != [] { MinusHas(names[1..], x, y); }
  }

  /** A name just declared has one new slot in both scopes. */
  lemma {:induction false} AfterTie(st: Stmt, names: seq<string>, c: Ctx, c2: Ctx, s: Out, l: bool)
    requires Scopes(c, c2, l)
    ensures Scopes(After(st, c, s), After(st, c2, s), l) && After(st, c, s).g == c.g
    ensures Agree(names, After(st, c, s), After(st, c2, s)) <==> Agree(Undeclared(st, names), c, c2)
    ensures TypesOf(After(st, c, s).locals) == TypesNext(st, TypesOf(c.locals))
    ensures TypesOf(After(st, c2, s).locals) == TypesNext(st, TypesOf(c2.locals))
  {
    if st.VarDecl? {
      forall y
        ensures y in Minus(names, st.name) <==> y in names && y != st.name
      {
        MinusHas(names, st.name, y);
      }
      DeclaredTie(st.name, Local(s.n + 1, st.ty), names, c, c2, After(st, c, s), After(st, c2, s));
    } else {
      SameLocals(names, c, c2, After(st, c, s), After(st, c2, s));
    }
  }

  lemma DeclaredTie(x: string, l: Local, names: seq<string>, c: Ctx, c2: Ctx, c1: Ctx, c12: Ctx)
    requires Alike(c, c2) && c1 == c.(locals := c.locals[x := l]) && c12 == c2.(locals := c2.locals[x := l])
    requires forall y :: y in Minus(names, x) <==> y in names && y != x
    ensures Alike(c1, c12) && (Agree(names, c1, c12) <==> Agree(Minus(names, x), c, c2))
    ensures TypesOf(c1.locals) == TypesOf(c.locals)[x := l.ty] && TypesOf(c12.locals) == TypesOf(c2.locals)[x := l.ty]
  {
    assert forall y :: SlotOf(c1, y) == if y == x then l else SlotOf(c, y);
    assert forall y :: SlotOf(c12, y) == if y == x then l else SlotOf(c2, y);
    if Agree(Minus(names, x), c, c2) {
      forall y | y in names
        ensures SlotOf(c1, y) == SlotOf(c12, y)
      {
        if y != x { assert y in Minus(names, x); }
      }
    }
    if Agree(names, c1, c12) {
      forall y | y in Minus(names, x)
        ensures SlotOf(c, y) == SlotOf(c2, y)
      {
        assert y in names && SlotOf(c1, y) == SlotOf(c12, y);
      }
    }
  }

  lemma {:induction false} StmtTie(st: Stmt, c: Ctx, c2: Ctx, l: bool, s: Out)
    requires FitBoth(st, c, c2, l) && !s.terminated
    ensures Tie(NamesOfStmt(st, c.g), c, c2, CStmt(st, c, s), CStmt(st, c2, s))
    decreases SSize(st), 5
  {
    match st {
      case Block(b) => BlockTie(b, c, c2, l, s);
      case VarDecl(_, ty, e) => DeclTie(ty, e, c, c2, s);
      case Assign(x, op, e) => AssignTie(x, op, e, c, c2, s);
      case ExprStmt(e) => ExprTie(e, c, c2, s);
      case If(e, t, els) => IfTie(e, t, els, c, c2, l, s);
      case While(e, b) => WhileTie(e, b, c, c2, l, s);
      case Pick(e, arms) => PickTie(e, arms, c, c2, l, s);
      case Trap(e) =>
        ExprTie(e, c, c2, s);
        SplitStays(CExpr(e, c, s).0, CExpr(e, c2, s).0, CStmt(st, c, s), CStmt(st, c2, s));
      case _ => NothingNamed(c, c2);
    }
  }

  lemma {:induction false} DeclTie(ty: Ty, e: Expr, c: Ctx, c2: Ctx, s: Out)
    requires Both(e, c, c2)
    ensures var s0 := AllocaAt(Tmp(s), s.n + 1, Bits(ty)); var s1, t1 := CExpr(e, c, s0), CExpr(e, c2, s0);
            Tie(NamesOf(e, c.g), c, c2, W(s1.0, Store(Bits(ty), s1.1, s.n + 1)),
                W(t1.0, Store(Bits(ty), t1.1, s.n + 1)))
  {
    var s0 := AllocaAt(Tmp(s), s.n + 1, Bits(ty));
    var s1, t1 := CExpr(e, c, s0), CExpr(e, c2, s0);
    ExprTie(e, c, c2, s0);
    SplitStays(s1.0, t1.0, W(s1.0, Store(Bits(ty), s1.1, s.n + 1)), W(t1.0, Store(Bits(ty), t1.1, s.n + 1)));
  }

  lemma {:induction false} AssignTie(x: string, op: Option<BinOp>, e: Expr, c: Ctx, c2: Ctx, s: Out)
    requires Both(e, c, c2)
    ensures var st := Assign(x, op, e); Tie(NamesOfStmt(st, c.g), c, c2, CStmt(st, c, s), CStmt(st, c2, s))
  {
    assert [] + NamesOf(e, c.g) == NamesOf(e, c.g);
    if op.None? { SetTie(x, e, c, c2, s); } else { UpdateTie(x, op.value, e, c, c2, s); }
  }

  lemma {:induction false} SetTie(x: string, e: Expr, c: Ctx, c2: Ctx, s: Out)
    requires Both(e, c, c2)
    ensures var st := Assign(x, None, e); Tie(NamesOf(e, c.g) + [x], c, c2, CStmt(st, c, s), CStmt(st, c2, s))
  {
    var k, k2, s1, t1 := SlotOf(c, x), SlotOf(c2, x), CExpr(e, c, s), CExpr(e, c2, s);
    var r, r2 := W(s1.0, Store(Bits(k.ty), s1.1, k.slot)), W(t1.0, Store(Bits(k2.ty), t1.1, k2.slot));
    AgreeCat(NamesOf(e, c.g), [x], c, c2);
    assert x in [x] && (Agree([x], c, c2) <==> k == k2);
    ExprTie(e, c, c2, s);
    SplitStays(s1.0, t1.0, r, r2);
    if s1 == t1 && k != k2 {
      SplitHere(s1.0, r, r2, Store(Bits(k.ty), s1.1, k.slot), Store(Bits(k2.ty), s1.1, k2.slot));
    }
  }

  lemma {:induction false} UpdateTie(x: string, op: BinOp, e: Expr, c: Ctx, c2: Ctx, s: Out)
    requires Both(e, c, c2)
    ensures var st := Assign(x, Some(op), e); Tie([x] + NamesOf(e, c.g) + [x], c, c2, CStmt(st, c, s), CStmt(st, c2, s))
  {
    var k, k2 := SlotOf(c, x), SlotOf(c2, x);
    var s0, t0 := VarTail(k, s), VarTail(k2, s);
    var s1, t1 := CExpr(e, c, s0), CExpr(e, c2, t0);
    AgreeCat([x] + NamesOf(e, c.g), [x], c, c2);
    AgreeCat([x], NamesOf(e, c.g), c, c2);
    assert x in [x] && (Agree([x], c, c2) <==> k == k2);
    VarTie(x, c, c2, s);
    if s0 == t0 { ExprTie(e, c, c2, s0); }
    SplitStays(s0, t0, s1.0, t1.0);
    SplitStays(s1.0, t1.0, AssignTail(k, Some(op), s.n + 1, s1.1, s1.0), AssignTail(k2, Some(op), s.n + 1, t1.1, t1.0));
  }

  lemma {:induction false} IfTie(e: Expr, t: seq<Stmt>, els: Option<Stmt>, c: Ctx, c2: Ctx, l: bool, s: Out)
    requires FitBoth(If(e, t, els), c, c2, l) && !s.terminated
    ensures Tie(NamesOfStmt(If(e, t, els), c.g), c, c2, CIf(e, t, els, c, s), CIf(e, t, els, c2, s))
    decreases SSize(If(e, t, els)), 4
  {
    var s0, ne, nt := IfLabels(s, els.Some?), NamesOf(e, c.g), NamesOfBlock(t, c.g);
    var s1, t1 := CCond(e, c, s0), CCond(e, c2, s0);
    AgreeCat(ne, nt + if els.Some? then NamesOfStmt(els.value, c.g) else [], c, c2);
    AgreeCat(nt, if els.Some? then NamesOfStmt(els.value, c.g) else [], c, c2);
    AgreeCat(ne + nt, if els.Some? then NamesOfStmt(els.value, c.g) else [], c, c2);
    AgreeCat(ne, nt, c, c2);
    PartTie(e, c, c2, s0);
    IfRest(t, els, c, c2, l, s, s1);
    IfFrom(t, els, c, s, s1);
    IfFrom(t, els, c2, s, t1);
    SplitStays(s1.0, t1.0, IfBoth(t, els, c, s, s1), IfBoth(t, els, c2, s, t1));
  }

  /** What follows the condition. */
  function IfBoth(t: seq<Stmt>, els: Option<Stmt>, c: Ctx, s: Out, s1: (Out, Opd)): Out {
    var s2 := BrTo(CBlock(t, c, IfTest(s, els.Some?, s1.1, s1.0)), IfDone(s));
    Start(IfLast(els, c, s, s2), IfDone(s))
  }

  function IfLast(els: Option<Stmt>, c: Ctx, s: Out, s2: Out): Out {
    if els.Some? then BrTo(CStmt(els.value, c, Start(s2, IfElse(s, true))), IfDone(s)) else s2
  }

  lemma IfFrom(t: seq<Stmt>, els: Option<Stmt>, c: Ctx, s: Out, s1: (Out, Opd))
    ensures Ext(s1.0, IfBoth(t, els, c, s, s1))
  {
    var h := IfTest(s, els.Some?, s1.1, s1.0);
    var s2 := CBlock(t, c, h);
    LastFrom(els, c, s, BrTo(s2, IfDone(s)));
    assert s1.0.body <= h.body <= s2.body && s1.0.head <= h.head <= s2.head;
  }

  lemma LastFrom(els: Option<Stmt>, c: Ctx, s: Out, s2: Out)
    ensures Ext(s2, IfLast(els, c, s, s2))
  {
    if els.Some? {
      var e := Start(s2, IfElse(s, true));
      assert s2.body <= e.body <= CStmt(els.value, c, e).body && s2.head <= e.head <= CStmt(els.value, c, e).head;
    }
  }

  lemma {:induction false} IfRest(t: seq<Stmt>, els: Option<Stmt>, c: Ctx, c2: Ctx, l: bool, s: Out, s1: (Out, Opd))
    requires FitBothBlock(t, c, c2, l) && (els.Some? ==> FitBoth(els.value, c, c2, l))
    ensures Tie(NamesOfBlock(t, c.g) + if els.Some? then NamesOfStmt(els.value, c.g) else [], c, c2,
                IfBoth(t, els, c, s, s1), IfBoth(t, els, c2, s, s1))
    decreases BSize(t) + (if els.Some? then SSize(els.value) else 0), 9
  {
    var h, done := IfTest(s, els.Some?, s1.1, s1.0), IfDone(s);
    var b, b2 := CBlock(t, c, h), CBlock(t, c2, h);
    var j, j2 := BrTo(b, done), BrTo(b2, done);
    AgreeCat(NamesOfBlock(t, c.g), if els.Some? then NamesOfStmt(els.value, c.g) else [], c, c2);
    NothingNamed(c, c2);
    BlockTie(t, c, c2, l, h);
    SplitStays(b, b2, j, j2);
    LastFrom(els, c, s, j);
    LastFrom(els, c2, s, j2);
    SplitStays(j, j2, IfLast(els, c, s, j), IfLast(els, c2, s, j2));
    if els.Some? && j == j2 {
      var e := Start(j, IfElse(s, true));
      StmtTie(els.value, c, c2, l, e);
      SplitStays(CStmt(els.value, c, e), CStmt(els.value, c2, e), IfLast(els, c, s, j), IfLast(els, c2, s, j));
    }
    SplitStays(IfLast(els, c, s, j), IfLast(els, c2, s, j2), IfBoth(t, els, c, s, s1), IfBoth(t, els, c2, s, s1));
  }

  lemma {:induction false} WhileTie(e: Expr, b: seq<Stmt>, c: Ctx, c2: Ctx, l: bool, s: Out)
    requires FitBoth(While(e, b), c, c2, l)
    ensures Tie(NamesOfStmt(While(e, b), c.g), c, c2, CWhile(e, b, c, s), CWhile(e, b, c2, s))
    decreases SSize(While(e, b)), 4
  {
    var s1, t1 := CCond(e, c, WhStart(s)), CCond(e, c2, WhStart(s));
    AgreeCat(NamesOf(e, c.g), NamesOfBlock(b, c.g), c, c2);
    PartTie(e, c, c2, WhStart(s));
    LoopRest(b, c, c2, l, s, s1);
    LoopFrom(b, c, s, s1);
    LoopFrom(b, c2, s, t1);
    SplitStays(s1.0, t1.0, LoopEnd(b, c, s, s1), LoopEnd(b, c2, s, t1));
  }

  function LoopEnd(b: seq<Stmt>, c: Ctx, s: Out, s1: (Out, Opd)): Out {
    var s2 := CBlock(b, c.(loops := c.loops + [Loop(WhHead(s), WhDone(s))]), WhTest(s, s1.1, s1.0));
    Start(BrTo(s2, WhHead(s)), WhDone(s))
  }

  lemma LoopFrom(b: seq<Stmt>, c: Ctx, s: Out, s1: (Out, Opd))
    ensures Ext(s1.0, LoopEnd(b, c, s, s1))
  {
    var h := WhTest(s, s1.1, s1.0);
    var s2 := CBlock(b, c.(loops := c.loops + [Loop(WhHead(s), WhDone(s))]), h);
    assert s1.0.body <= h.body <= s2.body && s1.0.head <= h.head <= s2.head;
  }

  lemma {:induction false} LoopRest(b: seq<Stmt>, c: Ctx, c2: Ctx, l: bool, s: Out, s1: (Out, Opd))
    requires Scopes(c, c2, l) && TameList(b, true, true)
    requires FitBlock(b, TypesOf(c.locals), c.g) && FitBlock(b, TypesOf(c2.locals), c.g)
    ensures Tie(NamesOfBlock(b, c.g), c, c2, LoopEnd(b, c, s, s1), LoopEnd(b, c2, s, s1))
    decreases BSize(b), 9
  {
    var inner := c.loops + [Loop(WhHead(s), WhDone(s))];
    var ci, ci2, h := c.(loops := inner), c2.(loops := inner), WhTest(s, s1.1, s1.0);
    SameLocals(NamesOfBlock(b, c.g), c, c2, ci, ci2);
    BlockTie(b, ci, ci2, true, h);
    SplitStays(CBlock(b, ci, h), CBlock(b, ci2, h), LoopEnd(b, c, s, s1), LoopEnd(b, c2, s, s1));
  }

  lemma SameLocals(names: seq<string>, c: Ctx, c2: Ctx, c1: Ctx, c12: Ctx)
    requires c1.locals == c.locals && c12.locals == c2.locals
    ensures Agree(names, c1, c12) <==> Agree(names, c, c2)
    ensures Alike(c, c2) && c1.inDefer && c12 == c1.(locals := c12.locals, defers := c12.defers)
            && c1.defers != [] && c12.defers != []
            ==> Alike(c1, c12)
  {
    assert forall x :: SlotOf(c1, x) == SlotOf(c, x) && SlotOf(c12, x) == SlotOf(c2, x);
  }

  lemma {:induction false} PickTie(e: Expr, arms: seq<Arm>, c: Ctx, c2: Ctx, l: bool, s: Out)
    requires FitBoth(Pick(e, arms), c, c2, l)
    ensures Tie(NamesOfStmt(Pick(e, arms), c.g), c, c2, CPick(e, arms, c, s), CPick(e, arms, c2, s))
    decreases SSize(Pick(e, arms)), 4
  {
    var ne, na, nw := NamesOf(e, c.g), NamesOfArms(arms, c.g), NamesOfWild(arms, c.g);
    var s1, t1 := CExpr(e, c, s), CExpr(e, c2, s);
    var w, w2 := Bits(XTyOf(e, c).ty), Bits(XTyOf(e, c2).ty);
    AgreeCat(ne + na, nw, c, c2);
    AgreeCat(na, nw, c, c2);
    AgreeCat(ne, na, c, c2);
    PartTie(e, c, c2, s);
    PickRestIs(e, arms, c, s);
    PickRestIs(e, arms, c2, s);
    ArmsRest(w, arms, c, c2, l, s1);
    ArmsFrom(w, arms, c, s1);
    ArmsFrom(w2, arms, c2, t1);
    SplitStays(s1.0, t1.0, PickRest(w, arms, c, s1), PickRest(w2, arms, c2, t1));
  }

  /** What follows the selector. */
  function PickRest(w: nat, arms: seq<Arm>, c: Ctx, s1: (Out, Opd)): Out {
    var done, first := PickDone(s1.0), s1.0.lbl + 2;
    Start(ArmsOut(arms, first, done, c, PickSwitch(w, s1.1, arms, s1.0)), done)
  }

  function WildLast(arms: seq<Arm>, first: nat, done: Lbl, c: Ctx, s2: Out): Out {
    var wild := WildArm(arms);
    if wild.Some? then CArm(ArmAt(arms, wild.value), ArmLabel(first, wild.value), done, c, s2) else s2
  }

  lemma {:induction false} PickRestIs(e: Expr, arms: seq<Arm>, c: Ctx, s: Out)
    ensures CPick(e, arms, c, s) == PickRest(Bits(XTyOf(e, c).ty), arms, c, CExpr(e, c, s))
  {
    PickIs(e, arms, c, s);
  }

  lemma ArmsFrom(w: nat, arms: seq<Arm>, c: Ctx, s1: (Out, Opd))
    ensures Ext(s1.0, PickRest(w, arms, c, s1))
  {
    var done, first, sw := PickDone(s1.0), s1.0.lbl + 2, PickSwitch(w, s1.1, arms, s1.0);
    var s2 := CArms(arms, 0, first, done, c, sw);
    var s3 := WildLast(arms, first, done, c, s2);
    assert Ext(s2, s3);
    assert s1.0.body <= sw.body <= s2.body <= s3.body && s1.0.head <= sw.head <= s2.head <= s3.head;
  }

  lemma {:induction false} ArmsRest(w: nat, arms: seq<Arm>, c: Ctx, c2: Ctx, l: bool, s1: (Out, Opd))
    requires FitBothArms(arms, c, c2, l)
    ensures Tie(NamesOfArms(arms, c.g) + NamesOfWild(arms, c.g), c, c2, PickRest(w, arms, c, s1),
            PickRest(w, arms, c2, s1))
    decreases ASize(arms), 9
  {
    var done, first, sw := PickDone(s1.0), s1.0.lbl + 2, PickSwitch(w, s1.1, arms, s1.0);
    var a, a2 := CArms(arms, 0, first, done, c, sw), CArms(arms, 0, first, done, c2, sw);
    var b, b2 := WildLast(arms, first, done, c, a), WildLast(arms, first, done, c2, a2);
    AgreeCat(NamesOfArms(arms, c.g), NamesOfWild(arms, c.g), c, c2);
    NothingNamed(c, c2);
    assert arms[0..] == arms;
    ArmsTie(arms, 0, first, done, c, c2, l, sw);
    if a == a2 { WildTie(arms, first, done, c, c2, l, a); }
    SplitStays(a, a2, b, b2);
    SplitStays(b, b2, Start(b, done), Start(b2, done));
  }

  lemma {:induction false} WildTie(arms: seq<Arm>, first: nat, done: Lbl, c: Ctx, c2: Ctx, l: bool, s: Out)
    requires FitBothArms(arms, c, c2, l)
    ensures Tie(NamesOfWild(arms, c.g), c, c2, WildLast(arms, first, done, c, s), WildLast(arms, first, done, c2, s))
    decreases ASize(arms), 4
  {
    var wild := WildArm(arms);
    if wild.Some? {
      ArmFits(arms, wild.value, TypesOf(c.locals), c.g);
      ArmFits(arms, wild.value, TypesOf(c2.locals), c.g);
      ArmTame(arms, wild.value, true, l);
      ArmTie(ArmAt(arms, wild.value), ArmLabel(first, wild.value), done, c, c2, l, s);
    } else {
      NothingNamed(c, c2);
    }
  }

  lemma {:induction false} ArmTie(b: seq<Stmt>, lb: Lbl, done: Lbl, c: Ctx, c2: Ctx, l: bool, s: Out)
    requires FitBothBlock(b, c, c2, l)
    ensures Tie(NamesOfBlock(b, c.g), c, c2, CArm(b, lb, done, c, s), CArm(b, lb, done, c2, s))
    decreases BSize(b), 9
  {
    BlockTie(b, c, c2, l, Start(s, lb));
    SplitStays(CBlock(b, c, Start(s, lb)), CBlock(b, c2, Start(s, lb)), CArm(b, lb, done, c, s),
        CArm(b, lb, done, c2, s));
  }

  lemma {:induction false} ArmsTie(arms: seq<Arm>, i: nat, first: nat, done: Lbl, c: Ctx, c2: Ctx, l: bool, s: Out)
    requires i <= |arms| && FitBothArms(arms, c, c2, l)
    ensures Tie(NamesOfArms(arms[i..], c.g), c, c2, CArms(arms, i, first, done, c, s),
            CArms(arms, i, first, done, c2, s))
    decreases ASize(arms), 3, |arms| - i
  {
    if i == |arms| {
      NothingNamed(c, c2);
    } else {
      assert arms[i..][1..] == arms[i + 1..];
      var own := if arms[i].pat.Some? then NamesOfBlock(arms[i].body, c.g) else [];
      AgreeCat(own, NamesOfArms(arms[i + 1..], c.g), c, c2);
      if arms[i].pat.None? {
        NothingNamed(c, c2);
        ArmsTie(arms, i + 1, first, done, c, c2, l, s);
      } else {
        var b := ArmAt(arms, i);
        var s1, t1 := CArm(b, ArmLabel(first, i), done, c, s), CArm(b, ArmLabel(first, i), done, c2, s);
        ArmIs(arms, i);
        ArmFits(arms, i, TypesOf(c.locals), c.g);
        ArmFits(arms, i, TypesOf(c2.locals), c.g);
        ArmTame(arms, i, true, l);
        ArmTie(b, ArmLabel(first, i), done, c, c2, l, s);
        if s1 == t1 { ArmsTie(arms, i + 1, first, done, c, c2, l, s1); }
        SplitStays(s1, t1, CArms(arms, i + 1, first, done, c, s1), CArms(arms, i + 1, first, done, c2, t1));
      }
    }
  }

  // --- blocks and frames ----------------------------------------------------------------------------

  /** The statements have split, or are the same and leave what is mentioned after them to decide. */
  ghost predicate ListPost(ss: seq<Stmt>, after: seq<string>, c: Ctx, c2: Ctx, l: bool, r: (Out, Ctx), r2: (Out, Ctx)) {
    if Split(r.0, r2.0) then !Agree(NamesOfList(ss, c.g, after), c, c2)
    else
      && r.0 == r2.0
      && (if EndsList(ss) then Agree(NamesOfList(ss, c.g, after), c, c2)
          else
            && Scopes(r.1, r2.1, l) && r.1.g == c.g
            && TypesOf(r.1.locals) == TypesAfter(ss, TypesOf(c.locals))
               && TypesOf(r2.1.locals) == TypesAfter(ss, TypesOf(c2.locals))
            && (Agree(NamesOfList(ss, c.g, after), c, c2) <==> Agree(after, r.1, r2.1)))
  }

  lemma {:induction false} ListTie(ss: seq<Stmt>, after: seq<string>, c: Ctx, c2: Ctx, l: bool, s: Out)
    requires FitBothList(ss, c, c2, l) && !s.terminated
    ensures ListPost(ss, after, c, c2, l, CStmts(ss, c, s), CStmts(ss, c2, s))
    decreases BSize(ss), 6
  {
    if ss == [] {
      NeverSplit(s);
    } else {
      var st, s1, t1 := ss[0], CStmt(ss[0], c, s), CStmt(ss[0], c2, s);
      var c1, c12 := After(st, c, s), After(st, c2, s);
      StmtTie(st, c, c2, l, s);
      StmtMoves(st, c, s, l);
      AfterTie(st, NamesOfList(ss[1..], c.g, after), c, c2, s, l);
      SplitStays(s1, t1, CStmts(ss[1..], c1, s1).0, CStmts(ss[1..], c12, t1).0);
      if s1 == t1 {
        if EndsStmt(st) {
          NeverSplit(s1);
          assert CStmts(ss[1..], c1, s1) == (s1, c1) && CStmts(ss[1..], c12, s1) == (s1, c12);
        } else {
          ListTie(ss[1..], after, c1, c12, l, s1);
        }
      }
      ListNames(ss, after, c, c2);
    }
  }

  lemma {:induction false} ListNames(ss: seq<Stmt>, after: seq<string>, c: Ctx, c2: Ctx)
    requires ss != []
    ensures Agree(NamesOfList(ss, c.g, after), c, c2) <==>
              Agree(NamesOfStmt(ss[0], c.g), c, c2)
              && (EndsStmt(ss[0]) || Agree(Undeclared(ss[0], NamesOfList(ss[1..], c.g, after)), c, c2))
  {
    AgreeCat(NamesOfStmt(ss[0], c.g), if EndsStmt(ss[0]) then []
        else Undeclared(ss[0], NamesOfList(ss[1..], c.g, after)), c, c2);
    NothingNamed(c, c2);
  }

  lemma NeverSplit(s: Out)
    ensures !Split(s, s)
  {}

  lemma {:induction false} BlockTie(ss: seq<Stmt>, c: Ctx, c2: Ctx, l: bool, s: Out)
    requires FitBothBlock(ss, c, c2, l) && !s.terminated
    ensures Tie(NamesOfBlock(ss, c.g), c, c2, CBlock(ss, c, s), CBlock(ss, c2, s))
    decreases BSize(ss), 8
  {
    DefersSize(ss);
    var d, c0, c02 := DefersOf(ss), c.(defers := c.defers + [[]]), c2.(defers := c2.defers + [[]]);
    var after := if EndsList(ss) then [] else NamesOfFrame(d, c.g);
    SameLocals(NamesOfBlock(ss, c.g), c, c2, c0, c02);
    ListTie(ss, after, c0, c02, l, s);
    ListMoves(ss, c0, s, l);
    var r, r2 := CStmts(ss, c0, s), CStmts(ss, c02, s);
    SplitStays(r.0, r2.0, CBlock(ss, c, s), CBlock(ss, c2, s));
    if r.0 == r2.0 {
      NeverSplit(r.0);
      if !EndsList(ss) {
        var cd, cd2 := r.1.(defers := c.defers, inDefer := true), r2.1.(defers := c2.defers, inDefer := true);
        DefersTame(ss, true, l);
        SameLocals(after, r.1, r2.1, cd, cd2);
        FrameTie(d, cd, cd2, r.0);
      }
    }
  }

  lemma {:induction false} FrameTie(frame: seq<seq<Stmt>>, c: Ctx, c2: Ctx, s: Out)
    requires FitBothFrame(frame, c, c2) && !s.terminated
    ensures Tie(NamesOfFrame(frame, c.g), c, c2, CDefers(frame, c, s), CDefers(frame, c2, s))
    decreases FSize(frame), 0
  {
    if frame == [] {
      NothingNamed(c, c2);
    } else {
      var k := |frame| - 1;
      var b, rest := frame[k], frame[..k];
      var s1, t1 := CBlock(b, c, s), CBlock(b, c2, s);
      AgreeCat(NamesOfBlock(b, c.g), if EndsBlock(b) then [] else NamesOfFrame(rest, c.g), c, c2);
      NothingNamed(c, c2);
      BlockTie(b, c, c2, false, s);
      BlockMoves(b, c, s, false);
      SplitStays(s1, t1, CDefers(rest, c, s1), CDefers(rest, c2, t1));
      if s1 == t1 {
        NeverSplit(s1);
        if s1.terminated {
          DeadDefers(rest, c, s1);
          DeadDefers(rest, c2, s1);
        } else {
          FrameTie(rest, c, c2, s1);
        }
      }
    }
  }

  /** A defer body registered in scope `c` and lowered in the scope `c2` of an exit, both of which type it: the
      lines are those of where it was registered if and only if `c2` has the same local as `c` for every name
      the body mentions. */
  lemma {:induction false} DeferKeeps(b: seq<Stmt>, c: Ctx, c2: Ctx, s: Out)
    requires FitBothBlock(b, c, c2, false) && !s.terminated
    ensures CBlock(b, c, s) == CBlock(b, c2, s) <==> Agree(NamesOfBlock(b, c.g), c, c2)
  {
    BlockTie(b, c, c2, false, s);
    NeverSplit(CBlock(b, c, s));
  }
}
