/** What the emitter takes for granted of a function: it is well typed and scoped; no name is declared over a
    visible one; a defer body neither leaves the function nor a loop around it, and is well typed in the scope
    of every exit that runs it; and no `break` or `continue` passes a defer. */
module Checked {
  import opened Words
  import opened Source
  import opened Target
  import opened Lowering

  datatype Chk = Chk(T: Types, defers: seq<seq<seq<Stmt>>>, loop: Option<nat>, g: Sigs, fn: Func, inDefer: bool)

  function KOf(c: Ctx, loop: Option<nat>): Chk {
    Chk(TypesOf(c.locals), c.defers, loop, c.g, c.fn, c.inDefer)
  }

  /** The scope of a defer body where it is lowered. */
  function InDefer(k: Chk): Chk {
    k.(inDefer := true, loop := None)
  }

  function KLv(k: Chk): nat {
    if k.inDefer then 0 else 1
  }

  predicate NoRelay(e: Expr)
    decreases e
  {
    match e
    case Unary(_, a) => NoRelay(a)
    case Arith(_, a, b) => NoRelay(a) && NoRelay(b)
    case Compare(_, a, b) => NoRelay(a) && NoRelay(b)
    case Logic(_, a, b) => NoRelay(a) && NoRelay(b)
    case Call(_, args) => NoRelays(args)
    case ResultOf(op, a) => !op.Relay? && NoRelay(a)
    case Emphatic(a, b) => NoRelay(a) && NoRelay(b)
    case SafeUnwrap(a, b) => NoRelay(a) && NoRelay(b)
    case _ => true
  }

  predicate NoRelays(args: seq<Expr>)
    decreases args
  {
    args == [] || (NoRelay(args[0]) && NoRelays(args[1..]))
  }

  predicate AllEmpty(frames: seq<seq<seq<Stmt>>>) {
    forall i :: 0 <= i < |frames| ==> frames[i] == []
  }

  predicate OkExpr(e: Expr, k: Chk)
    decreases KLv(k), ESize(e), 1
  {
    TypeOf(e, k.T, k.g).Some? && (NoRelay(e) || (!k.inDefer && OkFrames(k.defers, InDefer(k))))
  }

  predicate OkTyped(e: Expr, ty: Ty, k: Chk)
    decreases KLv(k), ESize(e), 2
  {
    OkExpr(e, k) && TypeOf(e, k.T, k.g) == Some(Sc(ty))
  }

  predicate OkCond(e: Expr, k: Chk)
    decreases KLv(k), ESize(e), 2
  {
    OkExpr(e, k) && ScalarX(TypeOf(e, k.T, k.g))
  }

  predicate OkOperand(e: Expr, ty: Ty, k: Chk) {
    TypeOf(e, k.T, k.g) == Some(Sc(ty))
  }

  predicate OkLeave(m: Leave, k: Chk) {
    match m
    case LOk(None) => k.fn.bare || k.fn.ret.NilT?
    case LOk(Some(e)) => OkOperand(e, k.fn.ret, k)
    case LFail(e) => OkOperand(e, ERROR_CODE, k)
    case LExit(e) => k.fn.bare && OkOperand(e, k.fn.ret, k)
    case LErr(_) => true
  }

  predicate OkFrames(frames: seq<seq<seq<Stmt>>>, k: Chk)
    requires k.inDefer
    decreases KLv(k), FsSize(frames), 3, |frames|
  {
    frames == [] || (OkFrame(frames[|frames| - 1], k) && OkFrames(frames[..|frames| - 1], k))
  }

  function FsSize(frames: seq<seq<seq<Stmt>>>): nat {
    if frames == [] then 0 else FSize(frames[|frames| - 1]) + FsSize(frames[..|frames| - 1])
  }

  predicate OkFrame(frame: seq<seq<Stmt>>, k: Chk)
    requires k.inDefer
    decreases KLv(k), FSize(frame), 0
  {
    frame == [] || (OkBlock(frame[|frame| - 1], k) && OkFrame(frame[..|frame| - 1], k))
  }

  /** What a leaving statement in a scope, or a relay, needs: the defers of the open frames and its operand
      lower there. */
  predicate OkUnwind(frames: seq<seq<seq<Stmt>>>, m: Leave, c: Ctx) {
    && !c.inDefer && OkFrames(frames, InDefer(KOf(c, None))) && OkLeave(m, KOf(c, None))
    && OkFrames(c.defers, InDefer(KOf(c, None)))
  }

  function AfterK(st: Stmt, k: Chk): (k': Chk)
    ensures k'.inDefer == k.inDefer
  {
    match st
    case VarDecl(x, ty, _) => k.(T := k.T[x := ty])
    case Defer(b) => if k.defers == [] then k else
      var i := |k.defers| - 1;
      k.(defers := k.defers[i := k.defers[i] + [b]])
    case _ => k
  }

  function AfterAllK(ss: seq<Stmt>, k: Chk): (k': Chk)
    ensures k'.inDefer == k.inDefer
  {
    if ss == [] then k else AfterAllK(ss[1..], AfterK(ss[0], k))
  }

  predicate OkBlock(ss: seq<Stmt>, k: Chk)
    decreases KLv(k), BSize(ss) + 1, 0
  {
    DefersSize(ss);
    var k1 := k.(defers := k.defers + [[]]);
    OkStmts(ss, k1) &&
    OkFrame(DefersOf(ss), InDefer(AfterAllK(ss, k1).(defers := k.defers)))
  }

  predicate OkStmts(ss: seq<Stmt>, k: Chk)
    decreases KLv(k), BSize(ss), 5
  {
    ss == [] || (OkStmt(ss[0], k) && OkStmts(ss[1..], AfterK(ss[0], k)))
  }

  predicate OkArms(arms: seq<Arm>, k: Chk)
    decreases KLv(k), ASize(arms), 3
  {
    arms == [] || (OkBlock(arms[0].body, k) && OkArms(arms[1..], k))
  }

  predicate OkStmt(st: Stmt, k: Chk)
    decreases KLv(k), SSize(st), 4
  {
    match st
    case Block(b) => OkBlock(b, k)
    case VarDecl(x, ty, e) => x !in k.T && !ty.NilT? && OkTyped(e, ty, k)
    case Assign(x, op, e) =>
      x in k.T && !k.T[x].NilT? && OkTyped(e, k.T[x], k) && (op.Some? ==> k.T[x].IntT?)
    case ExprStmt(e) => OkExpr(e, k)
    case If(e, t, els) => OkCond(e, k) && OkBlock(t, k)
        && (els.Some? ==> (els.value.Block? || els.value.If?) && OkStmt(els.value, k))
    case While(e, b) => OkCond(e, k) && OkBlock(b, k.(loop := Some(|k.defers|)))
    case Pick(e, arms) => OkCond(e, k) && OkArms(arms, k)
    case Pass(r) => !k.inDefer && OkFrames(k.defers, InDefer(k)) && OkLeave(LOk(r), k)
    case Fail(e) => !k.inDefer && OkFrames(k.defers, InDefer(k)) && OkLeave(LFail(e), k)
    case Exit(e) => !k.inDefer && OkFrames(k.defers, InDefer(k)) && OkLeave(LExit(e), k)
    case Trap(e) => OkTyped(e, ERROR_CODE, k)
    case Defer(b) => k.defers != [] && OkBlock(b, InDefer(k))
    case Break => OkJump(k)
    case Continue => OkJump(k)
  }

  predicate OkJump(k: Chk) {
    k.loop.Some? && k.loop.value <= |k.defers| && AllEmpty(k.defers[k.loop.value..])
  }

  function ParamTypes(params: seq<Source.Param>): Types {
    if params == [] then map[]
    else
      var i := |params| - 1;
      ParamTypes(params[..i])[params[i].name := params[i].ty]
  }

  predicate OkFunc(f: Func, g: Sigs) {
    && (f.bare ==> f.ret == ERROR_CODE)
    && (forall i :: 0 <= i < |f.params| ==> !f.params[i].ty.NilT?)
    && (forall i, j :: 0 <= i < j < |f.params| ==> f.params[i].name != f.params[j].name)
    && OkBlock(f.body, Chk(ParamTypes(f.params), [[]], None, g, f, false))
  }
}
