/** What widths mean: every value a regular function computes lies in its type's range, and the slots of its
    variables are as wide. Ranges and widths stand here as numerals. */
module Ranges {
  import opened Words
  import opened Source
  import opened Target
  import opened Lowering
  import opened Checked
  import opened SimFlow

  // --- numerals ------------------------------------------------------------------------------------

  /** The values of a type. A bool is a byte, and NIL has one value. */
  ghost predicate Spanned(ty: Ty, v: int) {
    match ty
    case IntT(W8, true) => -128 <= v <= 127
    case IntT(W16, true) => -32768 <= v <= 32767
    case IntT(W32, true) => -2147483648 <= v <= 2147483647
    case IntT(W64, true) => -9223372036854775808 <= v <= 9223372036854775807
    case IntT(W8, false) => 0 <= v <= 255
    case IntT(W16, false) => 0 <= v <= 65535
    case IntT(W32, false) => 0 <= v <= 4294967295
    case IntT(W64, false) => 0 <= v <= 18446744073709551615
    case BoolT => 0 <= v <= 255
    case NilT => v == 0
  }

  /** How wide a slot of a type is. */
  function Wide(ty: Ty): nat {
    match ty
    case IntT(W8, _) => 8
    case IntT(W16, _) => 16
    case IntT(W32, _) => 32
    case IntT(W64, _) => 64
    case BoolT => 8
    case NilT => 32
  }

  /** In range, as the arithmetic has it. */
  predicate Fit(ty: Ty, v: int) {
    if ty.NilT? then v == 0 else InRange(ty, v)
  }

  lemma Pow2Words()
    ensures Pow2(8) == 256 && Pow2(16) == 65536 && Pow2(32) == 4294967296 && Pow2(64) == 18446744073709551616
  {
    Pow2Small();
    Pow2Sum(8, 8);
    Pow2Sum(16, 16);
    Pow2Sum(32, 32);
  }

  lemma FitIs(ty: Ty, v: int)
    ensures Fit(ty, v) <==> Spanned(ty, v)
  {
    Pow2Words();
  }

  // --- expressions -----------------------------------------------------------------------------------

  ghost predicate Typed(T: Types, env: Env) {
    forall x :: x in T ==> !T[x].NilT? && x in env && env[x].ty == T[x] && InRange(T[x], env[x].v)
  }

  ghost predicate ValIs(v: Val, t: XTy) {
    match v
    case S(ty, n) => t == Sc(ty) && Fit(ty, n)
    case R(ty, n, code) => t == Rs(ty) && Fit(ty, n) && code < Pow2(32)
  }

  /** A value is one of its type, and a relayed code is a word. */
  ghost predicate OutIs(out: EO, t: XTy) {
    match out
    case EV(v, _) => ValIs(v, t)
    case ERelay(code, _) => code < Pow2(32)
    case EHalt(_) => true
  }

  lemma {:induction false} EvalFits(o: Oracle, g: Sigs, e: Expr, T: Types, env: Env, tr: seq<Event>)
    requires Typed(T, env) && TypeOf(e, T, g).Some?
    ensures OutIs(Eval(o, g, e, env, tr), TypeOf(e, T, g).value)
    decreases e, 1
  {
    match e {
      case IntLit(v, ty) => WrapFacts(ty, v);
      case BoolLit(b) => BoolFits(b);
      case Unary(op, a) =>
        EvalFits(o, g, a, T, env, tr);
        var r := Eval(o, g, a, env, tr);
        if r.EV? { UnaryFits(op, r.val, r.tr); }
      case Arith(op, a, b) =>
        TwoFit(o, g, e, a, b, T, env, tr);
        ArithFits(o, g, op, a, b, T, env, tr);
      case Compare(op, a, b) =>
        TwoFit(o, g, e, a, b, T, env, tr);
        CompareFits(o, g, op, a, b, env, tr);
      case Logic(isOr, a, b) =>
        TwoFit(o, g, e, a, b, T, env, tr);
        LogicFits(o, g, isOr, a, b, env, tr);
      case Call(f, args) =>
        ArgsFit(o, g, args, g[f].params, T, env, tr);
        var r := EvalArgs(o, g, args, env, tr);
        if r.AV? { CallFits(o, g[f].ret, r.tr + [Called(f, ArgWords(r.vals))]); }
      case ResultOf(_, a) => EvalFits(o, g, a, T, env, tr);
      case Emphatic(a, k) => TwoFit(o, g, e, a, k, T, env, tr);
      case SafeUnwrap(a, d) => TwoFit(o, g, e, a, d, T, env, tr);
      case _ =>
    }
  }

  lemma TwoFit(o: Oracle, g: Sigs, e: Expr, a: Expr, b: Expr, T: Types, env: Env, tr: seq<Event>)
    requires Typed(T, env) && TypeOf(a, T, g).Some? && TypeOf(b, T, g).Some? && a < e && b < e
    ensures OutIs(Eval(o, g, a, env, tr), TypeOf(a, T, g).value)
    ensures var r := Eval(o, g, a, env, tr);
      r.EV? ==> OutIs(Eval(o, g, b, env, r.tr), TypeOf(b, T, g).value)
    decreases e, 0
  {
    EvalFits(o, g, a, T, env, tr);
    var r := Eval(o, g, a, env, tr);
    if r.EV? { EvalFits(o, g, b, T, env, r.tr); }
  }

  lemma {:induction false} ArgsFit(o: Oracle, g: Sigs, args: seq<Expr>, params: seq<Ty>, T: Types, env: Env,
          tr: seq<Event>)
    requires Typed(T, env) && ArgsTyped(args, params, T, g)
    ensures var r := EvalArgs(o, g, args, env, tr); r.AStop? && r.out.ERelay? ==> r.out.code < Pow2(32)
    decreases args, 0
  {
    if args != [] {
      EvalFits(o, g, args[0], T, env, tr);
      var r := Eval(o, g, args[0], env, tr);
      if r.EV? { ArgsFit(o, g, args[1..], params[1..], T, env, r.tr); }
    }
  }

  lemma BoolFits(b: bool)
    ensures ValIs(SBool(b), Sc(BoolT))
  {
    Pow2Small();
  }

  /** A relayed code is a word. */
  predicate CodeIs(out: EO) {
    out.ERelay? ==> out.code < Pow2(32)
  }

  lemma CompareFits(o: Oracle, g: Sigs, op: CmpOp, a: Expr, b: Expr, env: Env, tr: seq<Event>)
    requires var r := Eval(o, g, a, env, tr); CodeIs(r) && (r.EV? ==> CodeIs(Eval(o, g, b, env, r.tr)))
    ensures OutIs(Eval(o, g, Compare(op, a, b), env, tr), Sc(BoolT))
  {
    BoolFits(true);
    BoolFits(false);
  }

  lemma LogicFits(o: Oracle, g: Sigs, isOr: bool, a: Expr, b: Expr, env: Env, tr: seq<Event>)
    requires var r := Eval(o, g, a, env, tr); CodeIs(r) && (r.EV? ==> CodeIs(Eval(o, g, b, env, r.tr)))
    ensures OutIs(Eval(o, g, Logic(isOr, a, b), env, tr), Sc(BoolT))
  {
    BoolFits(true);
    BoolFits(false);
  }

  lemma UnaryFits(op: UnOp, x: Val, tr: seq<Event>)
    requires x.S? && (op.Not? || x.ty.IntT?)
    ensures OutIs(SUnary(op, x, tr), Sc(if op.Not? then BoolT else x.ty))
  {
    Pow2Small();
    WrapFacts(x.ty, -x.v);
    WrapFacts(x.ty, -x.v - 1);
  }

  lemma ArithFits(o: Oracle, g: Sigs, op: BinOp, a: Expr, b: Expr, T: Types, env: Env, tr: seq<Event>)
    requires var t := TypeOf(a, T, g); ScalarX(t) && t.value.ty.IntT? && TypeOf(b, T, g) == t
    requires OutIs(Eval(o, g, a, env, tr), TypeOf(a, T, g).value)
    requires var r := Eval(o, g, a, env, tr);
      r.EV? ==> OutIs(Eval(o, g, b, env, r.tr), TypeOf(b, T, g).value)
    ensures OutIs(Eval(o, g, Arith(op, a, b), env, tr), TypeOf(a, T, g).value)
  {
    var r := Eval(o, g, a, env, tr);
    if r.EV? {
      var r1 := Eval(o, g, b, env, r.tr);
      if r1.EV? { ArithAgrees(op, r.val.ty, r.val.v, r1.val.v); }
    }
  }

  lemma CallFits(o: Oracle, ret: Ty, tr: seq<Event>)
    ensures ValIs(CallVal(o, ret, tr), Rs(ret))
  {
    EncDec(ret, Enc(Bits(ret), o(tr).bits));
  }

  // --- statements ------------------------------------------------------------------------------------

  /** The open loop's frames are among those open. */
  predicate LoopOk(k: Chk) {
    k.loop.Some? ==> k.loop.value <= |k.defers|
  }

  predicate Jumps(k: Chk) {
    k.loop.Some? && k.loop.value <= |k.defers| && AllEmpty(k.defers[k.loop.value..])
  }

  predicate OpOk(op: LeaveOp, k: Chk) {
    match op
    case OkOp(r) => OkLeave(LOk(r), k)
    case FailOp(e) => OkLeave(LFail(e), k)
    case ExitOp(e) => OkLeave(LExit(e), k)
    case RelayOp(code) => code < Pow2(32)
  }

  /** A leave from scope `k1` in scope `k`: what is left to run, and the operand, are right for the variables there. */
  ghost predicate LeftAt(k: Chk, k1: Chk, op: LeaveOp, env: Env) {
    && !k.inDefer && !k1.inDefer && k1.g == k.g && k1.fn == k.fn && Typed(k1.T, env) && OpOk(op, k1)
    && OkFrames(k1.defers, InDefer(k1)) && k.defers <= k1.defers
  }

  /** The variables have values of their types at every outcome; `k` is the scope before, `kn` after a normal end. */
  ghost predicate Flow(k: Chk, kn: Chk, out: SO, k1: Chk) {
    match out
    case Normal(env, _) => Typed(kn.T, env)
    case Broke(env, _) => Typed(k.T, env) && Jumps(k)
    case Continued(env, _) => Typed(k.T, env) && Jumps(k)
    case Leaving(op, env, _, _) => LeftAt(k, k1, op, env)
    case _ => true
  }

  lemma {:induction false} FrameOf(frames: Frames, k: Chk, i: nat)
    requires k.inDefer && OkFrames(frames, k) && i < |frames|
    ensures OkFrame(frames[i], k)
  {
    if i < |frames| - 1 { FrameOf(frames[..|frames| - 1], k, i); }
  }

  lemma {:induction false} ArmOk(arms: seq<Arm>, k: Chk, i: nat)
    requires OkArms(arms, k) && i < |arms|
    ensures OkBlock(ArmAt(arms, i), k)
  {
    if i > 0 { ArmOk(arms[1..], k, i - 1); }
  }

  /** Expressions in a statement: the value, or a way out of the function. */
  lemma ExprFits(o: Oracle, g: Sigs, e: Expr, k: Chk, env: Env, tr: seq<Event>)
    requires OkExpr(e, k) && Typed(k.T, env) && k.g == g
    ensures OutIs(Eval(o, g, e, env, tr), TypeOf(e, k.T, g).value)
    ensures var r := Eval(o, g, e, env, tr); !r.EV? ==> Flow(k, k, Stopped(r, env), k)
  {
    EvalFits(o, g, e, k.T, env, tr);
    if NoRelay(e) { NoRelayEval(o, g, e, env, tr); }
  }

  lemma AssignFits(k: Chk, x: string, op: Option<BinOp>, v: Val, env: Env, tr: seq<Event>)
    requires Typed(k.T, env) && x in k.T && ValIs(v, Sc(k.T[x])) && !k.T[x].NilT? && (op.Some? ==> k.T[x].IntT?)
    ensures Flow(k, k, Assigned(x, op, v, env, tr), k)
  {
    if op.Some? { ArithAgrees(op.value, env[x].ty, env[x].v, v.v); }
  }

  lemma {:induction false} ExecFits(o: Oracle, g: Sigs, st: Stmt, k: Chk, env: Env, tr: seq<Event>, fuel: nat)
          returns (k1: Chk)
    requires OkStmt(st, k) && Typed(k.T, env) && k.g == g && LoopOk(k)
    ensures Flow(k, AfterK(st, k), Exec(o, g, st, env, tr, fuel), k1)
    decreases fuel, SSize(st), 0
  {
    k1 := k;
    match st {
      case Block(b) => k1 := BlockFits(o, g, b, k, env, tr, fuel);
      case VarDecl(_, _, e) => ExprFits(o, g, e, k, env, tr);
      case Assign(x, op, e) =>
        ExprFits(o, g, e, k, env, tr);
        var r := Eval(o, g, e, env, tr);
        if r.EV? { AssignFits(k, x, op, r.val, env, r.tr); }
      case ExprStmt(e) => ExprFits(o, g, e, k, env, tr);
      case If(e, t, els) =>
        ExprFits(o, g, e, k, env, tr);
        var r := Eval(o, g, e, env, tr);
        if r.EV? && r.val.v != 0 { k1 := BlockFits(o, g, t, k, env, r.tr, fuel); }
        else if r.EV? && els.Some? { k1 := ExecFits(o, g, els.value, k, env, r.tr, fuel); }
      case While(_, _) => k1 := WhileFits(o, g, st, k, env, tr, fuel);
      case Pick(e, arms) =>
        ExprFits(o, g, e, k, env, tr);
        var r := Eval(o, g, e, env, tr);
        if r.EV? {
          var i := ChosenArm(arms, r.val.ty, r.val.v);
          if i.Some? {
            ArmOk(arms, k, i.value);
            k1 := BlockFits(o, g, ArmAt(arms, i.value), k, env, r.tr, fuel);
          }
        }
      case Trap(e) => ExprFits(o, g, e, k, env, tr);
      case _ =>
    }
  }

  lemma {:induction false} WhileFits(o: Oracle, g: Sigs, st: Stmt, k: Chk, env: Env, tr: seq<Event>, fuel: nat)
          returns (k1: Chk)
    requires st.While? && OkStmt(st, k) && Typed(k.T, env) && k.g == g && LoopOk(k)
    ensures Flow(k, k, Exec(o, g, st, env, tr, fuel), k1)
    decreases fuel, SSize(st), -1
  {
    k1 := k;
    ExprFits(o, g, st.cond, k, env, tr);
    var r := Eval(o, g, st.cond, env, tr);
    if fuel > 0 && r.EV? && r.val.v != 0 {
      k1 := BlockFits(o, g, st.body, k.(loop := Some(|k.defers|)), env, r.tr, fuel - 1);
      var body := ExecBlock(o, g, st.body, env, r.tr, fuel - 1);
      if body.Normal? || body.Continued? { k1 := ExecFits(o, g, st, k, body.env, body.tr, fuel - 1); }
    }
  }

  /** The scope after the statements that completed. */
  lemma {:induction false} StmtsFit(o: Oracle, g: Sigs, ss: seq<Stmt>, k: Chk, env: Env, tr: seq<Event>, fuel: nat)
          returns (k1: Chk)
    requires OkStmts(ss, k) && Typed(k.T, env) && k.g == g && LoopOk(k)
    ensures var r := ExecStmts(o, g, ss, env, tr, fuel); var kn := AfterAllK(ss[..r.ran], k);
      Flow(kn, kn, r.out, k1) && (r.out.Normal? ==> r.ran == |ss|)
    decreases fuel, BSize(ss), 1
  {
    if ss == [] {
      k1 := k;
    } else {
      k1 := ExecFits(o, g, ss[0], k, env, tr, fuel);
      var out := Exec(o, g, ss[0], env, tr, fuel);
      if out.Normal? {
        AfterLoop(ss[0], k);
        k1 := StmtsFit(o, g, ss[1..], AfterK(ss[0], k), out.env, out.tr, fuel);
        var r := ExecStmts(o, g, ss[1..], out.env, out.tr, fuel);
        assert ss[..r.ran + 1][1..] == ss[1..][..r.ran];
      } else {
        assert ss[..0] == [];
      }
    }
  }

  lemma AfterLoop(st: Stmt, k: Chk)
    requires LoopOk(k)
    ensures LoopOk(AfterK(st, k)) && AfterK(st, k).g == k.g
  {}

  /** What statements add to a scope: names, and defers in the innermost frame. */
  lemma {:induction false} AfterFacts(ss: seq<Stmt>, n: nat, k: Chk)
    requires OkStmts(ss, k) && n <= |ss| && k.defers != []
    ensures var kn := AfterAllK(ss[..n], k);
      && kn == k.(T := kn.T, defers := kn.defers) && (forall x :: x in k.T ==> x in kn.T && kn.T[x] == k.T[x])
      && kn.defers == k.defers[..|k.defers| - 1] + [k.defers[|k.defers| - 1] + DefersOf(ss[..n])]
    decreases ss
  {
    var i := |k.defers| - 1;
    if n == 0 {
      assert k.defers[i] + [] == k.defers[i] && k.defers == k.defers[..i] + [k.defers[i]];
    } else {
      AfterFacts(ss[1..], n - 1, AfterK(ss[0], k));
      assert ss[..n][1..] == ss[1..][..n - 1] && ss[..n][0] == ss[0];
      FrameGrows(ss[0], k);
      DefersJoin(ss[0], DefersOf(ss[1..][..n - 1]), k, AfterK(ss[0], k));
    }
  }

  lemma DefersJoin(st: Stmt, rest: seq<seq<Stmt>>, k: Chk, k1: Chk)
    requires k.defers != [] && var i := |k.defers| - 1;
      k1.defers == k.defers[..i] + [k.defers[i] + if st.Defer? then [st.body] else []]
    ensures var i := |k.defers| - 1; var own := if st.Defer? then [st.body] else [];
      k1.defers[..i] + [k1.defers[i] + rest] == k.defers[..i] + [k.defers[i] + (own + rest)]
  {
    var i := |k.defers| - 1;
    var own := if st.Defer? then [st.body] else [];
    assert (k.defers[i] + own) + rest == k.defers[i] + (own + rest);
  }

  lemma FrameGrows(st: Stmt, k: Chk)
    requires k.defers != []
    ensures var i := |k.defers| - 1;
      AfterK(st, k).defers == k.defers[..i] + [k.defers[i] + if st.Defer? then [st.body] else []]
  {
    var i := |k.defers| - 1;
    assert k.defers[i] + [] == k.defers[i] && k.defers == k.defers[..i] + [k.defers[i]];
  }

  /** A frame's bodies keep the variables' types, and end normally, halt or run on. */
  lemma {:induction false} FrameFits(o: Oracle, g: Sigs, frame: seq<seq<Stmt>>, k: Chk, env: Env, tr: seq<Event>,
          fuel: nat)
    requires k.inDefer && k.loop.None? && OkFrame(frame, k) && Typed(k.T, env) && k.g == g
    ensures var out := RunDefers(o, g, frame, env, tr, fuel);
      out.Halted? || out.OutOfFuel? || (out.Normal? && Typed(k.T, out.env))
    decreases fuel, FSize(frame), 0
  {
    if frame != [] {
      var i := |frame| - 1;
      var k1 := BlockFits(o, g, frame[i], k, env, tr, fuel);
      var out := ExecBlock(o, g, frame[i], env, tr, fuel);
      if out.Normal? { FrameFits(o, g, frame[..i], k, out.env, out.tr, fuel); }
    }
  }

  lemma {:induction false} BlockFits(o: Oracle, g: Sigs, ss: seq<Stmt>, k: Chk, env: Env, tr: seq<Event>, fuel: nat)
          returns (k1: Chk)
    requires OkBlock(ss, k) && Typed(k.T, env) && k.g == g && LoopOk(k)
    ensures Flow(k, k, ExecBlock(o, g, ss, env, tr, fuel), k1)
    decreases fuel, BSize(ss) + 1, 0
  {
    var kb := k.(defers := k.defers + [[]]);
    k1 := StmtsFit(o, g, ss, kb, env, tr, fuel);
    var r := ExecStmts(o, g, ss, env, tr, fuel);
    if !r.out.Halted? && !r.out.OutOfFuel? {
      DefersSize(ss[..r.ran]);
      PrefixSize(ss, r.ran);
      AfterFacts(ss, r.ran, kb);
      OpenFrame(k.defers, DefersOf(ss[..r.ran]));
      if r.out.Normal? { assert ss[..r.ran] == ss; }
      ClosesFit(o, g, ss, r.ran, k, AfterAllK(ss[..r.ran], kb), env, r.out, k1, fuel);
    }
  }

  /** The end of a scope: its defers run where it was left, and the names in it end. */
  lemma {:induction false} ClosesFit(o: Oracle, g: Sigs, ss: seq<Stmt>, n: nat, k: Chk, kn: Chk, env: Env, out: SO,
          k1: Chk, fuel: nat)
    requires Typed(k.T, env) && k.g == g && LoopOk(k) && n <= |ss| && !out.Halted? && !out.OutOfFuel?
    requires FSize(DefersOf(ss[..n])) <= BSize(ss) && Flow(kn, kn, out, k1)
    requires kn == k.(T := kn.T, defers := k.defers + [DefersOf(ss[..n])])
             && forall x :: x in k.T ==> x in kn.T && kn.T[x] == k.T[x]
    requires out.Normal? ==> OkFrame(DefersOf(ss[..n]), InDefer(kn.(defers := k.defers)))
    ensures var d := DefersOf(ss[..n]);
      Flow(k, k, AfterDefers(out, d, RunDefers(o, g, d, out.env, out.tr, fuel), env.Keys), k1)
    decreases fuel, BSize(ss) + 1, -1
  {
    var d := DefersOf(ss[..n]);
    if out.Normal? {
      FrameFits(o, g, d, InDefer(kn.(defers := k.defers)), out.env, out.tr, fuel);
    } else if out.Leaving? {
      FrameOf(k1.defers, InDefer(k1), |k.defers|);
      FrameFits(o, g, d, InDefer(k1), out.env, out.tr, fuel);
    } else {
      EmptyLast(k.defers, d, k.loop.value);
    }
  }

  lemma OpenFrame(frames: Frames, d: seq<seq<Stmt>>)
    ensures var all := frames + [[]]; all[..|all| - 1] + [all[|all| - 1] + d] == frames + [d]
  {
    assert [] + d == d;
  }

  lemma EmptyLast(frames: Frames, d: seq<seq<Stmt>>, l: nat)
    requires l <= |frames| && AllEmpty((frames + [d])[l..])
    ensures d == [] && AllEmpty(frames[l..])
  {
    var all := (frames + [d])[l..];
    assert all[|frames| - l] == d;
    assert forall i :: 0 <= i < |frames[l..]| ==> all[i] == frames[l..][i];
  }

  // --- functions ---------------------------------------------------------------------------------------

  lemma {:induction false} BindTyped(params: seq<Source.Param>, args: seq<nat>)
    requires |args| == |params| && forall i :: 0 <= i < |params| ==> !params[i].ty.NilT?
    ensures Typed(ParamTypes(params), Bind(params, args))
  {
    if params != [] {
      var i := |params| - 1;
      BindTyped(params[..i], args[..i]);
      EncDec(params[i].ty, Enc(Bits(params[i].ty), args[i]));
    }
  }

  /** A returned value is one of the function's type, an error code a word. */
  ghost predicate FitsFunc(f: Func, out: FO) {
    match out
    case Finished(Ok(v), _) => Fit(f.ret, v)
    case Finished(Err(code), _) => code < Pow2(32)
    case _ => true
  }

  lemma FinishFits(o: Oracle, g: Sigs, op: LeaveOp, env: Env, tr: seq<Event>, k: Chk)
    requires OpOk(op, k) && Typed(k.T, env) && k.g == g
    ensures FitsFunc(k.fn, Finish(o, g, op, env, tr))
  {
    Pow2Words();
    match op {
      case OkOp(Some(e)) => EvalFits(o, g, e, k.T, env, tr);
      case ExitOp(e) => EvalFits(o, g, e, k.T, env, tr);
      case FailOp(e) => EvalFits(o, g, e, k.T, env, tr);
      case _ =>
    }
  }

  lemma RunFits(o: Oracle, g: Sigs, f: Func, args: seq<nat>, fuel: nat)
    requires OkFunc(f, g) && |args| == |f.params|
    ensures FitsFunc(f, RunFunc(o, g, f, args, fuel))
  {
    Pow2Words();
    var k := Chk(ParamTypes(f.params), [[]], None, g, f, false);
    var env := Bind(f.params, args);
    BindTyped(f.params, args);
    var k1 := BlockFits(o, g, f.body, k, env, [], fuel);
    var out := ExecBlock(o, g, f.body, env, [], fuel);
    if out.Leaving? { FinishFits(o, g, out.op, out.env, out.tr, k1); }
  }

  // --- in numerals ----------------------------------------------------------------------------------------

  /** Every variable in scope holds a value of its type. */
  ghost predicate Kept(T: Types, env: Env) {
    forall x :: x in T ==> !T[x].NilT? && x in env && env[x].ty == T[x] && Spanned(T[x], env[x].v)
  }

  lemma KeptIs(T: Types, env: Env)
    ensures Kept(T, env) <==> Typed(T, env)
  {
    forall x | x in T && x in env ensures !T[x].NilT? ==> (Spanned(T[x], env[x].v) <==> InRange(T[x], env[x].v)) {
      FitIs(T[x], env[x].v);
    }
  }

  /** With variables that hold values of their types, a typed expression has a value of its own; a call's code, and
      a code relayed, are 32-bit. */
  lemma EvalInRange(o: Oracle, g: Sigs, e: Expr, T: Types, env: Env, tr: seq<Event>)
    requires Kept(T, env) && TypeOf(e, T, g).Some?
    ensures var r, t := Eval(o, g, e, env, tr), TypeOf(e, T, g).value;
      && (r.EV? && t.Sc? ==> r.val.S? && r.val.ty == t.ty && Spanned(t.ty, r.val.v))
      && (r.EV? && t.Rs? ==> r.val.R? && r.val.ty == t.ty && Spanned(t.ty, r.val.v) && r.val.code < 4294967296)
      && (r.ERelay? ==> r.code < 4294967296)
  {
    KeptIs(T, env);
    Pow2Words();
    EvalFits(o, g, e, T, env, tr);
    var r := Eval(o, g, e, env, tr);
    if r.EV? { FitIs(r.val.ty, r.val.v); }
  }

  /** What a leave answers, were its operand evaluated now. */
  ghost predicate InRangeAt(o: Oracle, g: Sigs, f: Func, op: LeaveOp, env: Env) {
    forall tr :: AnswersInRange(f, Finish(o, g, op, env, tr))
  }

  ghost predicate AnswersInRange(f: Func, out: FO) {
    match out
    case Finished(Ok(v), _) => Spanned(f.ret, v)
    case Finished(Err(code), _) => code < 4294967296
    case _ => true
  }

  /** The variables hold values of their types at an outcome; `kn` is the scope after a normal end. */
  ghost predicate KeptAfter(o: Oracle, g: Sigs, k: Chk, kn: Chk, out: SO) {
    match out
    case Normal(env, _) => Kept(kn.T, env)
    case Broke(env, _) => Kept(k.T, env)
    case Continued(env, _) => Kept(k.T, env)
    case Leaving(op, env, _, _) => InRangeAt(o, g, k.fn, op, env)
    case _ => true
  }

  lemma InNumerals(f: Func, out: FO)
    ensures FitsFunc(f, out) <==> AnswersInRange(f, out)
  {
    Pow2Words();
    if out.Finished? && out.ret.Ok? { FitIs(f.ret, out.ret.v); }
  }

  lemma LeftInRange(o: Oracle, g: Sigs, op: LeaveOp, env: Env, k: Chk)
    requires OpOk(op, k) && Typed(k.T, env) && k.g == g
    ensures InRangeAt(o, g, k.fn, op, env)
  {
    forall tr ensures AnswersInRange(k.fn, Finish(o, g, op, env, tr)) {
      FinishFits(o, g, op, env, tr, k);
      InNumerals(k.fn, Finish(o, g, op, env, tr));
    }
  }

  /** Statements keep that so, whatever way they end, for every statement of a regular function. */
  lemma ExecInRange(o: Oracle, g: Sigs, st: Stmt, k: Chk, env: Env, tr: seq<Event>, fuel: nat)
    requires OkStmt(st, k) && Kept(k.T, env) && k.g == g && (k.loop.Some? ==> k.loop.value <= |k.defers|)
    ensures KeptAfter(o, g, k, AfterK(st, k), Exec(o, g, st, env, tr, fuel))
  {
    KeptIs(k.T, env);
    var k1 := ExecFits(o, g, st, k, env, tr, fuel);
    var out := Exec(o, g, st, env, tr, fuel);
    match out {
      case Normal(env1, _) => KeptIs(AfterK(st, k).T, env1);
      case Broke(env1, _) => KeptIs(k.T, env1);
      case Continued(env1, _) => KeptIs(k.T, env1);
      case Leaving(op, env1, _, _) => LeftInRange(o, g, op, env1, k1);
      case _ =>
    }
  }

  /** Whatever it is called with and whatever its calls answer, a regular function answers a value of its type, or a
      32-bit code. */
  lemma RunInRange(o: Oracle, g: Sigs, f: Func, args: seq<nat>, fuel: nat)
    requires OkFunc(f, g) && |args| == |f.params|
    ensures AnswersInRange(f, RunFunc(o, g, f, args, fuel))
  {
    RunFits(o, g, f, args, fuel);
    InNumerals(f, RunFunc(o, g, f, args, fuel));
  }

  // --- slots --------------------------------------------------------------------------------------------

  lemma WideIs(ty: Ty)
    ensures Bits(ty) == Wide(ty)
  {}

  /** Each parameter's slot is as wide as its type, and takes the parameter. */
  lemma {:induction false} ParamSlots(params: seq<Source.Param>, i: nat, c: Ctx, s: Out)
    requires i <= |params|
    ensures var (s1, c1) := CParams(params, i, c, s);
      && |s1.head| == |s.head| + (|params| - i) && |s1.body| == |s.body| + (|params| - i)
      && s.head <= s1.head && s.body <= s1.body
      && forall j :: i <= j < |params| ==>
           var slot, w := s.n + 1 + (j - i), Wide(params[j].ty);
           s1.head[|s.head| + (j - i)] == Alloca(slot, w)
           && s1.body[|s.body| + (j - i)] == Store(w, Target.Param(j), slot)
    decreases |params| - i
  {
    if i < |params| {
      var slot, ty := s.n + 1, params[i].ty;
      WideIs(ty);
      ParamSlots(params, i + 1, c.(locals := c.locals[params[i].name := Local(slot, ty)]),
                 W(AllocaAt(Tmp(s), slot, Bits(ty)), Store(Bits(ty), Target.Param(i), slot)));
    }
  }

  /** A declaration's slot is as wide as its type, and is the one the name stands for afterwards. */
  lemma DeclSlot(x: string, ty: Ty, e: Expr, c: Ctx, s: Out)
    ensures var st := VarDecl(x, ty, e); var s1, l := CStmt(st, c, s), After(st, c, s).locals[x];
      && l == Local(s.n + 1, ty) && |s.head| < |s1.head| && s1.head[|s.head|] == Alloca(l.slot, Wide(ty))
      && s1.body != [] && s1.body[|s1.body| - 1].Store?
      && s1.body[|s1.body| - 1].w == Wide(ty) && s1.body[|s1.body| - 1].slot == l.slot
  {
    WideIs(ty);
    var a := AllocaAt(Tmp(s), s.n + 1, Bits(ty));
    assert Ext(a, CExpr(e, c, a).0);
    assert a.head[|s.head|] == Alloca(s.n + 1, Bits(ty));
  }
}
