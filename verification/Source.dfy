/** Subset 1 as the seed lowers it: trees, the checker's types, and what a function means. */
module Source {
  import opened Words

  datatype ResOp = Raw | Drop | Relay

  datatype Expr =
    | IntLit(value: int, ity: Ty)
    | BoolLit(b: bool)
    | NilLit
    | Var(name: string)
    | Unary(uop: UnOp, operand: Expr)
    | Arith(aop: BinOp, lhs: Expr, rhs: Expr)
    | Compare(cop: CmpOp, lhs: Expr, rhs: Expr)
    | Logic(isOr: bool, lhs: Expr, rhs: Expr)
    | Call(callee: string, args: seq<Expr>)
    | ResultOf(rop: ResOp, operand: Expr)
    | Emphatic(operand: Expr, code: Expr)      // e ?! code
    | SafeUnwrap(operand: Expr, dflt: Expr)    // e ?| default

  datatype Arm = Arm(pat: Option<int>, body: seq<Stmt>)   // None is the wildcard (*)

  datatype Stmt =
    | Block(body: seq<Stmt>)
    | VarDecl(name: string, ty: Ty, init: Expr)
    | Assign(name: string, op: Option<BinOp>, value: Expr)
    | ExprStmt(e: Expr)
    | If(cond: Expr, thn: seq<Stmt>, els: Option<Stmt>)
    | While(cond: Expr, body: seq<Stmt>)
    | Pick(sel: Expr, arms: seq<Arm>)
    | Pass(result: Option<Expr>)               // and `return`, which is lowered alike
    | Fail(error: Expr)
    | Exit(status: Expr)
    | Trap(error: Expr)
    | Defer(body: seq<Stmt>)
    | Break
    | Continue

  /** A callee's types; every callee answers Result<ret>. */
  datatype Sig = Sig(params: seq<Ty>, ret: Ty)
  type Sigs = map<string, Sig>

  datatype Param = Param(name: string, ty: Ty)

  /** `main` and `failsafe` are bare: they answer their value without a Result. */
  datatype Func = Func(params: seq<Param>, ret: Ty, bare: bool, body: seq<Stmt>)

  // --- sizes ------------------------------------------------------------------

  function ESize(e: Expr): nat {
    1 + match e
    case Unary(_, a) => ESize(a)
    case Arith(_, a, b) => ESize(a) + ESize(b)
    case Compare(_, a, b) => ESize(a) + ESize(b)
    case Logic(_, a, b) => ESize(a) + ESize(b)
    case Call(_, args) => ESizes(args)
    case ResultOf(_, a) => ESize(a)
    case Emphatic(a, b) => ESize(a) + ESize(b)
    case SafeUnwrap(a, b) => ESize(a) + ESize(b)
    case _ => 0
  }

  function ESizes(es: seq<Expr>): nat {
    if es == [] then 0 else 1 + ESize(es[0]) + ESizes(es[1..])
  }

  function SSize(st: Stmt): nat {
    4 + match st
    case Block(b) => BSize(b)
    case VarDecl(_, _, e) => ESize(e)
    case Assign(_, _, e) => ESize(e)
    case ExprStmt(e) => ESize(e)
    case If(e, t, els) => ESize(e) + BSize(t) + (if els.Some? then SSize(els.value) else 0)
    case While(e, b) => ESize(e) + BSize(b)
    case Pick(e, arms) => ESize(e) + ASize(arms)
    case Pass(r) => if r.Some? then ESize(r.value) else 0
    case Fail(e) => ESize(e)
    case Exit(e) => ESize(e)
    case Trap(e) => ESize(e)
    case Defer(b) => BSize(b)
    case _ => 0
  }

  function BSize(ss: seq<Stmt>): nat {
    if ss == [] then 0 else SSize(ss[0]) + BSize(ss[1..])
  }

  function ASize(arms: seq<Arm>): nat {
    if arms == [] then 0 else 2 + BSize(arms[0].body) + ASize(arms[1..])
  }

  /** The bodies a statement list registers with `defer`, in order. */
  function DefersOf(ss: seq<Stmt>): seq<seq<Stmt>> {
    if ss == [] then []
    else (if ss[0].Defer? then [ss[0].body] else []) + DefersOf(ss[1..])
  }

  function FSize(frame: seq<seq<Stmt>>): nat {
    if frame == [] then 0 else FSize(frame[..|frame| - 1]) + BSize(frame[|frame| - 1]) + 2
  }

  lemma {:induction false} FSizeCons(b: seq<Stmt>, rest: seq<seq<Stmt>>)
    ensures FSize([b] + rest) == BSize(b) + 2 + FSize(rest)
  {
    var f := [b] + rest;
    if rest == [] {
      assert f[..0] == [];
    } else {
      FSizeCons(b, rest[..|rest| - 1]);
      assert f[..|f| - 1] == [b] + rest[..|rest| - 1];
    }
  }

  lemma {:induction false} DefersSize(ss: seq<Stmt>)
    ensures FSize(DefersOf(ss)) <= BSize(ss)
  {
    if ss != [] {
      DefersSize(ss[1..]);
      if ss[0].Defer? {
        FSizeCons(ss[0].body, DefersOf(ss[1..]));
      } else {
        assert DefersOf(ss) == DefersOf(ss[1..]);
      }
    }
  }

  lemma {:induction false} PrefixSize(ss: seq<Stmt>, i: nat)
    requires i <= |ss|
    ensures BSize(ss[..i]) <= BSize(ss)
  {
    if i > 0 {
      PrefixSize(ss[1..], i - 1);
      assert ss[..i][1..] == ss[1..][..i - 1];
    }
  }

  function ArmAt(arms: seq<Arm>, i: nat): (b: seq<Stmt>)
    requires i < |arms|
    ensures BSize(b) < ASize(arms)
  {
    if i == 0 then arms[0].body else ArmAt(arms[1..], i - 1)
  }

  // --- the checker's types (check.py, type_of) --------------------------------

  datatype XTy = Sc(ty: Ty) | Rs(ty: Ty)     // a scalar, or Result of one
  type Types = map<string, Ty>

  predicate ScalarX(t: Option<XTy>) {
    t.Some? && t.value.Sc? && !t.value.ty.NilT?
  }

  function TypeOf(e: Expr, T: Types, g: Sigs): Option<XTy>
    decreases e
  {
    match e
    case IntLit(_, ty) => if ty.IntT? then Some(Sc(ty)) else None
    case BoolLit(_) => Some(Sc(BoolT))
    case NilLit => Some(Sc(NilT))
    case Var(x) => if x in T && !T[x].NilT? then Some(Sc(T[x])) else None
    case Unary(op, a) =>
      var t := TypeOf(a, T, g);
      if !ScalarX(t) then None
      else if op.Not? then Some(Sc(BoolT))
      else if t.value.ty.IntT? then t else None
    case Arith(_, a, b) =>
      var t := TypeOf(a, T, g);
      if ScalarX(t) && t.value.ty.IntT? && TypeOf(b, T, g) == t then t else None
    case Compare(_, a, b) =>
      var t := TypeOf(a, T, g);
      if ScalarX(t) && TypeOf(b, T, g) == t then Some(Sc(BoolT)) else None
    case Logic(_, a, b) =>
      if ScalarX(TypeOf(a, T, g)) && ScalarX(TypeOf(b, T, g)) then Some(Sc(BoolT)) else None
    case Call(f, args) =>
      if f in g && ArgsTyped(args, g[f].params, T, g) then Some(Rs(g[f].ret)) else None
    case ResultOf(op, a) =>
      var t := TypeOf(a, T, g);
      if t.None? then None
      else if op.Drop? then Some(Sc(NilT)) else Some(Sc(t.value.ty))
    case Emphatic(a, c) =>
      var t := TypeOf(a, T, g);
      if t.None? || TypeOf(c, T, g) != Some(Sc(ERROR_CODE)) then None else Some(Sc(t.value.ty))
    case SafeUnwrap(a, d) =>
      var t := TypeOf(a, T, g);
      if t.None? || TypeOf(d, T, g) != Some(Sc(t.value.ty)) then None else Some(Sc(t.value.ty))
  }

  predicate ArgsTyped(args: seq<Expr>, params: seq<Ty>, T: Types, g: Sigs)
    decreases args
  {
    |args| == |params| &&
    (args == [] ||
     (TypeOf(args[0], T, g) == Some(Sc(params[0])) && !params[0].NilT? && ArgsTyped(args[1..], params[1..], T, g)))
  }

  // --- meaning ------------------------------------------------------------------

  /** A call as the outside sees it: the callee and the machine words passed. */
  datatype Event = Called(callee: string, args: seq<nat>)

  /** What the outside answers a call with, as a function of everything called so far. */
  datatype Reply = Reply(bits: nat, code: nat)
  type Oracle = seq<Event> -> Reply

  /** A run that ends without returning: the process exits, or the operation has no meaning. */
  datatype Halt = Exited(status: nat, tr: seq<Event>) | Undefined(tr: seq<Event>)

  datatype TV = TV(ty: Ty, v: int)
  type Env = map<string, TV>

  datatype Val = S(ty: Ty, v: int) | R(ty: Ty, v: int, code: nat)
  datatype EO = EV(val: Val, tr: seq<Event>) | ERelay(code: nat, tr: seq<Event>) | EHalt(h: Halt)
  datatype AO = AV(vals: seq<TV>, tr: seq<Event>) | AStop(out: EO)

  /** A trap hands the code to `failsafe` and exits with its answer; no defer runs (D-014). */
  function Failsafe(o: Oracle, code: nat, tr: seq<Event>): Halt {
    var tr' := tr + [Called("failsafe", [code])];
    Exited(Enc(32, o(tr').bits), tr')
  }

  function CallVal(o: Oracle, ret: Ty, tr: seq<Event>): Val {
    R(ret, if ret.NilT? then 0 else Dec(ret, Enc(Bits(ret), o(tr).bits)), Enc(32, o(tr).code))
  }

  function ArgWords(vals: seq<TV>): seq<nat> {
    if vals == [] then [] else [Enc(Bits(vals[0].ty), vals[0].v)] + ArgWords(vals[1..])
  }

  // What each operator makes of its operands' values.

  function SUnary(op: UnOp, x: Val, tr: seq<Event>): EO {
    if x.R? then EHalt(Undefined(tr)) else EV(S(if op.Not? then BoolT else x.ty, SUn(op, x.ty, x.v)), tr)
  }

  function SArith(op: BinOp, x: Val, y: Val, tr: seq<Event>): EO {
    var r := SBin(op, x.ty, x.v, y.v);
    if r.Some? then EV(S(x.ty, r.value), tr) else EHalt(Undefined(tr))
  }

  function SBool(b: bool): Val {
    S(BoolT, if b then 1 else 0)
  }

  function SCall(o: Oracle, g: Sigs, f: string, vals: seq<TV>, tr: seq<Event>): EO {
    var tr1 := tr + [Called(f, ArgWords(vals))];
    if f in g then EV(CallVal(o, g[f].ret, tr1), tr1) else EHalt(Undefined(tr))
  }

  function SResult(op: ResOp, x: Val, tr: seq<Event>): EO {
    if op.Drop? then EV(S(NilT, 0), tr)
    else if op.Relay? && x.R? && x.code != 0 then ERelay(x.code, tr)
    else EV(S(x.ty, x.v), tr)
  }

  predicate IsError(x: Val) {
    x.R? && x.code != 0
  }

  function Eval(o: Oracle, g: Sigs, e: Expr, env: Env, tr: seq<Event>): EO
    decreases e
  {
    match e
    case IntLit(v, ty) => EV(S(ty, Wrap(ty, v)), tr)
    case BoolLit(b) => EV(SBool(b), tr)
    case NilLit => EV(S(NilT, 0), tr)
    case Var(x) => if x in env then EV(S(env[x].ty, env[x].v), tr) else EHalt(Undefined(tr))
    case Unary(op, a) =>
      var r := Eval(o, g, a, env, tr);
      if r.EV? then SUnary(op, r.val, r.tr) else r
    case Arith(op, a, b) =>
      var r := Eval(o, g, a, env, tr);
      if !r.EV? then r
      else
        var r1 := Eval(o, g, b, env, r.tr);
        if r1.EV? then SArith(op, r.val, r1.val, r1.tr) else r1
    case Compare(op, a, b) =>
      var r := Eval(o, g, a, env, tr);
      if !r.EV? then r
      else
        var r1 := Eval(o, g, b, env, r.tr);
        if r1.EV? then EV(SBool(SCmp(op, r.val.v, r1.val.v)), r1.tr) else r1
    case Logic(isOr, a, b) =>
      var r := Eval(o, g, a, env, tr);
      if !r.EV? then r
      else if (r.val.v != 0) == isOr then EV(SBool(isOr), r.tr)
      else
        var r1 := Eval(o, g, b, env, r.tr);
        if r1.EV? then EV(SBool(r1.val.v != 0), r1.tr) else r1
    case Call(f, args) =>
      var r := EvalArgs(o, g, args, env, tr);
      if r.AV? then SCall(o, g, f, r.vals, r.tr) else r.out
    case ResultOf(op, a) =>
      var r := Eval(o, g, a, env, tr);
      if r.EV? then SResult(op, r.val, r.tr) else r
    case Emphatic(a, k) =>
      var r := Eval(o, g, a, env, tr);
      if !r.EV? then r
      else if !IsError(r.val) then EV(S(r.val.ty, r.val.v), r.tr)
      else
        var r1 := Eval(o, g, k, env, r.tr);
        if r1.EV? then EHalt(Failsafe(o, Enc(32, r1.val.v), r1.tr)) else r1
    case SafeUnwrap(a, d) =>
      // The fallback is evaluated on the error path only; for a Result<NIL> it is not lowered at all.
      var r := Eval(o, g, a, env, tr);
      if !r.EV? then r
      else if !IsError(r.val) || r.val.ty.NilT? then EV(S(r.val.ty, r.val.v), r.tr)
      else
        var r1 := Eval(o, g, d, env, r.tr);
        if r1.EV? then EV(S(r1.val.ty, r1.val.v), r1.tr) else r1
  }

  function EvalArgs(o: Oracle, g: Sigs, args: seq<Expr>, env: Env, tr: seq<Event>): (r: AO)
    ensures r.AStop? ==> !r.out.EV?
    decreases args
  {
    if args == [] then AV([], tr)
    else
      var r := Eval(o, g, args[0], env, tr);
      if !r.EV? then AStop(r)
      else
        var rs := EvalArgs(o, g, args[1..], env, r.tr);
        if rs.AV? then AV([TV(r.val.ty, r.val.v)] + rs.vals, rs.tr) else rs
  }

  /** How a function is left; the operand is evaluated after every open scope has run its defers. */
  datatype LeaveOp = OkOp(result: Option<Expr>) | FailOp(error: Expr) | ExitOp(status: Expr) | RelayOp(code: nat)

  /** Defer bodies, frame by frame, innermost last. */
  type Frames = seq<seq<seq<Stmt>>>

  /** A statement's outcome; a leave keeps the frames of the scopes it has left, whose defers have run. Out of
      fuel, it still has the calls made so far. */
  datatype SO =
    | Normal(env: Env, tr: seq<Event>)
    | Broke(env: Env, tr: seq<Event>)
    | Continued(env: Env, tr: seq<Event>)
    | Leaving(op: LeaveOp, env: Env, tr: seq<Event>, left: Frames)
    | Halted(h: Halt)
    | OutOfFuel(tr: seq<Event>)

  /** A statement list's outcome, and how many of its statements completed. */
  datatype LO = LO(out: SO, ran: nat)

  function Restrict(env: Env, names: set<string>): Env {
    map x | x in env && x in names :: env[x]
  }

  function Stopped(out: EO, env: Env): SO
    requires !out.EV?
  {
    match out
    case ERelay(code, tr) => Leaving(RelayOp(code), env, tr, [])
    case EHalt(h) => Halted(h)
  }

  /** The arm a selector takes: the first literal with its pattern, else the last wildcard, else none. */
  function ChosenArm(arms: seq<Arm>, ty: Ty, v: int): (i: Option<nat>)
    ensures i.Some? ==> i.value < |arms|
  {
    var lit := LiteralArm(arms, ty, v);
    if lit.Some? then lit else WildArm(arms)
  }

  function LiteralArm(arms: seq<Arm>, ty: Ty, v: int): (i: Option<nat>)
    ensures i.Some? ==> i.value < |arms|
  {
    if arms == [] then None
    else if arms[0].pat.Some? && Enc(Bits(ty), arms[0].pat.value) == Enc(Bits(ty), v) then Some(0)
    else
      var r := LiteralArm(arms[1..], ty, v);
      if r.Some? then Some(r.value + 1) else None
  }

  function WildArm(arms: seq<Arm>): (i: Option<nat>)
    ensures i.Some? ==> i.value < |arms| && arms[i.value].pat.None?
  {
    if arms == [] then None
    else if arms[|arms| - 1].pat.None? then Some(|arms| - 1)
    else WildArm(arms[..|arms| - 1])
  }

  function Exec(o: Oracle, g: Sigs, st: Stmt, env: Env, tr: seq<Event>, fuel: nat): SO
    decreases fuel, SSize(st), 0
  {
    match st
    case Block(b) => ExecBlock(o, g, b, env, tr, fuel)
    case VarDecl(x, _, e) =>
      var r := Eval(o, g, e, env, tr);
      if r.EV? then Normal(env[x := TV(r.val.ty, r.val.v)], r.tr) else Stopped(r, env)
    case Assign(x, op, e) =>
      var r := Eval(o, g, e, env, tr);
      if r.EV? then Assigned(x, op, r.val, env, r.tr) else Stopped(r, env)
    case ExprStmt(e) =>
      var r := Eval(o, g, e, env, tr);
      if r.EV? then Normal(env, r.tr) else Stopped(r, env)
    case If(c, t, els) =>
      var r := Eval(o, g, c, env, tr);
      if !r.EV? then Stopped(r, env)
      else if r.val.v != 0 then ExecBlock(o, g, t, env, r.tr, fuel)
      else if els.Some? then Exec(o, g, els.value, env, r.tr, fuel)
      else Normal(env, r.tr)
    case While(c, b) =>
      if fuel == 0 then OutOfFuel(tr)
      else
        var r := Eval(o, g, c, env, tr);
        if !r.EV? then Stopped(r, env)
        else if r.val.v == 0 then Normal(env, r.tr)
        else
          var body := ExecBlock(o, g, b, env, r.tr, fuel - 1);
          if body.Normal? || body.Continued? then Exec(o, g, st, body.env, body.tr, fuel - 1)
          else if body.Broke? then Normal(body.env, body.tr)
          else body
    case Pick(e, arms) =>
      var r := Eval(o, g, e, env, tr);
      if !r.EV? then Stopped(r, env)
      else
        var i := ChosenArm(arms, r.val.ty, r.val.v);
        if i.Some? then ExecBlock(o, g, ArmAt(arms, i.value), env, r.tr, fuel) else Normal(env, r.tr)
    case Pass(r) => Leaving(OkOp(r), env, tr, [])
    case Fail(e) => Leaving(FailOp(e), env, tr, [])
    case Exit(e) => Leaving(ExitOp(e), env, tr, [])
    case Trap(e) =>
      var r := Eval(o, g, e, env, tr);
      if r.EV? then Halted(Failsafe(o, Enc(32, r.val.v), r.tr)) else Stopped(r, env)
    case Defer(_) => Normal(env, tr)
    case Break => Broke(env, tr)
    case Continue => Continued(env, tr)
  }

  function Assigned(x: string, op: Option<BinOp>, v: Val, env: Env, tr: seq<Event>): SO {
    if x !in env then Halted(Undefined(tr))
    else if op.None? then Normal(env[x := TV(v.ty, v.v)], tr)
    else
      var r := SBin(op.value, env[x].ty, env[x].v, v.v);
      if r.Some? then Normal(env[x := TV(env[x].ty, r.value)], tr) else Halted(Undefined(tr))
  }

  function ExecStmts(o: Oracle, g: Sigs, ss: seq<Stmt>, env: Env, tr: seq<Event>, fuel: nat): (r: LO)
    ensures r.ran <= |ss|
    decreases fuel, BSize(ss), 1
  {
    if ss == [] then LO(Normal(env, tr), 0)
    else
      var out := Exec(o, g, ss[0], env, tr, fuel);
      if !out.Normal? then LO(out, 0)
      else
        var r := ExecStmts(o, g, ss[1..], out.env, out.tr, fuel);
        LO(r.out, r.ran + 1)
  }

  /** The defers of one scope, latest first. */
  function RunDefers(o: Oracle, g: Sigs, frame: seq<seq<Stmt>>, env: Env, tr: seq<Event>, fuel: nat): SO
    decreases fuel, FSize(frame), 0
  {
    if frame == [] then Normal(env, tr)
    else
      var out := ExecBlock(o, g, frame[|frame| - 1], env, tr, fuel);
      if out.Normal? then RunDefers(o, g, frame[..|frame| - 1], out.env, out.tr, fuel) else out
  }

  /** A scope: its statements, then on every normal exit from it the defers that were registered, and its names end. */
  function ExecBlock(o: Oracle, g: Sigs, ss: seq<Stmt>, env: Env, tr: seq<Event>, fuel: nat): SO
    decreases fuel, BSize(ss) + 1, 0
  {
    var r := ExecStmts(o, g, ss, env, tr, fuel);
    if r.out.Halted? || r.out.OutOfFuel? then r.out
    else
      assert FSize(DefersOf(ss[..r.ran])) <= BSize(ss) by { DefersSize(ss[..r.ran]); PrefixSize(ss, r.ran); }
      AfterDefers(r.out, DefersOf(ss[..r.ran]), RunDefers(o, g, DefersOf(ss[..r.ran]), r.out.env, r.out.tr, fuel),
          env.Keys)
  }

  /** The exit `out` of a scope goes on once its defers have run to the end; `names` are those visible outside. */
  function AfterDefers(out: SO, frame: seq<seq<Stmt>>, ran: SO, names: set<string>): SO
    requires !out.Halted? && !out.OutOfFuel?
  {
    if !ran.Normal? then ran
    else
      match out
      case Normal(_, _) => Normal(Restrict(ran.env, names), ran.tr)
      case Broke(_, _) => Broke(Restrict(ran.env, names), ran.tr)
      case Continued(_, _) => Continued(Restrict(ran.env, names), ran.tr)
      case Leaving(op, _, _, left) => Leaving(op, ran.env, ran.tr, [frame] + left)
  }

  /** What a call of the function answers: a value, or an error code. */
  datatype Ret = Ok(v: int) | Err(code: nat)
  datatype FO = Finished(ret: Ret, tr: seq<Event>) | FHalted(h: Halt) | FOutOfFuel(tr: seq<Event>)

  /** The operand of the leaving statement, evaluated last. */
  function Finish(o: Oracle, g: Sigs, op: LeaveOp, env: Env, tr: seq<Event>): FO {
    match op
    case OkOp(None) => Finished(Ok(0), tr)
    case OkOp(Some(e)) => FinishWith(Eval(o, g, e, env, tr), false)
    case ExitOp(e) => FinishWith(Eval(o, g, e, env, tr), false)
    case FailOp(e) => FinishWith(Eval(o, g, e, env, tr), true)
    case RelayOp(code) => Finished(Err(code), tr)
  }

  function FinishWith(out: EO, fails: bool): FO {
    match out
    case EV(x, tr) => if fails then Finished(Err(Enc(32, x.v)), tr) else Finished(Ok(x.v), tr)
    case ERelay(code, tr) => Finished(Err(code), tr)
    case EHalt(h) => FHalted(h)
  }

  function Bind(params: seq<Param>, args: seq<nat>): Env
    requires |args| == |params|
  {
    if params == [] then map[]
    else
      var i := |params| - 1;
      Bind(params[..i], args[..i])[params[i].name := TV(params[i].ty,
          Dec(params[i].ty, Enc(Bits(params[i].ty), args[i])))]
  }

  function RunFunc(o: Oracle, g: Sigs, f: Func, args: seq<nat>, fuel: nat): FO
    requires |args| == |f.params|
  {
    match ExecBlock(o, g, f.body, Bind(f.params, args), [], fuel)
    case Normal(_, tr) => Finished(Ok(0), tr)    // falling off the end answers zero
    case Leaving(op, env, tr, _) => Finish(o, g, op, env, tr)
    case Halted(h) => FHalted(h)
    case OutOfFuel(tr) => FOutOfFuel(tr)
    case Broke(_, tr) => FHalted(Undefined(tr))
    case Continued(_, tr) => FHalted(Undefined(tr))
  }

  // --- what the emitter makes of a leave ------------------------------------------

  /** The defers of some frames, innermost frame first. */
  function RunFrames(o: Oracle, g: Sigs, frames: Frames, env: Env, tr: seq<Event>, fuel: nat): SO
    decreases |frames|
  {
    if frames == [] then Normal(env, tr)
    else
      var out := RunDefers(o, g, frames[|frames| - 1], env, tr, fuel);
      if out.Normal? then RunFrames(o, g, frames[..|frames| - 1], out.env, out.tr, fuel) else out
  }

  /** The leave as emitted: a relay in its operand finds the frames still in place, and runs their defers once more. */
  function FinishLowered(o: Oracle, g: Sigs, op: LeaveOp, frames: Frames, env: Env, tr: seq<Event>, fuel: nat): FO {
    match op
    case OkOp(None) => Finished(Ok(0), tr)
    case OkOp(Some(e)) => LateWith(o, g, Eval(o, g, e, env, tr), frames, env, false, fuel)
    case ExitOp(e) => LateWith(o, g, Eval(o, g, e, env, tr), frames, env, false, fuel)
    case FailOp(e) => LateWith(o, g, Eval(o, g, e, env, tr), frames, env, true, fuel)
    case RelayOp(code) => Finished(Err(code), tr)
  }

  function LateWith(o: Oracle, g: Sigs, out: EO, frames: Frames, env: Env, fails: bool, fuel: nat): FO {
    if out.ERelay? then Relayed(RunFrames(o, g, frames, env, out.tr, fuel), out.code) else FinishWith(out, fails)
  }

  /** The relayed code, once the second run of the defers has ended. */
  function Relayed(ran: SO, code: nat): FO {
    match ran
    case Normal(_, tr) => Finished(Err(code), tr)
    case Halted(h) => FHalted(h)
    case _ => FOutOfFuel(ran.tr)
  }

  /** A function as emitted; `late` is the fuel of that second run. */
  function RunLowered(o: Oracle, g: Sigs, f: Func, args: seq<nat>, fuel: nat, late: nat): FO
    requires |args| == |f.params|
  {
    match ExecBlock(o, g, f.body, Bind(f.params, args), [], fuel)
    case Leaving(op, env, tr, left) => FinishLowered(o, g, op, left, env, tr, late)
    case _ => RunFunc(o, g, f, args, fuel)
  }
}
