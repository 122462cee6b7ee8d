/** The frame of the statement simulation: what a statement's lines must do for each outcome, and how runs compose. */
module SimFlow {
  import opened Words
  import opened Source
  import opened Target
  import opened Lowering
  import opened Checked
  import opened SimBase
  import opened SimExpr

  /** The lowering, meaning and checking of statements, again as values. */
  datatype Sts = Sts(
    block: (seq<Stmt>, Ctx, Out) -> Out,
    stmts: (seq<Stmt>, Ctx, Out) -> (Out, Ctx),
    stmt: (Stmt, Ctx, Out) -> Out,
    defers: (seq<seq<Stmt>>, Ctx, Out) -> Out,
    unwind: (seq<seq<seq<Stmt>>>, Leave, Ctx, Out) -> Out,
    exec: (Stmt, Env, seq<Event>, nat) -> SO,
    execs: (seq<Stmt>, Env, seq<Event>, nat) -> LO,
    scope: (seq<Stmt>, Env, seq<Event>, nat) -> SO,
    run: (seq<seq<Stmt>>, Env, seq<Event>, nat) -> SO,
    okExpr: (Expr, Chk) -> bool,
    okStmt: (Stmt, Chk) -> bool,
    okStmts: (seq<Stmt>, Chk) -> bool,
    okBlock: (seq<Stmt>, Chk) -> bool,
    okFrame: (seq<seq<Stmt>>, Chk) -> bool,
    okUnwind: (seq<seq<seq<Stmt>>>, Leave, Ctx) -> bool)

  ghost predicate GenuineOut(t: Sts) {
    && (forall ss, c, s {:trigger CBlock(ss, c, s)} :: t.block(ss, c, s) == CBlock(ss, c, s))
    && (forall ss, c, s {:trigger CStmts(ss, c, s)} :: t.stmts(ss, c, s) == CStmts(ss, c, s))
    && (forall st, c, s {:trigger CStmt(st, c, s)} :: t.stmt(st, c, s) == CStmt(st, c, s))
    && (forall f, c, s {:trigger CDefers(f, c, s)} :: t.defers(f, c, s) == CDefers(f, c, s))
    && (forall fs, m, c, s {:trigger CUnwind(fs, m, c, s)} :: t.unwind(fs, m, c, s) == CUnwind(fs, m, c, s))
  }

  ghost predicate GenuineRun(Z: Site, t: Sts) {
    var o, g := Z.w.o, Z.g;
    && (forall st, env, tr, k {:trigger Exec(o, g, st, env, tr, k)} ::
       t.exec(st, env, tr, k) == Exec(o, g, st, env, tr, k))
    && (forall ss, env, tr, k {:trigger ExecStmts(o, g, ss, env, tr, k)} ::
       t.execs(ss, env, tr, k) == ExecStmts(o, g, ss, env, tr, k))
    && (forall ss, env, tr, k {:trigger ExecBlock(o, g, ss, env, tr, k)} ::
       t.scope(ss, env, tr, k) == ExecBlock(o, g, ss, env, tr, k))
    && (forall f, env, tr, k {:trigger RunDefers(o, g, f, env, tr, k)} ::
       t.run(f, env, tr, k) == RunDefers(o, g, f, env, tr, k))
  }

  ghost predicate GenuineOk(t: Sts) {
    && (forall e, k {:trigger OkExpr(e, k)} :: t.okExpr(e, k) == OkExpr(e, k))
    && (forall st, k {:trigger OkStmt(st, k)} :: t.okStmt(st, k) == OkStmt(st, k))
    && (forall ss, k {:trigger OkStmts(ss, k)} :: t.okStmts(ss, k) == OkStmts(ss, k))
    && (forall ss, k {:trigger OkBlock(ss, k)} :: t.okBlock(ss, k) == OkBlock(ss, k))
    && (forall f, k: Chk {:trigger OkFrame(f, k)} :: k.inDefer ==> t.okFrame(f, k) == OkFrame(f, k))
    && (forall fs, m, c {:trigger OkUnwind(fs, m, c)} :: t.okUnwind(fs, m, c) == OkUnwind(fs, m, c))
  }

  ghost predicate Real(Z: Site, t: Sts) {
    Sound(Z) && Genuine(Z) && GenuineOut(t) && GenuineRun(Z, t) && GenuineOk(t)
  }

  /** A run between statements: registers up to `n` and the shape of memory are kept. */
  ghost predicate Went(Z: Site, n: nat, cfg: Cfg, k: nat, cfg1: Cfg) {
    Steps(Z.f.step, cfg, k) == Run(cfg1) && KeepRegs(n, cfg, cfg1) && SameShape(cfg.mem, cfg1.mem)
  }

  /** At an output, in a scope. */
  ghost predicate In(Z: Site, c: Ctx, s: Out, env: Env, tr: seq<Event>, cfg: Cfg) {
    && c.g == Z.g && !s.terminated && At(Z, s, cfg) && cfg.tr == tr
    && Rel(env, c.locals, cfg.mem) && LocalsOk(c.locals, s.n) && MemHas(Z.H, cfg.mem)
  }

  /** The innermost loop: how many defer frames were open at it, and where its two labels stand. */
  datatype Around = Around(loop: Option<nat>, head: nat, done: nat)

  ghost predicate AroundOk(Z: Site, c: Ctx, l: Around) {
    l.loop.Some? ==>
      var k := |c.loops| - 1;
      && c.loops != [] && l.loop.value <= |c.defers|
      && Has(Z, l.head, Label(c.loops[k].head)) && Has(Z, l.done, Label(c.loops[k].done))
  }

  ghost predicate Keeping(a: map<string, Local>, b: map<string, Local>) {
    forall x :: x in a ==> x in b && b[x] == a[x]
  }

  /** Where a statement's lines led: after `k` steps at `cfg`; if leaving, from output `u` in scope `c`, to
      lower `m`. */
  datatype Via = Via(k: nat, cfg: Cfg, u: Out, c: Ctx, m: Leave)

  ghost predicate LeaveIs(op: LeaveOp, m: Leave, cfg: Cfg, n: nat) {
    match op
    case OkOp(r) => m == LOk(r)
    case FailOp(e) => m == LFail(e)
    case ExitOp(e) => m == LExit(e)
    case RelayOp(code) =>
      m.LErr? && m.code.Reg? && m.code.r <= n && code < Pow2(32) && m.code.r in cfg.regs
          && cfg.regs[m.code.r] == Word(32, code)
  }

  /** Leaving: at the start of the lines that run the defers of `frames` and return. */
  ghost predicate LeavePost(Z: Site, t: Sts, frames: seq<seq<seq<Stmt>>>, c: Ctx, n: nat, cfg: Cfg, op: LeaveOp,
          env: Env, tr: seq<Event>, v: Via) {
    && Went(Z, n, cfg, v.k, v.cfg) && In(Z, v.c, v.u, env, tr, v.cfg) && n <= v.u.n
    && !c.inDefer && v.c.fn == c.fn
    && Fits(Z, t.unwind(frames, v.m, v.c, v.u))
    && !v.c.inDefer && t.okUnwind(frames, v.m, v.c)
    && LeaveIs(op, v.m, v.cfg, v.u.n)
  }

  ghost predicate JumpPost(Z: Site, frames: seq<seq<seq<Stmt>>>, c: Ctx, l: Around, target: nat, n: nat, cfg: Cfg,
          env: Env, tr: seq<Event>, v: Via) {
    && Went(Z, n, cfg, v.k, v.cfg) && v.cfg.tr == tr && l.loop.Some? && v.cfg.pc == target + 1
    && l.loop.value <= |frames| && AllEmpty(frames[l.loop.value..])
    && Rel(env, v.c.locals, v.cfg.mem) && Keeping(c.locals, v.c.locals)
  }

  /** Still running after `k` steps, no fewer than the fuel, with the calls the source had made. */
  ghost predicate Going(Z: Site, cfg: Cfg, k: nat, tr: seq<Event>, fuel: nat) {
    var m := Steps(Z.f.step, cfg, k);
    m.Run? && m.c.tr == tr && k >= fuel
  }

  /** `c1` and `s1` are the scope and output after the lines; `frames` the defer frames open at the outcome. */
  ghost predicate FlowPost(Z: Site, t: Sts, frames: seq<seq<seq<Stmt>>>, c: Ctx, l: Around, c1: Ctx, n: nat, s1: Out,
          cfg: Cfg, out: SO, fuel: nat, v: Via) {
    match out
    case Normal(env1, tr1) => Went(Z, n, cfg, v.k, v.cfg) && In(Z, c1, s1, env1, tr1, v.cfg)
    case Broke(env1, tr1) => JumpPost(Z, frames, c, l, l.done, n, cfg, env1, tr1, v)
    case Continued(env1, tr1) => JumpPost(Z, frames, c, l, l.head, n, cfg, env1, tr1, v)
    case Leaving(op, env1, tr1, left) => LeavePost(Z, t, frames, c, n, cfg, op, env1, tr1, v)
        && v.c.defers == frames + left
    case Halted(h) => Steps(Z.f.step, cfg, v.k) == Done(Ended(h))
    case OutOfFuel(tr1) => Going(Z, cfg, v.k, tr1, fuel)
  }

  // --- composing ---------------------------------------------------------------------------

  lemma WentAfter(Z: Site, n: nat, cfg: Cfg, k: nat, cfg1: Cfg, m: nat, k1: nat, cfg2: Cfg)
    requires Went(Z, n, cfg, k, cfg1) && n <= m && Went(Z, m, cfg1, k1, cfg2)
    ensures Went(Z, n, cfg, k + k1, cfg2)
  {
    StepsAdd(Z.f.step, cfg, k, cfg1, k1);
  }

  lemma FlowAfter(Z: Site, t: Sts, frames: seq<seq<seq<Stmt>>>, c: Ctx, l: Around, c1: Ctx, n: nat, s1: Out, cfg: Cfg,
          k: nat, cfg1: Cfg, m: nat, out: SO, fuel: nat, v: Via)
    requires Went(Z, n, cfg, k, cfg1) && n <= m && FlowPost(Z, t, frames, c, l, c1, m, s1, cfg1, out, fuel, v)
    ensures FlowPost(Z, t, frames, c, l, c1, n, s1, cfg, out, fuel, v.(k := k + v.k))
  {
    match out {
      case Halted(_) => StepsAdd(Z.f.step, cfg, k, cfg1, v.k);
      case OutOfFuel(_) => StepsAdd(Z.f.step, cfg, k, cfg1, v.k);
      case _ => WentAfter(Z, n, cfg, k, cfg1, m, v.k, v.cfg);
    }
  }

  lemma MemHasKept(H: seq<Line>, m: map<nat, Cell>, m1: map<nat, Cell>)
    requires MemHas(H, m) && SameShape(m, m1)
    ensures MemHas(H, m1)
  {}

  lemma RelRestrict(env: Env, small: map<string, Local>, big: map<string, Local>, mem: map<nat, Cell>)
    requires Rel(env, big, mem) && Keeping(small, big)
    ensures Rel(Restrict(env, small.Keys), small, mem)
  {}

  lemma LocalsSub(small: map<string, Local>, big: map<string, Local>, n: nat)
    requires LocalsOk(big, n) && Keeping(small, big)
    ensures LocalsOk(small, n)
  {}

  lemma LocalsMore(locals: map<string, Local>, n: nat, m: nat)
    requires LocalsOk(locals, n) && n <= m
    ensures LocalsOk(locals, m)
  {}

  // --- an expression within a statement ---------------------------------------------------------

  lemma {:induction false} NoRelayEval(o: Oracle, g: Sigs, e: Expr, env: Env, tr: seq<Event>)
    requires NoRelay(e)
    ensures !Eval(o, g, e, env, tr).ERelay?
    decreases e, 1
  {
    match e {
      case Unary(_, a) => NoRelayEval(o, g, a, env, tr);
      case Arith(_, a, b) => NoRelayTwo(o, g, e, a, b, env, tr);
      case Compare(_, a, b) => NoRelayTwo(o, g, e, a, b, env, tr);
      case Logic(_, a, b) => NoRelayTwo(o, g, e, a, b, env, tr);
      case Call(_, args) => NoRelayArgs(o, g, args, env, tr);
      case ResultOf(_, a) => NoRelayEval(o, g, a, env, tr);
      case Emphatic(a, b) => NoRelayTwo(o, g, e, a, b, env, tr);
      case SafeUnwrap(a, b) => NoRelayTwo(o, g, e, a, b, env, tr);
      case _ =>
    }
  }

  lemma NoRelayTwo(o: Oracle, g: Sigs, e: Expr, a: Expr, b: Expr, env: Env, tr: seq<Event>)
    requires NoRelay(a) && NoRelay(b) && a < e && b < e
    ensures !Eval(o, g, a, env, tr).ERelay?
    ensures var r := Eval(o, g, a, env, tr); r.EV? ==> !Eval(o, g, b, env, r.tr).ERelay?
    decreases e, 0
  {
    NoRelayEval(o, g, a, env, tr);
    var r := Eval(o, g, a, env, tr);
    if r.EV? { NoRelayEval(o, g, b, env, r.tr); }
  }

  lemma {:induction false} NoRelayArgs(o: Oracle, g: Sigs, args: seq<Expr>, env: Env, tr: seq<Event>)
    requires NoRelays(args)
    ensures var r := EvalArgs(o, g, args, env, tr); r.AStop? ==> !r.out.ERelay?
    decreases args, 0
  {
    if args != [] {
      NoRelayEval(o, g, args[0], env, tr);
      var r := Eval(o, g, args[0], env, tr);
      if r.EV? { NoRelayArgs(o, g, args[1..], env, r.tr); }
    }
  }

  /** What the checks say of an expression, and of the return its error takes. */
  lemma ExprOk(Z: Site, t: Sts, e: Expr, c: Ctx, loop: Option<nat>)
    requires Real(Z, t) && c.g == Z.g && t.okExpr(e, KOf(c, loop))
    ensures Z.f.ok(e, c)
  {
    assert t.okExpr(e, KOf(c, loop)) == OkExpr(e, KOf(c, loop));
    assert Z.f.ok(e, c) == Lowers(e, c);
  }

  lemma RelayOk(Z: Site, t: Sts, e: Expr, c: Ctx, loop: Option<nat>, env: Env, tr: seq<Event>, x: Opd)
    requires Real(Z, t) && c.g == Z.g && t.okExpr(e, KOf(c, loop)) && Z.f.eval(e, env, tr).ERelay?
    ensures !c.inDefer && t.okUnwind(c.defers, LErr(x), c)
  {
    var k := KOf(c, loop);
    assert t.okExpr(e, k) == OkExpr(e, k);
    assert Z.f.eval(e, env, tr) == Eval(Z.w.o, Z.g, e, env, tr);
    if NoRelay(e) { NoRelayEval(Z.w.o, Z.g, e, env, tr); }
    assert InDefer(k) == InDefer(KOf(c, None));
    assert t.okUnwind(c.defers, LErr(x), c) == OkUnwind(c.defers, LErr(x), c);
  }

  /** The site whose relays return from scope `c`. */
  function Relaying(Z: Site, c: Ctx): Site {
    Z.(f := Z.f.(relay := (u: Out, r: nat) => FitsNow(Z, CUnwind(c.defers, LErr(Reg(r)), c, u))))
  }

  predicate FitsNow(Z: Site, s: Out) {
    Z.base + |s.body| <= |Z.w.text| && s.body <= Z.w.text[Z.base..] && s.head <= Z.H
  }

  lemma RelayingIs(Z: Site, c: Ctx)
    requires Sound(Z) && Genuine(Z)
    ensures Sound(Relaying(Z, c)) && Genuine(Relaying(Z, c)) && RelayMeans(Relaying(Z, c), c)
  {
    var Z1 := Relaying(Z, c);
    forall u, r {:trigger CUnwind(c.defers, LErr(Reg(r)), c, u)}
      ensures Fits(Z1, CUnwind(c.defers, LErr(Reg(r)), c, u)) <==> Z1.f.relay(u, r)
    {
      assert Fits(Z1, CUnwind(c.defers, LErr(Reg(r)), c, u)) == FitsNow(Z, CUnwind(c.defers, LErr(Reg(r)), c, u));
    }
  }

  /** A stopped expression: returning its error, or halted. */
  ghost predicate StopAt(Z: Site, t: Sts, c: Ctx, n: nat, cfg: Cfg, out: EO, env: Env, q: Got) {
    match out
    case EV(_, _) => false
    case ERelay(code, tr1) => LeavePost(Z, t, c.defers, c, n, cfg, RelayOp(code), env, tr1,
        Via(q.k, q.cfg, q.u, c, LErr(Reg(q.r))))
    case EHalt(h) => Steps(Z.f.step, cfg, q.k) == Done(Ended(h))
  }

  ghost predicate EvalPost(Z: Site, t: Sts, e: Expr, c: Ctx, s: Out, env: Env, tr: seq<Event>, cfg: Cfg, q: Got) {
    var out, s1 := Z.f.eval(e, env, tr), Z.f.emit(e, c, s).0;
    if out.EV? then
      && Ran(Z, s.n, cfg, q) && In(Z, c, s1, env, out.tr, q.cfg)
      && Holds(Z.w, q.cfg, Z.f.emit(e, c, s).1, out.val) && TyIs(out.val, Z.f.ty(e, c))
    else StopAt(Z, t, c, s.n, cfg, out, env, q)
  }

  /** An expression run from a statement. */
  lemma EvalIn(Z: Site, t: Sts, e: Expr, c: Ctx, loop: Option<nat>, s: Out, env: Env, tr: seq<Event>, cfg: Cfg)
          returns (q: Got)
    requires Real(Z, t) && In(Z, c, s, env, tr, cfg) && t.okExpr(e, KOf(c, loop)) && Fits(Z, Z.f.emit(e, c, s).0)
    ensures EvalPost(Z, t, e, c, s, env, tr, cfg, q)
    ensures Ext(s, Z.f.emit(e, c, s).0)
  {
    ExprOk(Z, t, e, c, loop);
    EmitFacts(Z, e, c, s);
    var Z1 := Relaying(Z, c);
    RelayingIs(Z, c);
    assert Fits(Z1, Z.f.emit(e, c, s).0);
    q := SimExpr.SimExpr(Z1, e, c, s, env, tr, cfg);
    var out := Z.f.eval(e, env, tr);
    if out.EV? {
      KeepIn(Z, c, s, env, tr, cfg, Z.f.emit(e, c, s).0, out.tr, q.cfg);
    } else if out.ERelay? {
      RelayOk(Z, t, e, c, loop, env, tr, Reg(q.r));
      KeepIn(Z, c, s, env, tr, cfg, q.u, out.tr, q.cfg);
      assert FitsNow(Z, CUnwind(c.defers, LErr(Reg(q.r)), c, q.u));
      assert t.unwind(c.defers, LErr(Reg(q.r)), c, q.u) == CUnwind(c.defers, LErr(Reg(q.r)), c, q.u);
    }
  }

  lemma KeepIn(Z: Site, c: Ctx, s: Out, env: Env, tr: seq<Event>, cfg: Cfg, s1: Out, tr1: seq<Event>, cfg1: Cfg)
    requires In(Z, c, s, env, tr, cfg) && Keeps(s.n, cfg, cfg1) && s.n <= s1.n
    requires !s1.terminated && At(Z, s1, cfg1) && cfg1.tr == tr1
    ensures In(Z, c, s1, env, tr1, cfg1)
  {
    assert forall x :: x in c.locals ==> cfg1.mem[c.locals[x].slot] == cfg.mem[c.locals[x].slot];
  }

  ghost predicate CondIn(Z: Site, t: Sts, e: Expr, c: Ctx, s: Out, env: Env, tr: seq<Event>, cfg: Cfg, q: Got) {
    var out, s1 := Z.f.eval(e, env, tr), Cond(Z, e, c, s).0;
    if out.EV? then
      && Ran(Z, s.n, cfg, q) && In(Z, c, s1, env, out.tr, q.cfg)
      && Read(Z.w, q.cfg, 1, Cond(Z, e, c, s).1) == Some(if out.val.v != 0 then 1 else 0)
    else StopAt(Z, t, c, s.n, cfg, out, env, q)
  }

  /** A condition run from a statement. */
  lemma CondRun(Z: Site, t: Sts, e: Expr, c: Ctx, loop: Option<nat>, s: Out, env: Env, tr: seq<Event>, cfg: Cfg)
          returns (q: Got)
    requires Real(Z, t) && In(Z, c, s, env, tr, cfg) && t.okExpr(e, KOf(c, loop)) && Z.f.ty(e, c).Sc?
             && Fits(Z, Cond(Z, e, c, s).0)
    ensures CondIn(Z, t, e, c, s, env, tr, cfg, q)
  {
    var (s1, x) := Z.f.emit(e, c, s);
    FitsExt(Z, s1, Cond(Z, e, c, s).0);
    q := EvalIn(Z, t, e, c, loop, s, env, tr, cfg);
    q := CondEnd(Z, t, c, s.n, s1, x, Z.f.ty(e, c).ty, env, cfg, Z.f.eval(e, env, tr), q);
  }

  lemma CondEnd(Z: Site, t: Sts, c: Ctx, n: nat, s1: Out, x: Opd, ty: Ty, env: Env, cfg: Cfg, out: EO, q0: Got)
          returns (q: Got)
    requires Sound(Z) && n <= s1.n && Fits(Z, CondTail(Bits(ty), x, s1))
    requires if out.EV? then Ran(Z, n, cfg, q0) && In(Z, c, s1, env, out.tr, q0.cfg) && Holds(Z.w, q0.cfg, x, out.val)
             && TyIs(out.val, Sc(ty))
             else StopAt(Z, t, c, n, cfg, out, env, q0)
    ensures if out.EV? then
              && Ran(Z, n, cfg, q) && In(Z, c, CondTail(Bits(ty), x, s1), env, out.tr, q.cfg)
              && Read(Z.w, q.cfg, 1, Reg(s1.n + 1)) == Some(if out.val.v != 0 then 1 else 0)
            else StopAt(Z, t, c, n, cfg, out, env, q)
  {
    q := q0;
    if out.EV? {
      q := CondGo(Z, c, n, s1, x, ty, out.val.v, CondTail(Bits(ty), x, s1), env, out.tr, cfg, q);
    }
  }

  lemma CondGo(Z: Site, c: Ctx, n: nat, s1: Out, x: Opd, ty: Ty, v: int, sF: Out, env: Env, tr: seq<Event>, cfg: Cfg,
          q0: Got) returns (q: Got)
    requires Sound(Z) && n <= s1.n && Ran(Z, n, cfg, q0) && In(Z, c, s1, env, tr, q0.cfg)
             && Holds(Z.w, q0.cfg, x, S(ty, v))
    requires sF == CondTail(Bits(ty), x, s1) && Fits(Z, sF)
    ensures Ran(Z, n, cfg, q) && In(Z, c, sF, env, tr, q.cfg)
            && Read(Z.w, q.cfg, 1, Reg(s1.n + 1)) == Some(if v != 0 then 1 else 0)
  {
    Put(Z, s1, Icmp(s1.n + 1, PNe, Bits(ty), x, Const(0)), sF);
    q := NotTest(Z, ty, x, v, s1.n + 1, n, cfg, q0);
    KeepIn(Z, c, s1, env, tr, q0.cfg, sF, tr, q.cfg);
  }

  /** The outcome of a stopped expression, as a statement's. */
  lemma StoppedFlow(Z: Site, t: Sts, c: Ctx, l: Around, c1: Ctx, n: nat, s1: Out, cfg: Cfg, out: EO, env: Env,
          fuel: nat, q: Got) returns (v: Via)
    requires !out.EV? && StopAt(Z, t, c, n, cfg, out, env, q)
    ensures FlowPost(Z, t, c.defers, c, l, c1, n, s1, cfg, Stopped(out, env), fuel, v)
  {
    assert c.defers + [] == c.defers;
    v := Via(q.k, q.cfg, q.u, c, LErr(Reg(q.r)));
  }

  lemma StoppedAfter(Z: Site, t: Sts, c: Ctx, l: Around, c1: Ctx, n: nat, s1: Out, cfg: Cfg, k: nat, cfg1: Cfg, m: nat,
          out: EO, env: Env, fuel: nat, q: Got) returns (v: Via)
    requires Went(Z, n, cfg, k, cfg1) && n <= m && !out.EV? && StopAt(Z, t, c, m, cfg1, out, env, q)
    ensures FlowPost(Z, t, c.defers, c, l, c1, n, s1, cfg, Stopped(out, env), fuel, v)
  {
    v := StoppedFlow(Z, t, c, l, c1, m, s1, cfg1, out, env, fuel, q);
    FlowAfter(Z, t, c.defers, c, l, c1, n, s1, cfg, k, cfg1, m, Stopped(out, env), fuel, v);
    v := v.(k := k + v.k);
  }
}
