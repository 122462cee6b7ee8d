/** The frame of the simulation: a finished function in place, what a run keeps, and single instructions. */
module SimBase {
  import opened Words
  import opened Source
  import opened Target
  import opened Lowering
  import opened Checked

  /** The functions the proof speaks of, as values: a step then sees only the equations it asks for. `relay`
      says of an output and a register that the function goes on from there to return the register's error code. */
  datatype Fns = Fns(
    step: Cfg -> MR,
    emit: (Expr, Ctx, Out) -> (Out, Opd),
    emits: (seq<Expr>, Ctx, Out) -> (Out, seq<(nat, Opd)>),
    eval: (Expr, Env, seq<Event>) -> EO,
    evals: (seq<Expr>, Env, seq<Event>) -> AO,
    ty: (Expr, Ctx) -> XTy,
    ok: (Expr, Ctx) -> bool,
    relay: (Out, nat) -> bool)

  /** A finished function in place: its text, where the lines after the allocas start, and all its allocas. */
  datatype Site = Site(w: World, g: Sigs, f: Fns, base: nat, H: seq<Line>)

  /** An expression the lowering accepts in a scope. */
  predicate Lowers(e: Expr, c: Ctx) {
    TypeOf(e, TypesOf(c.locals), c.g).Some? && (NoRelay(e) || !c.inDefer)
  }

  ghost predicate Genuine(Z: Site) {
    && (forall e, c, s {:trigger CExpr(e, c, s)} :: Z.f.emit(e, c, s) == CExpr(e, c, s))
    && (forall es, c, s {:trigger CArgs(es, c, s)} :: Z.f.emits(es, c, s) == CArgs(es, c, s))
    && (forall e, env, tr {:trigger Eval(Z.w.o, Z.g, e, env, tr)} ::
       Z.f.eval(e, env, tr) == Eval(Z.w.o, Z.g, e, env, tr))
    && (forall es, env, tr {:trigger EvalArgs(Z.w.o, Z.g, es, env, tr)} ::
          Z.f.evals(es, env, tr) == EvalArgs(Z.w.o, Z.g, es, env, tr))
    && (forall e, c {:trigger XTyOf(e, c)} :: Z.f.ty(e, c) == XTyOf(e, c))
    && (forall e, c {:trigger Lowers(e, c)} :: Z.f.ok(e, c) == Lowers(e, c))
  }

  ghost predicate Sound(Z: Site) {
    Z.base <= |Z.w.text| && UniqueLabels(Z.w.text) && (forall c {:trigger Step(Z.w, c)} :: Z.f.step(c) == Step(Z.w, c))
  }

  /** An intermediate output that the finished function extends. */
  ghost predicate Fits(Z: Site, s: Out) {
    Z.base + |s.body| <= |Z.w.text| && s.body <= Z.w.text[Z.base..] && s.head <= Z.H
  }

  ghost predicate RelayMeans(Z: Site, c: Ctx) {
    forall u, r {:trigger CUnwind(c.defers, LErr(Reg(r)), c, u)} ::
      Fits(Z, CUnwind(c.defers, LErr(Reg(r)), c, u)) <==> Z.f.relay(u, r)
  }

  ghost predicate At(Z: Site, s: Out, cfg: Cfg) {
    cfg.pc == Z.base + |s.body|
  }

  /** Every hoisted slot exists, at its type. */
  ghost predicate MemHas(H: seq<Line>, mem: map<nat, Cell>) {
    forall slot, w :: Alloca(slot, w) in H ==> slot in mem && mem[slot].w == w
  }

  /** Locals in scope have slots of their own, among those already named. */
  ghost predicate LocalsOk(locals: map<string, Local>, n: nat) {
    && (forall x :: x in locals ==> locals[x].slot <= n && !locals[x].ty.NilT?)
    && (forall x, y :: x in locals && y in locals && x != y ==> locals[x].slot != locals[y].slot)
  }

  /** The slots hold the variables' values. */
  ghost predicate Rel(env: Env, locals: map<string, Local>, mem: map<nat, Cell>) {
    && env.Keys == locals.Keys
    && (forall x :: x in locals ==>
          && env[x].ty == locals[x].ty && InRange(env[x].ty, env[x].v)
          && locals[x].slot in mem
          && mem[locals[x].slot] == Cell(Bits(env[x].ty), Some(Enc(Bits(env[x].ty), env[x].v))))
  }

  ghost predicate SameShape(m: map<nat, Cell>, m1: map<nat, Cell>) {
    m1.Keys == m.Keys && forall i :: i in m ==> m1[i].w == m[i].w
  }

  ghost predicate KeepRegs(n: nat, c: Cfg, c1: Cfg) {
    forall r :: r in c.regs && r <= n ==> r in c1.regs && c1.regs[r] == c.regs[r]
  }

  /** Names up to `n` are left alone. */
  ghost predicate Keeps(n: nat, c: Cfg, c1: Cfg) {
    && KeepRegs(n, c, c1)
    && SameShape(c.mem, c1.mem)
    && (forall i :: i in c.mem && i <= n ==> c1.mem[i] == c.mem[i])
  }

  ghost predicate Pre(Z: Site, c: Ctx, s: Out, env: Env, tr: seq<Event>, cfg: Cfg) {
    && Sound(Z) && Genuine(Z) && c.g == Z.g && !s.terminated && At(Z, s, cfg) && cfg.tr == tr
    && Rel(env, c.locals, cfg.mem) && LocalsOk(c.locals, s.n) && MemHas(Z.H, cfg.mem) && RelayMeans(Z, c)
  }

  function ResFields(ty: Ty, v: int, code: nat): map<nat, nat> {
    if ty.NilT? then map[0 := code] else map[0 := Enc(Bits(ty), v), 1 := code]
  }

  ghost predicate Holds(W: World, c: Cfg, x: Opd, v: Val) {
    match v
    case S(ty, n) => InRange(ty, n) && Read(W, c, Bits(ty), x) == Some(Enc(Bits(ty), n))
    case R(ty, n, code) =>
      InRange(ty, n) && (ty.NilT? ==> n == 0) && code < Pow2(32) && ReadAgg(c, x) == Some(ResFields(ty, n, code))
  }

  predicate TyIs(v: Val, t: XTy) {
    match v
    case S(ty, _) => t == Sc(ty)
    case R(ty, _, _) => t == Rs(ty)
  }

  /** Where a run got to: after `k` steps, and for a relayed error the output and register the return starts from. */
  datatype Got = Got(k: nat, cfg: Cfg, u: Out, r: nat)

  function Here(cfg: Cfg, s: Out): Got {
    Got(0, cfg, s, 0)
  }

  function On(q: Got, cfg: Cfg): Got {
    q.(k := q.k + 1, cfg := cfg)
  }

  ghost predicate Ran(Z: Site, n: nat, cfg: Cfg, q: Got) {
    Steps(Z.f.step, cfg, q.k) == Run(q.cfg) && Keeps(n, cfg, q.cfg)
  }

  ghost predicate Reached(Z: Site, n: nat, s1: Out, tr1: seq<Event>, cfg: Cfg, q: Got) {
    Ran(Z, n, cfg, q) && At(Z, s1, q.cfg) && q.cfg.tr == tr1
  }

  ghost predicate StopPost(Z: Site, c: Ctx, n: nat, cfg: Cfg, out: EO, q: Got) {
    match out
    case EV(_, _) => false
    case ERelay(code, tr1) =>
      && !c.inDefer && Reached(Z, n, q.u, tr1, cfg, q)
      && !q.u.terminated && n <= q.u.n && q.r <= q.u.n
      && Z.f.relay(q.u, q.r)
      && code < Pow2(32) && q.r in q.cfg.regs && q.cfg.regs[q.r] == Word(32, code)
    case EHalt(h) => Steps(Z.f.step, cfg, q.k) == Done(Ended(h))
  }

  ghost predicate ExprPost(Z: Site, c: Ctx, t: XTy, n: nat, s1: Out, x: Opd, cfg: Cfg, out: EO, q: Got) {
    if out.EV? then Reached(Z, n, s1, out.tr, cfg, q) && Holds(Z.w, q.cfg, x, out.val) && TyIs(out.val, t)
    else StopPost(Z, c, n, cfg, out, q)
  }

  ghost predicate CondPost(Z: Site, c: Ctx, n: nat, s1: Out, x: Opd, cfg: Cfg, out: EO, q: Got) {
    if out.EV? then
      Reached(Z, n, s1, out.tr, cfg, q) && Read(Z.w, q.cfg, 1, x) == Some(if out.val.v != 0 then 1 else 0)
    else StopPost(Z, c, n, cfg, out, q)
  }

  // --- composing runs ---------------------------------------------------------------

  lemma FitsExt(Z: Site, s: Out, s1: Out)
    requires Ext(s, s1) && Fits(Z, s1)
    ensures Fits(Z, s)
  {}

  /** The line of the finished function at a position. */
  predicate Has(Z: Site, p: nat, x: Line) {
    p < |Z.w.text| && Z.w.text[p] == x
  }

  /** Where the next line after an output goes. */
  function Pos(Z: Site, s: Out): nat {
    Z.base + |s.body|
  }

  /** A line of an output that the finished function extends. */
  lemma Place(Z: Site, s: Out, i: nat)
    requires Fits(Z, s) && i < |s.body|
    ensures Has(Z, Z.base + i, s.body[i])
  {
    assert s.body[i] == Z.w.text[Z.base..][i];
  }

  /** The lines an output was extended with. */
  lemma PlaceAll(Z: Site, t: Out, s: Out, xs: seq<Line>)
    requires Fits(Z, t) && t.body == s.body + xs
    ensures forall j {:trigger xs[j]} :: 0 <= j < |xs| ==> Has(Z, Pos(Z, s) + j, xs[j])
    ensures Pos(Z, t) == Pos(Z, s) + |xs|
  {
    forall j {:trigger xs[j]} | 0 <= j < |xs|
      ensures Has(Z, Pos(Z, s) + j, xs[j])
    {
      Place(Z, t, |s.body| + j);
    }
  }

  /** The line an output was extended with. */
  lemma Put(Z: Site, s: Out, x: Line, s1: Out)
    requires Fits(Z, s1) && s.body + [x] <= s1.body
    ensures Has(Z, Pos(Z, s), x)
  {
    assert s1.body[|s.body|] == (s.body + [x])[|s.body|];
    Place(Z, s1, |s.body|);
  }

  lemma KeepsTrans(n: nat, c: Cfg, c1: Cfg, m: nat, c2: Cfg)
    requires Keeps(n, c, c1) && n <= m && Keeps(m, c1, c2)
    ensures Keeps(n, c, c2)
  {}

  lemma Snoc(step: Cfg -> MR, c: Cfg, k: nat, c1: Cfg)
    requires Steps(step, c, k) == Run(c1)
    ensures Steps(step, c, k + 1) == step(c1)
  {
    StepsAdd(step, c, k, c1, 1);
    assert step(c1).Run? ==> Steps(step, step(c1).c, 0) == step(c1);
  }

  lemma RanAfter(Z: Site, n: nat, cfg: Cfg, q: Got, m: nat, q1: Got)
    requires Ran(Z, n, cfg, q) && n <= m && Ran(Z, m, q.cfg, q1)
    ensures Ran(Z, n, cfg, q1.(k := q.k + q1.k))
  {
    StepsAdd(Z.f.step, cfg, q.k, q.cfg, q1.k);
    KeepsTrans(n, cfg, q.cfg, m, q1.cfg);
  }

  lemma StopAfter(Z: Site, c: Ctx, n: nat, cfg: Cfg, q: Got, m: nat, out: EO, q1: Got)
    requires Ran(Z, n, cfg, q) && n <= m && !out.EV? && StopPost(Z, c, m, q.cfg, out, q1)
    ensures StopPost(Z, c, n, cfg, out, q1.(k := q.k + q1.k))
  {
    StepsAdd(Z.f.step, cfg, q.k, q.cfg, q1.k);
    if out.ERelay? { KeepsTrans(n, cfg, q.cfg, m, q1.cfg); }
  }

  /** Running on: what was held is still held. */
  lemma Both(Z: Site, c: Ctx, n: nat, cfg: Cfg, q: Got, x: Opd, v: Val, m: nat, t: XTy, s2: Out, y: Opd, out: EO,
          q1: Got)
    requires Ran(Z, n, cfg, q) && n <= m && Bound(x, m) && Holds(Z.w, q.cfg, x, v)
    requires ExprPost(Z, c, t, m, s2, y, q.cfg, out, q1)
    ensures ExprPost(Z, c, t, n, s2, y, cfg, out, q1.(k := q.k + q1.k))
    ensures out.EV? ==> Holds(Z.w, q1.cfg, x, v)
  {
    if out.EV? { RanAfter(Z, n, cfg, q, m, q1); } else { StopAfter(Z, c, n, cfg, q, m, out, q1); }
  }

  lemma HoldsKept(W: World, n: nat, c: Cfg, c1: Cfg, x: Opd, v: Val)
    requires Keeps(n, c, c1) && Bound(x, n) && Holds(W, c, x, v)
    ensures Holds(W, c1, x, v)
  {}

  lemma KeepPre(Z: Site, c: Ctx, s: Out, env: Env, tr: seq<Event>, cfg: Cfg, n: nat, s1: Out, tr1: seq<Event>,
          cfg1: Cfg)
    requires Pre(Z, c, s, env, tr, cfg) && Keeps(n, cfg, cfg1) && s.n <= n <= s1.n
    requires !s1.terminated && At(Z, s1, cfg1) && cfg1.tr == tr1
    ensures Pre(Z, c, s1, env, tr1, cfg1)
  {
    assert forall x :: x in c.locals ==> cfg1.mem[c.locals[x].slot] == cfg.mem[c.locals[x].slot];
  }

  // --- single instructions ---------------------------------------------------------------

  /** One more instruction. */
  lemma Adv(Z: Site, n: nat, x: Line, cfg: Cfg, q: Got, c2: Cfg)
    requires Sound(Z) && Has(Z, q.cfg.pc, x) && Ran(Z, n, cfg, q)
    requires Do(Z.w, x, q.cfg) == Run(c2) && Keeps(n, q.cfg, c2)
    ensures Ran(Z, n, cfg, On(q, c2))
  {
    Snoc(Z.f.step, cfg, q.k, q.cfg);
    assert Z.f.step(q.cfg) == Step(Z.w, q.cfg);
    KeepsTrans(n, cfg, q.cfg, n, c2);
  }

  /** The last instruction of a run. */
  lemma Last(Z: Site, x: Line, cfg: Cfg, q: Got, f: Final)
    requires Sound(Z) && Has(Z, q.cfg.pc, x) && Steps(Z.f.step, cfg, q.k) == Run(q.cfg)
    requires Do(Z.w, x, q.cfg) == Done(f)
    ensures Steps(Z.f.step, cfg, q.k + 1) == Done(f)
  {
    Snoc(Z.f.step, cfg, q.k, q.cfg);
    assert Z.f.step(q.cfg) == Step(Z.w, q.cfg);
  }

  function SetReg(c: Cfg, r: nat, v: MV): Cfg {
    c.(pc := c.pc + 1, regs := c.regs[r := v])
  }

  function SetMem(c: Cfg, slot: nat, v: Cell): Cfg {
    c.(pc := c.pc + 1, mem := c.mem[slot := v])
  }

  lemma LoadStep(Z: Site, n: nat, r: nat, w: nat, slot: nat, v: nat, cfg: Cfg, q: Got)
    requires Sound(Z) && Ran(Z, n, cfg, q) && Has(Z, q.cfg.pc, Load(r, w, slot)) && r > n
    requires slot in q.cfg.mem && q.cfg.mem[slot] == Cell(w, Some(v))
    ensures Ran(Z, n, cfg, On(q, SetReg(q.cfg, r, Word(w, v))))
  {
    Adv(Z, n, Load(r, w, slot), cfg, q, SetReg(q.cfg, r, Word(w, v)));
  }

  lemma StoreStep(Z: Site, n: nat, w: nat, x: Opd, v: nat, slot: nat, cfg: Cfg, q: Got)
    requires Sound(Z) && Ran(Z, n, cfg, q) && Has(Z, q.cfg.pc, Store(w, x, slot)) && slot > n
    requires slot in q.cfg.mem && q.cfg.mem[slot].w == w && Read(Z.w, q.cfg, w, x) == Some(v)
    ensures Ran(Z, n, cfg, On(q, SetMem(q.cfg, slot, Cell(w, Some(v)))))
  {
    Adv(Z, n, Store(w, x, slot), cfg, q, SetMem(q.cfg, slot, Cell(w, Some(v))));
  }

  lemma BinStep(Z: Site, n: nat, r: nat, op: MOp, w: nat, a: Opd, b: Opd, av: nat, bv: nat, cfg: Cfg, q: Got)
    requires Sound(Z) && Ran(Z, n, cfg, q) && Has(Z, q.cfg.pc, Bin(r, op, w, a, b)) && r > n
    requires Read(Z.w, q.cfg, w, a) == Some(av) && Read(Z.w, q.cfg, w, b) == Some(bv)
    ensures MBin(op, w, av, bv).Some? ==> Ran(Z, n, cfg, On(q, SetReg(q.cfg, r, Word(w, MBin(op, w, av, bv).value))))
    ensures MBin(op, w, av, bv).None? ==> Steps(Z.f.step, cfg, q.k + 1) == Done(Ended(Undefined(q.cfg.tr)))
  {
    var z := MBin(op, w, av, bv);
    if z.Some? {
      Adv(Z, n, Bin(r, op, w, a, b), cfg, q, SetReg(q.cfg, r, Word(w, z.value)));
    } else {
      Last(Z, Bin(r, op, w, a, b), cfg, q, Ended(Undefined(q.cfg.tr)));
    }
  }

  lemma IcmpStep(Z: Site, n: nat, r: nat, p: Pred, w: nat, a: Opd, b: Opd, av: nat, bv: nat, cfg: Cfg, q: Got)
    requires Sound(Z) && Ran(Z, n, cfg, q) && Has(Z, q.cfg.pc, Icmp(r, p, w, a, b)) && r > n
    requires Read(Z.w, q.cfg, w, a) == Some(av) && Read(Z.w, q.cfg, w, b) == Some(bv)
    ensures Ran(Z, n, cfg, On(q, SetReg(q.cfg, r, Word(1, if MCmp(p, w, av, bv) then 1 else 0))))
  {
    Adv(Z, n, Icmp(r, p, w, a, b), cfg, q, SetReg(q.cfg, r, Word(1, if MCmp(p, w, av, bv) then 1 else 0)));
  }

  lemma ZextStep(Z: Site, n: nat, r: nat, a: Opd, w: nat, v: nat, cfg: Cfg, q: Got)
    requires Sound(Z) && Ran(Z, n, cfg, q) && Has(Z, q.cfg.pc, Zext(r, a, w)) && r > n
             && Read(Z.w, q.cfg, 1, a) == Some(v)
    ensures Ran(Z, n, cfg, On(q, SetReg(q.cfg, r, Word(w, v))))
  {
    Adv(Z, n, Zext(r, a, w), cfg, q, SetReg(q.cfg, r, Word(w, v)));
  }

  lemma ExtractStep(Z: Site, n: nat, r: nat, x: Opd, idx: nat, w: nat, fs: map<nat, nat>, cfg: Cfg, q: Got)
    requires Sound(Z) && Ran(Z, n, cfg, q) && Has(Z, q.cfg.pc, Extract(r, x, idx, w)) && r > n
    requires ReadAgg(q.cfg, x) == Some(fs) && idx in fs
    ensures Ran(Z, n, cfg, On(q, SetReg(q.cfg, r, Word(w, Enc(w, fs[idx])))))
  {
    Adv(Z, n, Extract(r, x, idx, w), cfg, q, SetReg(q.cfg, r, Word(w, Enc(w, fs[idx]))));
  }

  lemma InsertStep(Z: Site, n: nat, r: nat, into: Option<Opd>, w: nat, x: Opd, v: nat, idx: nat, fs: map<nat, nat>,
          cfg: Cfg, q: Got)
    requires Sound(Z) && Ran(Z, n, cfg, q) && Has(Z, q.cfg.pc, Insert(r, into, w, x, idx)) && r > n
    requires Read(Z.w, q.cfg, w, x) == Some(v)
    requires if into.None? then fs == map[] else ReadAgg(q.cfg, into.value) == Some(fs)
    ensures Ran(Z, n, cfg, On(q, SetReg(q.cfg, r, Agg(fs[idx := v]))))
  {
    Adv(Z, n, Insert(r, into, w, x, idx), cfg, q, SetReg(q.cfg, r, Agg(fs[idx := v])));
  }

  function CallFields(o: Oracle, ret: ResLL, tr: seq<Event>): map<nat, nat> {
    match ret
    case Pair(w) => map[0 := Enc(w, o(tr).bits), 1 := Enc(32, o(tr).code)]
    case Lone => map[0 := Enc(32, o(tr).code)]
  }

  lemma CallStep(Z: Site, n: nat, r: nat, ret: ResLL, f: string, xs: seq<(nat, Opd)>, words: seq<nat>, cfg: Cfg, q: Got)
    requires Sound(Z) && Ran(Z, n, cfg, q) && Has(Z, q.cfg.pc, CallFn(r, ret, f, xs)) && r > n
    requires ReadAll(Z.w, q.cfg, xs) == Some(words)
    ensures var tr1 := q.cfg.tr + [Called(f, words)];
            Ran(Z, n, cfg, On(q, SetReg(q.cfg, r, Agg(CallFields(Z.w.o, ret, tr1))).(tr := tr1)))
  {
    var tr1 := q.cfg.tr + [Called(f, words)];
    Adv(Z, n, CallFn(r, ret, f, xs), cfg, q, SetReg(q.cfg, r, Agg(CallFields(Z.w.o, ret, tr1))).(tr := tr1));
  }

  /** A label is found where it was put. */
  lemma Found(Z: Site, p: nat, l: Lbl)
    requires Sound(Z) && Has(Z, p, Label(l))
    ensures FindLabel(Z.w.text, l) == Some(p)
  {
    assert LabelAt(Z.w.text, p);
  }

  lemma BrStep(Z: Site, n: nat, l: Lbl, p: nat, cfg: Cfg, q: Got)
    requires Sound(Z) && Ran(Z, n, cfg, q) && Has(Z, q.cfg.pc, Br(l)) && Has(Z, p, Label(l))
    ensures Ran(Z, n, cfg, On(q, q.cfg.(pc := p + 1)))
  {
    Found(Z, p, l);
    Adv(Z, n, Br(l), cfg, q, q.cfg.(pc := p + 1));
  }

  lemma CondStep(Z: Site, n: nat, x: Opd, yes: Lbl, no: Lbl, v: nat, p: nat, cfg: Cfg, q: Got)
    requires Sound(Z) && Ran(Z, n, cfg, q) && Has(Z, q.cfg.pc, CondBr(x, yes, no))
             && Has(Z, p, Label(if v != 0 then yes else no))
    requires Read(Z.w, q.cfg, 1, x) == Some(v)
    ensures Ran(Z, n, cfg, On(q, q.cfg.(pc := p + 1)))
  {
    Found(Z, p, if v != 0 then yes else no);
    Adv(Z, n, CondBr(x, yes, no), cfg, q, q.cfg.(pc := p + 1));
  }

  function TrapCfg(Z: Site, c: Cfg, r: nat, code: nat): Cfg {
    var tr1 := c.tr + [Called("failsafe", [code])];
    SetReg(c, r, Word(32, Enc(32, Z.w.o(tr1).bits))).(tr := tr1)
  }

  lemma FailsafeStep(Z: Site, n: nat, r: nat, x: Opd, code: nat, cfg: Cfg, q: Got)
    requires Sound(Z) && Ran(Z, n, cfg, q) && Has(Z, q.cfg.pc, CallFailsafe(r, x)) && r > n
    requires Read(Z.w, q.cfg, 32, x) == Some(code)
    ensures Ran(Z, n, cfg, On(q, TrapCfg(Z, q.cfg, r, code)))
  {
    Adv(Z, n, CallFailsafe(r, x), cfg, q, TrapCfg(Z, q.cfg, r, code));
  }

  lemma ExitStep(Z: Site, x: Opd, v: nat, cfg: Cfg, q: Got)
    requires Sound(Z) && Has(Z, q.cfg.pc, CallExit(x)) && Steps(Z.f.step, cfg, q.k) == Run(q.cfg)
    requires Read(Z.w, q.cfg, 32, x) == Some(v)
    ensures Steps(Z.f.step, cfg, q.k + 1) == Done(Ended(Exited(v, q.cfg.tr)))
  {
    Last(Z, CallExit(x), cfg, q, Ended(Exited(v, q.cfg.tr)));
  }

  /** The trap: `failsafe` is called with the code, and the process exits with its answer. */
  lemma TrapSteps(Z: Site, n: nat, r: nat, x: Opd, code: nat, cfg: Cfg, q: Got)
    requires Sound(Z) && Ran(Z, n, cfg, q) && r > n && Read(Z.w, q.cfg, 32, x) == Some(code)
    requires Has(Z, q.cfg.pc, CallFailsafe(r, x)) && Has(Z, q.cfg.pc + 1, CallExit(Reg(r)))
    ensures Steps(Z.f.step, cfg, q.k + 2) == Done(Ended(Failsafe(Z.w.o, code, q.cfg.tr)))
  {
    FailsafeStep(Z, n, r, x, code, cfg, q);
    var c1 := TrapCfg(Z, q.cfg, r, code);
    ExitStep(Z, Reg(r), c1.regs[r].b, cfg, On(q, c1));
  }

  // --- bits ------------------------------------------------------------------------------

  lemma Bit(v: int)
    requires v == 0 || v == 1
    ensures InRange(BoolT, v) && Enc(8, v) == v && Enc(1, v) == v
  {
    Pow2Small();
    EncSmall(8, v);
    EncSmall(1, v);
  }

  lemma FlipBit(b: nat)
    requires b == 0 || b == 1
    ensures MBin(MXor, 1, b, 1) == Some(1 - b)
  {
    assert Bitwise(BXor, 0, b / 2, 1 / 2) == 0;
  }

  lemma NotZero(ty: Ty, v: int)
    requires InRange(ty, v)
    ensures MCmp(PNe, Bits(ty), Enc(Bits(ty), v), Enc(Bits(ty), 0)) == (v != 0)
  {
    CompareAgrees(Ne, ty, v, 0);
  }
}
