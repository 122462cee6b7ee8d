/** The emitted function does what the source function means: same answer or halt, same calls, and it runs on
    while the source does. */
module Preservation {
  import opened Words
  import opened Source
  import opened Target
  import opened Lowering
  import opened Checked
  import opened Layout
  import opened SimBase
  import opened SimExpr
  import opened SimFlow
  import opened SimStmt
  import opened SimFunc
  import opened Leaves

  /** The machine in a function's text, from just after its entry label. */
  function Machine(o: Oracle, args: seq<nat>, f: Func, g: Sigs, lbl: nat, k: nat): MR {
    var W := World(o, args, TextOf(CFunc(f, g, lbl)));
    Steps(Stepper(W), Cfg(1, map[], map[], []), k)
  }

  function Stepper(W: World): Cfg -> MR {
    c => Step(W, c)
  }

  // --- the real functions, as values ----------------------------------------------------------

  function SiteOf(w: World, g: Sigs, s: Out): Site {
    Site(w, g,
         Fns(Stepper(w),
             (e, c, s) => CExpr(e, c, s),
             (es, c, s) => CArgs(es, c, s),
             (e, env, tr) => Eval(w.o, g, e, env, tr),
             (es, env, tr) => EvalArgs(w.o, g, es, env, tr),
             (e, c) => XTyOf(e, c),
             (e, c) => Lowers(e, c),
             (s, r) => false),
         1 + |s.head|, s.head)
  }

  function StsOf(w: World, g: Sigs): Sts {
    Sts((ss, c, s) => CBlock(ss, c, s),
        (ss, c, s) => CStmts(ss, c, s),
        (st, c, s) => CStmt(st, c, s),
        (f, c, s) => CDefers(f, c, s),
        (fs, m, c, s) => CUnwind(fs, m, c, s),
        (st, env, tr, k: nat) => Exec(w.o, g, st, env, tr, k),
        (ss, env, tr, k: nat) => ExecStmts(w.o, g, ss, env, tr, k),
        (ss, env, tr, k: nat) => ExecBlock(w.o, g, ss, env, tr, k),
        (f, env, tr, k: nat) => RunDefers(w.o, g, f, env, tr, k),
        (e, k) => OkExpr(e, k),
        (st, k) => OkStmt(st, k),
        (ss, k) => OkStmts(ss, k),
        (ss, k) => OkBlock(ss, k),
        (f, k: Chk) => k.inDefer && OkFrame(f, k),
        (fs, m, c) => OkUnwind(fs, m, c))
  }

  lemma GenuineSite(w: World, g: Sigs, s: Out)
    ensures Genuine(SiteOf(w, g, s))
  {}

  lemma GenuineSts(w: World, g: Sigs, s: Out)
    ensures var t := StsOf(w, g); GenuineOut(t) && GenuineRun(SiteOf(w, g, s), t) && GenuineOk(t)
  {}

  lemma SoundSite(o: Oracle, args: seq<nat>, f: Func, g: Sigs, lbl: nat)
    ensures var s := CFunc(f, g, lbl);
            Sound(SiteOf(World(o, args, TextOf(s)), g, s)) && Fits(SiteOf(World(o, args, TextOf(s)), g, s), s)
  {
    WellLaidOut(f, g, lbl);
    var s := CFunc(f, g, lbl);
    assert TextOf(s)[1 + |s.head|..] == s.body;
  }

  // --- the prologue -------------------------------------------------------------------------------

  /** The allocas: every slot exists, at its type. */
  lemma {:induction false} AllocasRun(Z: Site, i: nat) returns (mem: map<nat, Cell>)
    requires Sound(Z) && OneSlotEach(Z.H) && Z.base == 1 + |Z.H| && Z.w.text[1..Z.base] == Z.H && i <= |Z.H|
    ensures Steps(Z.f.step, Cfg(1, map[], map[], []), i) == Run(Cfg(1 + i, map[], mem, []))
    ensures MemHas(Z.H[..i], mem)
    decreases i
  {
    mem := map[];
    if i > 0 {
      var m := AllocasRun(Z, i - 1);
      var x, c := Z.H[i - 1], Cfg(i, map[], m, []);
      assert x == Z.w.text[1..Z.base][i - 1] == Z.w.text[i];
      Snoc(Z.f.step, Cfg(1, map[], map[], []), i - 1, c);
      assert Z.f.step(c) == Step(Z.w, c);
      mem := m[x.slot := Cell(x.w, None)];
      MemMore(Z.H, i, m, x, mem);
    }
  }

  lemma MemMore(H: seq<Line>, i: nat, m: map<nat, Cell>, x: Line, mem: map<nat, Cell>)
    requires OneSlotEach(H) && 0 < i <= |H| && x == H[i - 1] && MemHas(H[..i - 1], m) && x.Alloca?
             && mem == m[x.slot := Cell(x.w, None)]
    ensures MemHas(H[..i], mem)
  {
    forall slot, w | Alloca(slot, w) in H[..i] ensures slot in mem && mem[slot].w == w {
      var j :| 0 <= j < i && H[..i][j] == Alloca(slot, w);
      if j < i - 1 { assert H[..i - 1][j] == Alloca(slot, w); }
    }
  }

  /** The values of the first parameters. */
  function EnvAt(params: seq<Source.Param>, args: seq<nat>, i: nat): Env
    requires |args| == |params| && i <= |params|
  {
    Bind(params[..i], args[..i])
  }

  lemma BoundNext(params: seq<Source.Param>, args: seq<nat>, i: nat)
    requires |args| == |params| && i < |params|
    ensures var ty := params[i].ty;
            EnvAt(params, args, i + 1) == EnvAt(params, args,
                i)[params[i].name := TV(ty, Dec(ty, Enc(Bits(ty), args[i])))]
    ensures ParamTypes(params[..i + 1]) == ParamTypes(params[..i])[params[i].name := params[i].ty]
  {
    assert params[..i + 1][..i] == params[..i] && args[..i + 1][..i] == args[..i];
  }

  predicate Distinct(params: seq<Source.Param>) {
    && (forall i :: 0 <= i < |params| ==> !params[i].ty.NilT?)
    && (forall i, j :: 0 <= i < j < |params| ==> params[i].name != params[j].name)
  }

  lemma {:induction false} NamesBound(params: seq<Source.Param>, args: seq<nat>, i: nat)
    requires |args| == |params| && i <= |params|
    ensures forall x :: x in EnvAt(params, args, i) ==> exists j :: 0 <= j < i && params[j].name == x
    decreases i
  {
    if i > 0 {
      NamesBound(params, args, i - 1);
      BoundNext(params, args, i - 1);
    }
  }

  /** At the stores of the parameters from `i` on. */
  ghost predicate Storing(Z: Site, params: seq<Source.Param>, i: nat, c: Ctx, s: Out, cfg: Cfg)
    requires i <= |params|
  {
    && |Z.w.args| == |params| && Distinct(params)
    && In(Z, c, s, EnvAt(params, Z.w.args, i), [], cfg) && TypesOf(c.locals) == ParamTypes(params[..i])
  }

  lemma {:induction false} ParamsRun(Z: Site, params: seq<Source.Param>, i: nat, c: Ctx, s: Out, cfg: Cfg)
          returns (k: nat, cfg1: Cfg)
    requires Sound(Z) && i <= |params| && Storing(Z, params, i, c, s, cfg) && Fits(Z, CParams(params, i, c, s).0)
    ensures var (s1, c1) := CParams(params, i, c, s);
            Steps(Z.f.step, cfg, k) == Run(cfg1) && Storing(Z, params, |params|, c1, s1, cfg1)
                && c1 == c.(locals := c1.locals)
    decreases |params| - i
  {
    if i == |params| {
      k, cfg1 := 0, cfg;
    } else {
      var s1, c1 := ParamOut(params, i, s), ParamCtx(params, i, c, s);
      ParamsExt(params, i + 1, c1, s1);
      FitsExt(Z, s1, CParams(params, i + 1, c1, s1).0);
      var k0, cfg0 := ParamStep(Z, params, i, c, s, cfg);
      k, cfg1 := ParamsRun(Z, params, i + 1, c1, s1, cfg0);
      StepsAdd(Z.f.step, cfg, k0, cfg0, k);
      k := k0 + k;
    }
  }

  function ParamOut(params: seq<Source.Param>, i: nat, s: Out): Out
    requires i < |params|
  {
    var slot, w := s.n + 1, Bits(params[i].ty);
    W(AllocaAt(Tmp(s), slot, w), Store(w, Target.Param(i), slot))
  }

  function ParamCtx(params: seq<Source.Param>, i: nat, c: Ctx, s: Out): Ctx
    requires i < |params|
  {
    c.(locals := c.locals[params[i].name := Local(s.n + 1, params[i].ty)])
  }

  lemma {:induction false} ParamsExt(params: seq<Source.Param>, i: nat, c: Ctx, s: Out)
    requires i <= |params|
    ensures Ext(s, CParams(params, i, c, s).0)
    decreases |params| - i
  {
    if i < |params| { ParamsExt(params, i + 1, ParamCtx(params, i, c, s), ParamOut(params, i, s)); }
  }

  lemma ParamStep(Z: Site, params: seq<Source.Param>, i: nat, c: Ctx, s: Out, cfg: Cfg) returns (k: nat, cfg1: Cfg)
    requires Sound(Z) && i < |params| && Storing(Z, params, i, c, s, cfg) && Fits(Z, ParamOut(params, i, s))
    ensures Steps(Z.f.step, cfg, k) == Run(cfg1)
    ensures Storing(Z, params, i + 1, ParamCtx(params, i, c, s), ParamOut(params, i, s), cfg1)
  {
    var x, ty := params[i].name, params[i].ty;
    var env := EnvAt(params, Z.w.args, i);
    NewName(params, Z.w.args, i);
    TypesNext(params, i, c, s);
    BoundNext(params, Z.w.args, i);
    var v := ParamStore(Z, i, x, ty, Bits(ty), Z.w.args[i], c, s, env, cfg);
    k, cfg1 := v.k, v.cfg;
  }

  lemma NewName(params: seq<Source.Param>, args: seq<nat>, i: nat)
    requires |args| == |params| && i < |params| && Distinct(params)
    ensures params[i].name !in EnvAt(params, args, i)
  {
    NamesBound(params, args, i);
  }

  lemma TypesNext(params: seq<Source.Param>, i: nat, c: Ctx, s: Out)
    requires i < |params| && TypesOf(c.locals) == ParamTypes(params[..i])
    ensures TypesOf(ParamCtx(params, i, c, s).locals) == ParamTypes(params[..i + 1])
  {
    assert params[..i + 1][..i] == params[..i];
    assert TypesOf(ParamCtx(params, i, c, s).locals) == TypesOf(c.locals)[params[i].name := params[i].ty];
  }

  lemma ParamStore(Z: Site, i: nat, x: string, ty: Ty, w: nat, a: nat, c: Ctx, s: Out, env: Env, cfg: Cfg)
          returns (v: Via)
    requires Sound(Z) && i < |Z.w.args| && a == Z.w.args[i] && w == Bits(ty) && !ty.NilT? && x !in c.locals
             && In(Z, c, s, env, [], cfg)
    requires Fits(Z, W(AllocaAt(Tmp(s), s.n + 1, w), Store(w, Target.Param(i), s.n + 1)))
    ensures Steps(Z.f.step, cfg, v.k) == Run(v.cfg)
    ensures In(Z, c.(locals := c.locals[x := Local(s.n + 1, ty)]),
            W(AllocaAt(Tmp(s), s.n + 1, w), Store(w, Target.Param(i), s.n + 1)),
               env[x := TV(ty, Dec(ty, Enc(w, a)))], [], v.cfg)
  {
    var s0 := AllocaAt(Tmp(s), s.n + 1, w);
    var s1 := W(s0, Store(w, Target.Param(i), s.n + 1));
    Put(Z, s0, Store(w, Target.Param(i), s.n + 1), s1);
    FitsExt(Z, s0, s1);
    SlotIn(Z, s, s.n + 1, w, s0, cfg);
    EncDec(ty, Enc(w, a));
    LocalsMore(c.locals, s.n, s0.n);
    v := DeclStore(Z, c, x, ty, Dec(ty, Enc(w, a)), s, s0, Target.Param(i), env, cfg, Here(cfg, s));
  }

  // --- the whole ------------------------------------------------------------------------------------

  /** How a scope's outcome ends the function. */
  function Ending(o: Oracle, g: Sigs, out: SO, late: nat): FO {
    match out
    case Normal(_, tr) => Finished(Ok(0), tr)
    case Leaving(op, env, tr, left) => FinishLowered(o, g, op, [[]] + left, env, tr, late)
    case Halted(h) => FHalted(h)
    case OutOfFuel(tr) => FOutOfFuel(tr)
    case Broke(_, tr) => FHalted(Undefined(tr))
    case Continued(_, tr) => FHalted(Undefined(tr))
  }

  /** What follows the body when it falls off its end. */
  function FellOff(f: Func, s: Out): Out {
    if s.terminated then s else if f.bare then W(s, RetWord(Bits(f.ret), Const(0))) else W(s, RetZero(ResLLOf(f.ret)))
  }

  lemma FellOffRun(Z: Site, f: Func, s: Out, cfg: Cfg)
    requires Sound(Z) && At(Z, s, cfg) && !s.terminated && Fits(Z, FellOff(f, s))
    ensures Answers(Z, f, cfg, Finished(Ok(0), cfg.tr), 1)
  {
    var n := Bits(f.ret);
    EncSmall(n, 0);
    if f.bare {
      Put(Z, s, RetWord(n, Const(0)), FellOff(f, s));
      RetWordRun(Z, n, Const(0), 0, cfg, Here(cfg, s));
    } else {
      Put(Z, s, RetZero(ResLLOf(f.ret)), FellOff(f, s));
      Last(Z, RetZero(ResLLOf(f.ret)), cfg, Here(cfg, s), Returned(Agg(ResFields(f.ret, 0, 0)), cfg.tr));
    }
  }

  lemma FellAgrees(Z: Site, f: Func, s: Out, cfg: Cfg, k: nat, cfg1: Cfg, late: nat)
    requires Sound(Z) && Steps(Z.f.step, cfg, k) == Run(cfg1) && At(Z, s, cfg1) && !s.terminated
             && Fits(Z, FellOff(f, s))
    ensures Agree(Z, f, cfg, Finished(Ok(0), cfg1.tr), late, k + 1)
  {
    FellOffRun(Z, f, s, cfg1);
    AgreeAfter(Z, f, cfg, k, cfg1, Finished(Ok(0), cfg1.tr), late, 1);
  }

  /** The body, from the scope of the parameters. */
  lemma BodyRun(Z: Site, t: Sts, f: Func, c: Ctx, s: Out, env: Env, cfg: Cfg, fuel: nat, late: nat) returns (k: nat)
    requires Real(Z, t) && In(Z, c, s, env, [], cfg) && c.defers == [[]] && !c.inDefer && c.fn == f
             && (f.bare ==> f.ret == ERROR_CODE)
    requires t.okBlock(f.body, KOf(c, None)) && Fits(Z, FellOff(f, t.block(f.body, c, s)))
    ensures var out := t.scope(f.body, env, [], fuel);
            Agree(Z, f, cfg, Ending(Z.w.o, Z.g, out, late), if out.OutOfFuel? then fuel else late, k)
  {
    var l, b, out := Around(None, 0, 0), t.block(f.body, c, s), t.scope(f.body, env, [], fuel);
    FitsExt(Z, b, FellOff(f, b));
    var v := SimBlock(Z, t, f.body, c, l, s, env, [], cfg, fuel);
    k := v.k;
    if out.Normal? {
      FellAgrees(Z, f, b, cfg, v.k, v.cfg, late);
      k := v.k + 1;
    } else if out.Leaving? {
      k := LastLeave(Z, t, c, s.n, cfg, out, late, v);
      AgreeAfter(Z, f, cfg, v.k, v.cfg, Ending(Z.w.o, Z.g, out, late), late, k);
      k := v.k + k;
    }
  }

  lemma LastLeave(Z: Site, t: Sts, c: Ctx, n: nat, cfg: Cfg, out: SO, late: nat, v: Via) returns (k: nat)
    requires Real(Z, t) && c.defers == [[]] && out.Leaving? && (c.fn.bare ==> c.fn.ret == ERROR_CODE)
    requires LeavePost(Z, t, c.defers, c, n, cfg, out.op, out.env, out.tr, v) && v.c.defers == c.defers + out.left
    ensures Agree(Z, c.fn, v.cfg, Ending(Z.w.o, Z.g, out, late), late, k)
  {
    UnwindEmpty(c.defers, v.m, v.c, v.u);
    assert t.unwind(c.defers, v.m, v.c, v.u) == CUnwind(c.defers, v.m, v.c, v.u);
    assert t.okUnwind(c.defers, v.m, v.c) == OkUnwind(c.defers, v.m, v.c);
    forall x
      ensures t.okUnwind(v.c.defers, LErr(x), v.c)
    {
      assert t.okUnwind(v.c.defers, LErr(x), v.c) == OkUnwind(v.c.defers, LErr(x), v.c);
    }
    k := LeaveRun(Z, t, out.op, v.m, v.c, v.u, out.env, out.tr, v.cfg, late);
  }

  /** The site of a whole function. */
  ghost predicate Whole(Z: Site, s: Out) {
    Z.H == s.head && Z.base == 1 + |Z.H| && Z.w.text == TextOf(s) && Fits(Z, s) && OneSlotEach(Z.H)
  }

  lemma Setup(Z: Site, f: Func, g: Sigs, lbl: nat) returns (k: nat, cfg: Cfg, s: Out, c: Ctx)
    requires Sound(Z) && Z.g == g && |Z.w.args| == |f.params| && OkFunc(f, g)
    requires Whole(Z, CFunc(f, g, lbl))
    ensures Steps(Z.f.step, Cfg(1, map[], map[], []), k) == Run(cfg) && In(Z, c, s, Bind(f.params, Z.w.args), [], cfg)
    ensures c.defers == [[]] && !c.inDefer && c.fn == f
            && KOf(c, None) == Chk(ParamTypes(f.params), [[]], None, g, f, false)
    ensures CFunc(f, g, lbl) == FellOff(f, CBlock(f.body, c, s))
  {
    var c0, s0 := Ctx0(f, g), Start0(lbl);
    var cfg0 := Prologue(Z, f, c0, s0);
    var r := CParams(f.params, 0, c0, s0);
    s, c := r.0, r.1;
    BodyFits(Z, f, c, s);
    k, cfg := ParamsRun(Z, f.params, 0, c0, s0, cfg0);
    StepsAdd(Z.f.step, Cfg(1, map[], map[], []), |Z.H|, cfg0, k);
    k := |Z.H| + k;
    assert f.params[..|f.params|] == f.params && Z.w.args[..|f.params|] == Z.w.args;
  }

  lemma Prologue(Z: Site, f: Func, c: Ctx, s: Out) returns (cfg: Cfg)
    requires Sound(Z) && OneSlotEach(Z.H) && Z.base == 1 + |Z.H| && Z.w.text[1..Z.base] == Z.H
             && |Z.w.args| == |f.params| && Distinct(f.params)
    requires c.locals == map[] && c.g == Z.g && s.body == [] && !s.terminated
    ensures Steps(Z.f.step, Cfg(1, map[], map[], []), |Z.H|) == Run(cfg) && Storing(Z, f.params, 0, c, s, cfg)
  {
    var mem := AllocasRun(Z, |Z.H|);
    assert Z.H[..|Z.H|] == Z.H;
    assert TypesOf(c.locals) == map[] && f.params[..0] == [] && Z.w.args[..0] == [];
    cfg := Cfg(1 + |Z.H|, map[], mem, []);
  }

  lemma BodyFits(Z: Site, f: Func, c: Ctx, s: Out)
    requires Fits(Z, FellOff(f, CBlock(f.body, c, s)))
    ensures Fits(Z, s)
  {
    FitsExt(Z, CBlock(f.body, c, s), FellOff(f, CBlock(f.body, c, s)));
    FitsExt(Z, s, CBlock(f.body, c, s));
  }

  /** The frame of the function itself registers nothing. */
  lemma {:induction false} FirstEmpty(o: Oracle, g: Sigs, left: Frames, env: Env, tr: seq<Event>, fuel: nat)
    ensures RunFrames(o, g, [[]] + left, env, tr, fuel) == RunFrames(o, g, left, env, tr, fuel)
    decreases |left|
  {
    var all := [[]] + left;
    if left == [] {
      assert all[..0] == [] && all[0] == [];
    } else {
      var k := |left| - 1;
      assert all[k + 1] == left[k] && all[..k + 1] == [[]] + left[..k];
      var out := RunDefers(o, g, left[k], env, tr, fuel);
      if out.Normal? { FirstEmpty(o, g, left[..k], out.env, out.tr, fuel); }
    }
  }

  lemma EndingIs(o: Oracle, g: Sigs, f: Func, args: seq<nat>, fuel: nat, late: nat)
    requires |args| == |f.params|
    ensures Ending(o, g, ExecBlock(o, g, f.body, Bind(f.params, args), [], fuel), late) == RunLowered(o, g, f, args,
            fuel, late)
    ensures ExecBlock(o, g, f.body, Bind(f.params, args), [], fuel).OutOfFuel?
            <==> RunFunc(o, g, f, args, fuel).FOutOfFuel?
  {
    var out := ExecBlock(o, g, f.body, Bind(f.params, args), [], fuel);
    if out.Leaving? && out.op.OkOp? && out.op.result.Some? {
      FirstEmptyAt(o, g, out, Eval(o, g, out.op.result.value, out.env, out.tr), late);
    }
    if out.Leaving? && out.op.ExitOp? { FirstEmptyAt(o, g, out, Eval(o, g, out.op.status, out.env, out.tr), late); }
    if out.Leaving? && out.op.FailOp? { FirstEmptyAt(o, g, out, Eval(o, g, out.op.error, out.env, out.tr), late); }
  }

  lemma FirstEmptyAt(o: Oracle, g: Sigs, out: SO, e: EO, late: nat)
    requires out.Leaving?
    ensures forall fails :: LateWith(o, g, e, [[]] + out.left, out.env, fails, late) == LateWith(o, g, e, out.left,
            out.env, fails, late)
  {
    if e.ERelay? { FirstEmpty(o, g, out.left, out.env, e.tr, late); }
  }

  lemma BodyMeans(Z: Site, t: Sts, f: Func, g: Sigs, args: seq<nat>, c: Ctx, s: Out, fuel: nat, late: nat)
    requires Real(Z, t) && Z.g == g && Z.w.args == args && |args| == |f.params| && OkFunc(f, g)
    requires KOf(c, None) == Chk(ParamTypes(f.params), [[]], None, g, f, false)
    ensures t.okBlock(f.body, KOf(c, None)) && t.block(f.body, c, s) == CBlock(f.body, c, s)
    ensures var out := t.scope(f.body, Bind(f.params, args), [], fuel);
            && Ending(Z.w.o, g, out, late) == RunLowered(Z.w.o, g, f, args, fuel, late)
            && (out.OutOfFuel? <==> RunFunc(Z.w.o, g, f, args, fuel).FOutOfFuel?)
  {
    var env := Bind(f.params, args);
    assert t.okBlock(f.body, KOf(c, None)) == OkBlock(f.body, KOf(c, None));
    assert t.block(f.body, c, s) == CBlock(f.body, c, s);
    assert t.scope(f.body, env, [], fuel) == ExecBlock(Z.w.o, Z.g, f.body, env, [], fuel);
    EndingIs(Z.w.o, g, f, args, fuel, late);
  }

  /** With any fuel, the machine gives the answer or halt of the function as emitted, or has run at least as
      many steps as the source, or the second run of the defers, had fuel. */
  lemma FunctionRun(o: Oracle, g: Sigs, f: Func, args: seq<nat>, lbl: nat, fuel: nat, late: nat) returns (k: nat)
    requires OkFunc(f, g) && |args| == |f.params|
    ensures var out, m := RunLowered(o, g, f, args, fuel, late), Machine(o, args, f, g, lbl, k);
            if out.FOutOfFuel? then k >= Enough(o, g, f, args, fuel, late) && m.Run? && m.c.tr == out.tr
            else m == Done(AnswerOf(f, out))
  {
    var S := CFunc(f, g, lbl);
    var w := World(o, args, TextOf(S));
    GenuineSite(w, g, S);
    GenuineSts(w, g, S);
    SoundSite(o, args, f, g, lbl);
    WellLaidOut(f, g, lbl);
    k := SiteRun(SiteOf(w, g, S), StsOf(w, g), f, g, args, lbl, fuel, late);
  }

  lemma SiteRun(Z: Site, t: Sts, f: Func, g: Sigs, args: seq<nat>, lbl: nat, fuel: nat, late: nat) returns (k: nat)
    requires Real(Z, t) && Z.g == g && Z.w.args == args && |args| == |f.params| && OkFunc(f, g)
    requires Whole(Z, CFunc(f, g, lbl))
    ensures var out := RunLowered(Z.w.o, g, f, args, fuel, late);
            Agree(Z, f, Cfg(1, map[], map[], []), out, Enough(Z.w.o, g, f, args, fuel, late), k)
  {
    var k0, cfg, s, c := Setup(Z, f, g, lbl);
    var k1 := BodyAgrees(Z, t, f, g, args, c, s, cfg, fuel, late);
    AgreeAfter(Z, f, Cfg(1, map[], map[], []), k0, cfg, RunLowered(Z.w.o, g, f, args, fuel, late),
        Enough(Z.w.o, g, f, args, fuel, late), k1);
    k := k0 + k1;
  }

  /** The fuel that ran out, if any did. */
  function Enough(o: Oracle, g: Sigs, f: Func, args: seq<nat>, fuel: nat, late: nat): nat
    requires |args| == |f.params|
  {
    if RunFunc(o, g, f, args, fuel).FOutOfFuel? then fuel else late
  }

  lemma BodyAgrees(Z: Site, t: Sts, f: Func, g: Sigs, args: seq<nat>, c: Ctx, s: Out, cfg: Cfg, fuel: nat, late: nat)
          returns (k: nat)
    requires Real(Z, t) && Z.g == g && Z.w.args == args && |args| == |f.params| && OkFunc(f, g)
    requires KOf(c, None) == Chk(ParamTypes(f.params), [[]], None, g, f, false) && !c.inDefer && c.fn == f
    requires In(Z, c, s, Bind(f.params, args), [], cfg) && Fits(Z, FellOff(f, CBlock(f.body, c, s)))
    ensures Agree(Z, f, cfg, RunLowered(Z.w.o, g, f, args, fuel, late), Enough(Z.w.o, g, f, args, fuel, late), k)
  {
    BodyMeans(Z, t, f, g, args, c, s, fuel, late);
    k := BodyRun(Z, t, f, c, s, Bind(f.params, args), cfg, fuel, late);
  }

  /** The machine's end is the end of the function as emitted. */
  lemma LoweredEnds(o: Oracle, g: Sigs, f: Func, args: seq<nat>, lbl: nat, fuel: nat, late: nat, k: nat)
    requires OkFunc(f, g) && |args| == |f.params|
    requires Machine(o, args, f, g, lbl, k).Done? && !RunLowered(o, g, f, args, fuel, late).FOutOfFuel?
    ensures Machine(o, args, f, g, lbl, k) == Done(AnswerOf(f, RunLowered(o, g, f, args, fuel, late)))
  {
    var k0 := FunctionRun(o, g, f, args, lbl, fuel, late);
    OneEnd(o, g, f, args, lbl, k, k0);
  }

  /** Every function, as emitted: the machine ends exactly when the source and any second run of its defers do,
      and then with the same answer, or halt, after the same calls. */
  lemma PreservedLowered(o: Oracle, g: Sigs, f: Func, args: seq<nat>, lbl: nat)
    requires OkFunc(f, g) && |args| == |f.params|
    ensures (exists k :: Machine(o, args, f, g, lbl, k).Done?)
       <==> (exists fuel, late :: !RunLowered(o, g, f, args, fuel, late).FOutOfFuel?)
    ensures forall k, fuel, late ::
              Machine(o, args, f, g, lbl, k).Done? && !RunLowered(o, g, f, args, fuel, late).FOutOfFuel? ==>
                Machine(o, args, f, g, lbl, k) == Done(AnswerOf(f, RunLowered(o, g, f, args, fuel, late)))
  {
    forall fuel, late | !RunLowered(o, g, f, args, fuel, late).FOutOfFuel?
      ensures exists k :: Machine(o, args, f, g, lbl, k).Done?
      ensures forall k :: Machine(o, args, f, g, lbl, k).Done? ==>
                Machine(o, args, f, g, lbl, k) == Done(AnswerOf(f, RunLowered(o, g, f, args, fuel, late)))
    {
      var k0 := FunctionRun(o, g, f, args, lbl, fuel, late);
      assert Machine(o, args, f, g, lbl, k0).Done?;
      forall k | Machine(o, args, f, g, lbl, k).Done?
        ensures Machine(o, args, f, g, lbl, k) == Done(AnswerOf(f, RunLowered(o, g, f, args, fuel, late)))
      {
        LoweredEnds(o, g, f, args, lbl, fuel, late, k);
      }
    }
    forall k | Machine(o, args, f, g, lbl, k).Done?
      ensures !RunLowered(o, g, f, args, k, k).FOutOfFuel?
    {
      var k1 := FunctionRun(o, g, f, args, lbl, k, k);
      if RunLowered(o, g, f, args, k, k).FOutOfFuel? { OneEnd(o, g, f, args, lbl, k, k1); }
    }
  }

  /** Where no leave's operand relays past an open defer, the emitted function is the source function: the
      machine ends exactly when the source does, and then with the same answer, or halt, after the same calls. */
  lemma Preserved(o: Oracle, g: Sigs, f: Func, args: seq<nat>, lbl: nat)
    requires OkFunc(f, g) && Prompt(f) && |args| == |f.params|
    ensures (exists k :: Machine(o, args, f, g, lbl, k).Done?)
            <==> (exists fuel :: !RunFunc(o, g, f, args, fuel).FOutOfFuel?)
    ensures forall k, fuel :: Machine(o, args, f, g, lbl, k).Done? && !RunFunc(o, g, f, args, fuel).FOutOfFuel? ==>
              Machine(o, args, f, g, lbl, k) == Done(AnswerOf(f, RunFunc(o, g, f, args, fuel)))
  {
    forall fuel, late
      ensures RunLowered(o, g, f, args, fuel, late) == RunFunc(o, g, f, args, fuel)
    {
      PromptRuns(o, g, f, args, fuel, late);
    }
    PreservedLowered(o, g, f, args, lbl);
    forall fuel | !RunFunc(o, g, f, args, fuel).FOutOfFuel?
      ensures exists k :: Machine(o, args, f, g, lbl, k).Done?
    {
      assert !RunLowered(o, g, f, args, fuel, 0).FOutOfFuel?;
    }
    forall k, fuel | Machine(o, args, f, g, lbl, k).Done? && !RunFunc(o, g, f, args, fuel).FOutOfFuel?
      ensures Machine(o, args, f, g, lbl, k) == Done(AnswerOf(f, RunFunc(o, g, f, args, fuel)))
    {
      LoweredEnds(o, g, f, args, lbl, fuel, 0, k);
    }
  }

  /** The function's operand relays, and the defers of the scopes it left do not run to their end in silence
      once more. */
  ghost predicate Doubled(o: Oracle, g: Sigs, out: SO) {
    out.Leaving? && Operand(out.op).Some? &&
    var e := Eval(o, g, Operand(out.op).value, out.env, out.tr);
    e.ERelay? && !exists late :: Idle(RunFrames(o, g, out.left, out.env, e.tr, late), e.tr)
  }

  predicate Idle(ran: SO, tr: seq<Event>) {
    ran.Normal? && ran.tr == tr
  }

  /** The emitted function gives the source's answer if and only if no relay in a leave's operand doubles its
      defers: either the operand does not relay, or the second run of the defers ends normally and calls
      nothing. */
  lemma AgreesExactly(o: Oracle, g: Sigs, f: Func, args: seq<nat>, lbl: nat, fuel: nat)
    requires OkFunc(f, g) && |args| == |f.params| && !RunFunc(o, g, f, args, fuel).FOutOfFuel?
    ensures (exists k :: Machine(o, args, f, g, lbl, k) == Done(AnswerOf(f, RunFunc(o, g, f, args, fuel))))
       <==> !Doubled(o, g, ExecBlock(o, g, f.body, Bind(f.params, args), [], fuel))
  {
    var out, said := ExecBlock(o, g, f.body, Bind(f.params, args), [], fuel), RunFunc(o, g, f, args, fuel);
    if k: nat :| Machine(o, args, f, g, lbl, k) == Done(AnswerOf(f, said)) {
      SameOnce(o, g, f, args, lbl, fuel, k);
    }
    if !Doubled(o, g, out) {
      var late := LateIs(o, g, f, args, fuel);
      var k := FunctionRun(o, g, f, args, lbl, fuel, late);
    }
  }

  lemma SameOnce(o: Oracle, g: Sigs, f: Func, args: seq<nat>, lbl: nat, fuel: nat, k: nat)
    requires OkFunc(f, g) && |args| == |f.params| && !RunFunc(o, g, f, args, fuel).FOutOfFuel?
    requires Machine(o, args, f, g, lbl, k) == Done(AnswerOf(f, RunFunc(o, g, f, args, fuel)))
    ensures !Doubled(o, g, ExecBlock(o, g, f.body, Bind(f.params, args), [], fuel))
  {
    SameLate(o, g, f, args, lbl, fuel, k + 1, k);
    LateIdle(o, g, f, args, fuel, k + 1);
  }

  /** An answer the machine gives is that of the function as emitted, with fuel enough for the second run. */
  lemma SameLate(o: Oracle, g: Sigs, f: Func, args: seq<nat>, lbl: nat, fuel: nat, late: nat, k: nat)
    requires OkFunc(f, g) && |args| == |f.params| && !RunFunc(o, g, f, args, fuel).FOutOfFuel? && late > k
    requires Machine(o, args, f, g, lbl, k) == Done(AnswerOf(f, RunFunc(o, g, f, args, fuel)))
    ensures var a, b := RunFunc(o, g, f, args, fuel), RunLowered(o, g, f, args, fuel, late);
            !b.FOutOfFuel? && (a.Finished? <==> b.Finished?) && (a.Finished? ==> a.tr == b.tr)
  {
    var k1 := FunctionRun(o, g, f, args, lbl, fuel, late);
    OneEnd(o, g, f, args, lbl, k, k1);
    SameAnswer(f, RunFunc(o, g, f, args, fuel), RunLowered(o, g, f, args, fuel, late));
  }

  lemma SameAnswer(f: Func, a: FO, b: FO)
    requires !a.FOutOfFuel? && !b.FOutOfFuel? && AnswerOf(f, a) == AnswerOf(f, b)
    ensures a.Finished? <==> b.Finished?
    ensures a.Finished? ==> a.tr == b.tr
  {}

  /** An answer the source gives too comes from a second run that called nothing. */
  lemma LateIdle(o: Oracle, g: Sigs, f: Func, args: seq<nat>, fuel: nat, late: nat)
    requires |args| == |f.params|
    requires var a, b := RunFunc(o, g, f, args, fuel), RunLowered(o, g, f, args, fuel, late);
             !a.FOutOfFuel? && !b.FOutOfFuel? && (a.Finished? <==> b.Finished?) && (a.Finished? ==> a.tr == b.tr)
    ensures !Doubled(o, g, ExecBlock(o, g, f.body, Bind(f.params, args), [], fuel))
  {
    var out := ExecBlock(o, g, f.body, Bind(f.params, args), [], fuel);
    if out.Leaving? && Operand(out.op).Some? {
      var e := Eval(o, g, Operand(out.op).value, out.env, out.tr);
      if e.ERelay? { assert Idle(RunFrames(o, g, out.left, out.env, e.tr, late), e.tr); }
    }
  }

  lemma LateIs(o: Oracle, g: Sigs, f: Func, args: seq<nat>, fuel: nat) returns (late: nat)
    requires |args| == |f.params| && !Doubled(o, g, ExecBlock(o, g, f.body, Bind(f.params, args), [], fuel))
    ensures RunLowered(o, g, f, args, fuel, late) == RunFunc(o, g, f, args, fuel)
  {
    late := 0;
    var out := ExecBlock(o, g, f.body, Bind(f.params, args), [], fuel);
    if out.Leaving? && Operand(out.op).Some? {
      var e := Eval(o, g, Operand(out.op).value, out.env, out.tr);
      if e.ERelay? { late :| Idle(RunFrames(o, g, out.left, out.env, e.tr, late), e.tr); }
    }
  }

  /** A machine that has ended stays ended. */
  lemma OneEnd(o: Oracle, g: Sigs, f: Func, args: seq<nat>, lbl: nat, k: nat, k1: nat)
    requires Machine(o, args, f, g, lbl, k).Done? && (k <= k1 || Machine(o, args, f, g, lbl, k1).Done?)
    ensures Machine(o, args, f, g, lbl, k1) == Machine(o, args, f, g, lbl, k)
  {
    var W := World(o, args, TextOf(CFunc(f, g, lbl)));
    var c := Cfg(1, map[], map[], []);
    if k <= k1 { DoneStays(Stepper(W), c, k, k1); } else { DoneStays(Stepper(W), c, k1, k); }
  }
}
