/** A whole function: parameters, body and return, run from its entry. */
module SimFunc {
  import opened Words
  import opened Source
  import opened Target
  import opened Lowering
  import opened Checked
  import opened SimBase
  import opened SimExpr
  import opened SimFlow
  import opened SimStmt

  /** A function's answer in the target: a bare word, or the Result that holds a value and an error code. */
  function Answer(f: Func, ret: Ret, tr: seq<Event>): Final {
    var n := Bits(f.ret);
    Returned(match ret
             case Ok(v) => if f.bare then Word(n, Enc(n, v)) else Agg(ResFields(f.ret, v, 0))
             case Err(code) => if f.bare then Word(n, Enc(n, code)) else Agg(ResFields(f.ret, 0, code)),
             tr)
  }

  function AnswerOf(f: Func, out: FO): Final
    requires !out.FOutOfFuel?
  {
    match out
    case Finished(ret, tr) => Answer(f, ret, tr)
    case FHalted(h) => Ended(h)
  }

  // --- returning ------------------------------------------------------------------------

  lemma {:induction false} UnwindEmpty(frames: seq<seq<seq<Stmt>>>, m: Leave, c: Ctx, s: Out)
    requires !c.inDefer && AllEmpty(frames)
    ensures CUnwind(frames, m, c, s) == CLeave(m, c, s)
  {
    if frames != [] {
      var k := |frames| - 1;
      assert frames[k] == [];
      assert CDefers([], c.(inDefer := true), s) == s;
      UnwindEmpty(frames[..k], m, c, s);
    }
  }

  /** The run ends with the function's answer. */
  ghost predicate Answers(Z: Site, f: Func, cfg: Cfg, out: FO, k: nat) {
    !out.FOutOfFuel? && Steps(Z.f.step, cfg, k) == Done(AnswerOf(f, out))
  }

  /** Where the run is after `k` steps, against what the source says. */
  ghost predicate Agree(Z: Site, f: Func, cfg: Cfg, out: FO, fuel: nat, k: nat) {
    if out.FOutOfFuel? then Going(Z, cfg, k, out.tr, fuel) else Answers(Z, f, cfg, out, k)
  }

  lemma AgreeAfter(Z: Site, f: Func, cfg: Cfg, k0: nat, cfg0: Cfg, out: FO, fuel: nat, k: nat)
    requires Steps(Z.f.step, cfg, k0) == Run(cfg0) && Agree(Z, f, cfg0, out, fuel, k)
    ensures Agree(Z, f, cfg, out, fuel, k0 + k)
  {
    StepsAdd(Z.f.step, cfg, k0, cfg0, k);
  }

  lemma RetWordRun(Z: Site, w: nat, x: Opd, v: nat, cfg: Cfg, q: Got)
    requires Sound(Z) && Steps(Z.f.step, cfg, q.k) == Run(q.cfg) && Has(Z, q.cfg.pc, RetWord(w, x))
             && Read(Z.w, q.cfg, w, x) == Some(v)
    ensures Steps(Z.f.step, cfg, q.k + 1) == Done(Returned(Word(w, v), q.cfg.tr))
  {
    Last(Z, RetWord(w, x), cfg, q, Returned(Word(w, v), q.cfg.tr));
  }

  lemma RetAggRun(Z: Site, x: Opd, fs: map<nat, nat>, cfg: Cfg, q: Got)
    requires Sound(Z) && Steps(Z.f.step, cfg, q.k) == Run(q.cfg) && Has(Z, q.cfg.pc, RetAgg(x))
             && ReadAgg(q.cfg, x) == Some(fs)
    ensures Steps(Z.f.step, cfg, q.k + 1) == Done(Returned(Agg(fs), q.cfg.tr))
  {
    Last(Z, RetAgg(x), cfg, q, Returned(Agg(fs), q.cfg.tr));
  }

  lemma RetPairLines(Z: Site, v: Opd, code: Opd, ty: Ty, s: Out)
    requires Fits(Z, RetPair(v, code, ty, s))
    ensures var p, a := Pos(Z, s), s.n + 1;
            && Has(Z, p, Insert(a, None, Bits(ty), v, 0)) && Has(Z, p + 1, Insert(a + 1, Some(Reg(a)), 32, code, 1))
            && Has(Z, p + 2, RetAgg(Reg(a + 1)))
  {
    var r := RetPair(v, code, ty, s);
    Place(Z, r, |s.body|); Place(Z, r, |s.body| + 1); Place(Z, r, |s.body| + 2);
  }

  lemma RetPairRun(Z: Site, v: Opd, code: Opd, ty: Ty, a: nat, b: nat, s: Out, cfg: Cfg, q: Got)
    requires Sound(Z) && Ran(Z, s.n, cfg, q) && At(Z, s, q.cfg) && Fits(Z, RetPair(v, code, ty, s)) && Bound(code, s.n)
    requires Read(Z.w, q.cfg, Bits(ty), v) == Some(a) && Read(Z.w, q.cfg, 32, code) == Some(b)
    ensures Steps(Z.f.step, cfg, q.k + 3) == Done(Returned(Agg(map[0 := a, 1 := b]), q.cfg.tr))
  {
    RetPairLines(Z, v, code, ty, s);
    var r := s.n + 1;
    InsertStep(Z, s.n, r, None, Bits(ty), v, a, 0, map[], cfg, q);
    var q1 := On(q, SetReg(q.cfg, r, Agg(map[0 := a])));
    assert map[][0 := a] == map[0 := a];
    assert Read(Z.w, q1.cfg, 32, code) == Some(b);
    InsertStep(Z, s.n, r + 1, Some(Reg(r)), 32, code, b, 1, map[0 := a], cfg, q1);
    var q2 := On(q1, SetReg(q1.cfg, r + 1, Agg(map[0 := a][1 := b])));
    RetAggRun(Z, Reg(r + 1), map[0 := a, 1 := b], cfg, q2);
  }

  lemma RetLoneLines(Z: Site, code: Opd, s: Out)
    requires Fits(Z, End(Ins1(s, Insert(s.n + 1, None, 32, code, 0)), RetAgg(Reg(s.n + 1))))
    ensures Has(Z, Pos(Z, s), Insert(s.n + 1, None, 32, code, 0)) && Has(Z, Pos(Z, s) + 1, RetAgg(Reg(s.n + 1)))
  {
    var r := End(Ins1(s, Insert(s.n + 1, None, 32, code, 0)), RetAgg(Reg(s.n + 1)));
    Place(Z, r, |s.body|); Place(Z, r, |s.body| + 1);
  }

  lemma RetLoneRun(Z: Site, x: Opd, code: nat, s: Out, cfg: Cfg, q: Got)
    requires Sound(Z) && Ran(Z, s.n, cfg, q) && At(Z, s, q.cfg) && Read(Z.w, q.cfg, 32, x) == Some(code)
    requires Fits(Z, End(Ins1(s, Insert(s.n + 1, None, 32, x, 0)), RetAgg(Reg(s.n + 1))))
    ensures Steps(Z.f.step, cfg, q.k + 2) == Done(Returned(Agg(map[0 := code]), q.cfg.tr))
  {
    RetLoneLines(Z, x, s);
    InsertStep(Z, s.n, s.n + 1, None, 32, x, code, 0, map[], cfg, q);
    assert map[][0 := code] == map[0 := code];
    RetAggRun(Z, Reg(s.n + 1), map[0 := code], cfg, On(q, SetReg(q.cfg, s.n + 1, Agg(map[0 := code]))));
  }

  /** A returned error. */
  lemma RetErrRun(Z: Site, x: Opd, code: nat, c: Ctx, s: Out, cfg: Cfg, q: Got) returns (k: nat)
    requires Sound(Z) && Ran(Z, s.n, cfg, q) && At(Z, s, q.cfg) && Fits(Z, RetErr(x, c, s)) && Bound(x, s.n)
    requires Read(Z.w, q.cfg, 32, x) == Some(code) && code < Pow2(32) && (c.fn.bare ==> c.fn.ret == ERROR_CODE)
    ensures Answers(Z, c.fn, cfg, Finished(Err(code), q.cfg.tr), k)
  {
    EncSmall(32, code);
    if c.fn.bare {
      k := q.k + 1;
      Put(Z, s, RetWord(Bits(c.fn.ret), x), RetErr(x, c, s));
      RetWordRun(Z, 32, x, code, cfg, q);
    } else if c.fn.ret.NilT? {
      k := q.k + 2;
      RetLoneRun(Z, x, code, s, cfg, q);
    } else {
      k := q.k + 3;
      RetPairRun(Z, Const(0), x, c.fn.ret, Enc(Bits(c.fn.ret), 0), code, s, cfg, q);
    }
  }

  /** A returned value. */
  lemma RetOkRun(Z: Site, x: Opd, ty: Ty, v: int, c: Ctx, s: Out, cfg: Cfg, q: Got) returns (k: nat)
    requires Sound(Z) && Ran(Z, s.n, cfg, q) && At(Z, s, q.cfg) && ty == c.fn.ret && Holds(Z.w, q.cfg, x, S(ty, v))
    requires if c.fn.bare then Has(Z, Pos(Z, s), RetWord(Bits(ty), x))
             else if ty.NilT? then Has(Z, Pos(Z, s), RetLone) else Fits(Z, RetPair(x, Const(0), ty, s))
    ensures Answers(Z, c.fn, cfg, Finished(Ok(v), q.cfg.tr), k)
  {
    k := q.k + 1;
    if c.fn.bare {
      RetWordRun(Z, Bits(ty), x, Enc(Bits(ty), v), cfg, q);
    } else if ty.NilT? {
      Last(Z, RetLone, cfg, q, Returned(Agg(map[0 := 0]), q.cfg.tr));
    } else {
      k := q.k + 3;
      EncSmall(32, 0);
      RetPairRun(Z, x, Const(0), ty, Enc(Bits(ty), v), 0, s, cfg, q);
    }
  }

  // --- the second run of the defers -----------------------------------------------------------

  lemma UnwindAll(t: Sts, frames: Frames, m: Leave, c: Ctx, s: Out)
    requires GenuineOut(t) && !c.inDefer
    ensures frames == [] ==> t.unwind(frames, m, c, s) == CLeave(m, c, s)
    ensures frames != [] ==>
              var k := |frames| - 1; frames == frames[..k] + [frames[k]]
  {
    assert t.unwind(frames, m, c, s) == CUnwind(frames, m, c, s);
  }

  lemma FramesEq(Z: Site, t: Sts, frames: Frames, env: Env, tr: seq<Event>, fuel: nat)
    requires GenuineRun(Z, t) && frames != []
    ensures var k := |frames| - 1; var out := t.run(frames[k], env, tr, fuel);
            RunFrames(Z.w.o, Z.g, frames, env, tr, fuel) ==
            if out.Normal? then RunFrames(Z.w.o, Z.g, frames[..k], out.env, out.tr, fuel) else out
  {
    assert t.run(frames[|frames| - 1], env, tr, fuel) == RunDefers(Z.w.o, Z.g, frames[|frames| - 1], env, tr, fuel);
  }

  /** The lines of an unwinding run the defers of every frame, and come to the return; or they halt, or run for ever. */
  ghost predicate FramesPost(Z: Site, m: Leave, c: Ctx, n: nat, cfg: Cfg, out: SO, fuel: nat, v: Via) {
    match out
    case Normal(env, tr) => Went(Z, n, cfg, v.k, v.cfg) && In(Z, c, v.u, env, tr, v.cfg) && n <= v.u.n
        && Fits(Z, CLeave(m, c, v.u))
    case Halted(h) => Steps(Z.f.step, cfg, v.k) == Done(Ended(h))
    case OutOfFuel(tr1) => Going(Z, cfg, v.k, tr1, fuel)
    case _ => false
  }

  lemma {:induction false} SimFrames(Z: Site, t: Sts, frames: Frames, m: Leave, c: Ctx, s: Out, env: Env,
          tr: seq<Event>, cfg: Cfg, fuel: nat) returns (v: Via)
    requires Real(Z, t) && In(Z, c, s, env, tr, cfg) && !c.inDefer && t.okUnwind(frames, m, c)
             && Fits(Z, t.unwind(frames, m, c, s))
    ensures FramesPost(Z, m, c, s.n, cfg, RunFrames(Z.w.o, Z.g, frames, env, tr, fuel), fuel, v)
    decreases |frames|
  {
    UnwindAll(t, frames, m, c, s);
    if frames == [] {
      v := Via(0, cfg, s, c, m);
    } else {
      var k := |frames| - 1;
      var fs, d, cu := frames[..k], frames[k], c.(inDefer := true);
      var u1 := t.defers(d, cu, s);
      UnwindEq(t, fs, d, m, c, s);
      FramesOk(t, fs, d, m, c);
      FitsExt(Z, u1, t.unwind(frames, m, c, s));
      FramesEq(Z, t, frames, env, tr, fuel);
      v := OneFrame(Z, t, d, c, s, env, tr, cfg, fuel);
      var ran := t.run(d, env, tr, fuel);
      if ran.Normal? {
        var w := SimFrames(Z, t, fs, m, c, u1, ran.env, ran.tr, v.cfg, fuel);
        FramesAfter(Z, m, c, s.n, cfg, v.k, v.cfg, u1.n, RunFrames(Z.w.o, Z.g, fs, ran.env, ran.tr, fuel), fuel, w);
        v := w.(k := v.k + w.k);
      }
    }
  }

  /** After one frame's defers: at output `s1` in the scope of the exit; or they halt, or run for ever. */
  ghost predicate FramePost(Z: Site, c: Ctx, n: nat, s1: Out, cfg: Cfg, out: SO, fuel: nat, v: Via) {
    match out
    case Normal(env, tr) => Went(Z, n, cfg, v.k, v.cfg) && In(Z, c, s1, env, tr, v.cfg) && n <= s1.n
    case Halted(h) => Steps(Z.f.step, cfg, v.k) == Done(Ended(h))
    case OutOfFuel(tr1) => Going(Z, cfg, v.k, tr1, fuel)
    case _ => false
  }

  /** One frame's defers, from the scope of the exit. */
  lemma OneFrame(Z: Site, t: Sts, d: seq<seq<Stmt>>, c: Ctx, s: Out, env: Env, tr: seq<Event>, cfg: Cfg, fuel: nat)
          returns (v: Via)
    requires Real(Z, t) && In(Z, c, s, env, tr, cfg) && t.okFrame(d, InDefer(KOf(c, None)))
             && Fits(Z, t.defers(d, c.(inDefer := true), s))
    ensures FramePost(Z, c, s.n, t.defers(d, c.(inDefer := true), s), cfg, t.run(d, env, tr, fuel), fuel, v)
  {
    var cu := c.(inDefer := true);
    assert KOf(cu, None) == InDefer(KOf(c, None));
    assert In(Z, cu, s, env, tr, cfg);
    DefersEq(t, d, cu, s);
    v := SimDefers(Z, t, d, cu, s, env, tr, cfg, fuel);
  }

  lemma FramesAfter(Z: Site, m: Leave, c: Ctx, n: nat, cfg: Cfg, k: nat, cfg1: Cfg, n1: nat, out: SO, fuel: nat, v: Via)
    requires Went(Z, n, cfg, k, cfg1) && n <= n1 && FramesPost(Z, m, c, n1, cfg1, out, fuel, v)
    ensures FramesPost(Z, m, c, n, cfg, out, fuel, v.(k := k + v.k))
  {
    match out {
      case Normal(_, _) => WentAfter(Z, n, cfg, k, cfg1, n1, v.k, v.cfg);
      case _ => StepsAdd(Z.f.step, cfg, k, cfg1, v.k);
    }
  }

  // --- the operand of a leaving statement ---------------------------------------------------

  ghost predicate OperandPost(Z: Site, e: Expr, ty: Ty, c: Ctx, s: Out, env: Env, tr: seq<Event>, cfg: Cfg, fuel: nat,
          q: Got) {
    var (s1, x) := Z.f.emit(e, c, s);
    OperandEnd(Z, ty, c, s.n, s1, x, env, cfg, Z.f.eval(e, env, tr), fuel, q)
  }

  /** Where an operand with outcome `out` has led: to its value, or to the end of the function. */
  ghost predicate OperandEnd(Z: Site, ty: Ty, c: Ctx, n: nat, s1: Out, x: Opd, env: Env, cfg: Cfg, out: EO, fuel: nat,
          q: Got) {
    match out
    case EV(v, tr1) =>
      && Ran(Z, n, cfg, q) && At(Z, s1, q.cfg) && q.cfg.tr == tr1 && Holds(Z.w, q.cfg, x, v) && TyIs(v, Sc(ty))
    case ERelay(code, tr1) => Agree(Z, c.fn, cfg, Relayed(RunFrames(Z.w.o, Z.g, c.defers, env, tr1, fuel), code), fuel,
        q.k)
    case EHalt(h) => Steps(Z.f.step, cfg, q.k) == Done(Ended(h))
  }

  ghost predicate Whole(Z: Site, t: Sts, c: Ctx, s: Out, env: Env, tr: seq<Event>, cfg: Cfg) {
    && Real(Z, t) && In(Z, c, s, env, tr, cfg) && !c.inDefer && (c.fn.bare ==> c.fn.ret == ERROR_CODE)
    && forall x :: t.okUnwind(c.defers, LErr(x), c)
  }

  lemma OperandRun(Z: Site, t: Sts, e: Expr, ty: Ty, c: Ctx, s: Out, env: Env, tr: seq<Event>, cfg: Cfg, fuel: nat)
          returns (q: Got)
    requires Whole(Z, t, c, s, env, tr, cfg) && OkOperand(e, ty, KOf(c, None)) && Fits(Z, Z.f.emit(e, c, s).0)
    ensures OperandPost(Z, e, ty, c, s, env, tr, cfg, fuel, q)
  {
    OperandTyped(Z, e, ty, c);
    var Z1 := Relaying(Z, c);
    RelayingIs(Z, c);
    EmitFacts(Z, e, c, s);
    assert Fits(Z1, Z.f.emit(e, c, s).0);
    q := SimExpr.SimExpr(Z1, e, c, s, env, tr, cfg);
    var out := Z.f.eval(e, env, tr);
    if out.ERelay? {
      assert FitsNow(Z, CUnwind(c.defers, LErr(Reg(q.r)), c, q.u));
      q := OperandLate(Z, t, c, s, env, tr, cfg, fuel, out.code, out.tr, q);
    }
  }

  /** The operand relays. */
  lemma OperandLate(Z: Site, t: Sts, c: Ctx, s: Out, env: Env, tr: seq<Event>, cfg: Cfg, fuel: nat, code: nat,
          tr1: seq<Event>, q0: Got) returns (q: Got)
    requires Whole(Z, t, c, s, env, tr, cfg) && FitsNow(Z, CUnwind(c.defers, LErr(Reg(q0.r)), c, q0.u))
    requires Ran(Z, s.n, cfg, q0) && s.n <= q0.u.n && !q0.u.terminated && At(Z, q0.u, q0.cfg) && q0.cfg.tr == tr1
    requires q0.r <= q0.u.n && code < Pow2(32) && q0.r in q0.cfg.regs && q0.cfg.regs[q0.r] == Word(32, code)
    ensures Agree(Z, c.fn, cfg, Relayed(RunFrames(Z.w.o, Z.g, c.defers, env, tr1, fuel), code), fuel, q.k)
  {
    KeepIn(Z, c, s, env, tr, cfg, q0.u, tr1, q0.cfg);
    var k := LateRun(Z, t, c, q0.u, env, tr1, q0.cfg, fuel, code, q0.r);
    AgreeAfter(Z, c.fn, cfg, q0.k, q0.cfg, Relayed(RunFrames(Z.w.o, Z.g, c.defers, env, tr1, fuel), code), fuel, k);
    q := q0.(k := q0.k + k);
  }

  /** From a relayed error in the operand: every open frame's defers again, then the return. */
  lemma LateRun(Z: Site, t: Sts, c: Ctx, s: Out, env: Env, tr: seq<Event>, cfg: Cfg, fuel: nat, code: nat, r: nat)
          returns (k: nat)
    requires Whole(Z, t, c, s, env, tr, cfg) && FitsNow(Z, CUnwind(c.defers, LErr(Reg(r)), c, s))
    requires r <= s.n && code < Pow2(32) && r in cfg.regs && cfg.regs[r] == Word(32, code)
    ensures Agree(Z, c.fn, cfg, Relayed(RunFrames(Z.w.o, Z.g, c.defers, env, tr, fuel), code), fuel, k)
  {
    var m, ran := LErr(Reg(r)), RunFrames(Z.w.o, Z.g, c.defers, env, tr, fuel);
    assert t.unwind(c.defers, m, c, s) == CUnwind(c.defers, m, c, s);
    assert t.okUnwind(c.defers, m, c);
    var v := SimFrames(Z, t, c.defers, m, c, s, env, tr, cfg, fuel);
    k := v.k;
    if ran.Normal? {
      assert CLeave(m, c, v.u) == RetErr(Reg(r), c, v.u);
      RanFrom(Z, v.cfg, Here(v.cfg, v.u));
      k := RetErrRun(Z, Reg(r), code, c, v.u, v.cfg, Here(v.cfg, v.u));
      AgreeAfter(Z, c.fn, cfg, v.k, v.cfg, Finished(Err(code), ran.tr), fuel, k);
      k := v.k + k;
    }
  }

  lemma RanFrom(Z: Site, cfg: Cfg, q: Got)
    ensures Ran(Z, q.u.n, q.cfg, Here(q.cfg, q.u))
  {}

  lemma OperandTyped(Z: Site, e: Expr, ty: Ty, c: Ctx)
    requires Genuine(Z) && !c.inDefer && OkOperand(e, ty, KOf(c, None))
    ensures Z.f.ok(e, c) && Z.f.ty(e, c) == Sc(ty)
  {
    assert Z.f.ok(e, c) == Lowers(e, c) && Z.f.ty(e, c) == XTyOf(e, c);
  }

  /** The return that follows an operand's lines. */
  function OkTail(x: Opd, c: Ctx, s: Out): Out {
    if c.fn.bare then End(s, RetWord(Bits(c.fn.ret), x)) else if c.fn.ret.NilT? then End(s, RetLone)
        else RetPair(x, Const(0), c.fn.ret, s)
  }

  lemma OkTailRun(Z: Site, x: Opd, v: int, c: Ctx, s: Out, cfg: Cfg, q: Got) returns (k: nat)
    requires Sound(Z) && Ran(Z, s.n, cfg, q) && At(Z, s, q.cfg) && Holds(Z.w, q.cfg, x, S(c.fn.ret, v))
             && Fits(Z, OkTail(x, c, s))
    ensures Answers(Z, c.fn, cfg, Finished(Ok(v), q.cfg.tr), k)
  {
    var ty := c.fn.ret;
    if c.fn.bare { Put(Z, s, RetWord(Bits(ty), x), OkTail(x, c, s)); }
    else if ty.NilT? { Put(Z, s, RetLone, OkTail(x, c, s)); }
    k := RetOkRun(Z, x, ty, v, c, s, cfg, q);
  }

  lemma ValueEq(Z: Site, e: Expr, m: Leave, c: Ctx, s: Out)
    requires Genuine(Z) && !s.terminated && (m == LOk(Some(e)) || (m == LExit(e) && c.fn.bare))
    requires !(e.NilLit? && c.fn.ret.NilT? && !c.fn.bare)
    ensures var (s1, x) := Z.f.emit(e, c, s); CLeave(m, c, s) == OkTail(x, c, s1)
  {
    EmitFacts(Z, e, c, s);
    assert Z.f.emit(e, c, s) == CExpr(e, c, s);
  }

  lemma OkTailExt(x: Opd, c: Ctx, s: Out)
    ensures Ext(s, OkTail(x, c, s))
  {}

  lemma RetErrExt(x: Opd, c: Ctx, s: Out)
    ensures Ext(s, RetErr(x, c, s))
  {}

  /** Returning an operand's value, its error, or halting in it. */
  lemma ValueRun(Z: Site, t: Sts, e: Expr, m: Leave, c: Ctx, s: Out, env: Env, tr: seq<Event>, cfg: Cfg, fuel: nat)
          returns (k: nat)
    requires Whole(Z, t, c, s, env, tr, cfg) && OkOperand(e, c.fn.ret, KOf(c, None)) && Fits(Z, CLeave(m, c, s))
    requires m == LOk(Some(e)) || (m == LExit(e) && c.fn.bare)
    requires !(e.NilLit? && c.fn.ret.NilT? && !c.fn.bare)
    ensures Agree(Z, c.fn, cfg, LateWith(Z.w.o, Z.g, Z.f.eval(e, env, tr), c.defers, env, false, fuel), fuel, k)
  {
    ValueEq(Z, e, m, c, s);
    var (s1, x) := Z.f.emit(e, c, s);
    EmitFacts(Z, e, c, s);
    OkTailExt(x, c, s1);
    FitsExt(Z, s1, OkTail(x, c, s1));
    var q := OperandRun(Z, t, e, c.fn.ret, c, s, env, tr, cfg, fuel);
    k := ValueEnd(Z, x, c, s.n, s1, env, cfg, Z.f.eval(e, env, tr), q, fuel);
  }

  lemma ValueEnd(Z: Site, x: Opd, c: Ctx, n: nat, s1: Out, env: Env, cfg: Cfg, out: EO, q: Got, fuel: nat)
          returns (k: nat)
    requires Sound(Z) && Fits(Z, OkTail(x, c, s1)) && OperandEnd(Z, c.fn.ret, c, n, s1, x, env, cfg, out, fuel, q)
    ensures Agree(Z, c.fn, cfg, LateWith(Z.w.o, Z.g, out, c.defers, env, false, fuel), fuel, k)
  {
    k := q.k;
    if out.EV? {
      var q0 := Here(q.cfg, s1);
      k := OkTailRun(Z, x, out.val.v, c, s1, q.cfg, q0);
      StepsAdd(Z.f.step, cfg, q.k, q.cfg, k);
      k := q.k + k;
    }
  }

  lemma FailEq(Z: Site, e: Expr, c: Ctx, s: Out)
    requires Genuine(Z)
    ensures var (s1, x) := Z.f.emit(e, c, s); CLeave(LFail(e), c, s) == RetErr(x, c, s1)
  {
    assert Z.f.emit(e, c, s) == CExpr(e, c, s);
  }

  lemma FailRun(Z: Site, t: Sts, e: Expr, c: Ctx, s: Out, env: Env, tr: seq<Event>, cfg: Cfg, fuel: nat)
          returns (k: nat)
    requires Whole(Z, t, c, s, env, tr, cfg) && OkOperand(e, ERROR_CODE, KOf(c, None))
             && Fits(Z, CLeave(LFail(e), c, s))
    ensures Agree(Z, c.fn, cfg, LateWith(Z.w.o, Z.g, Z.f.eval(e, env, tr), c.defers, env, true, fuel), fuel, k)
  {
    FailEq(Z, e, c, s);
    var (s1, x) := Z.f.emit(e, c, s);
    EmitFacts(Z, e, c, s);
    RetErrExt(x, c, s1);
    FitsExt(Z, s1, RetErr(x, c, s1));
    var q := OperandRun(Z, t, e, ERROR_CODE, c, s, env, tr, cfg, fuel);
    k := FailEnd(Z, x, c, s.n, s1, env, cfg, Z.f.eval(e, env, tr), q, fuel);
  }

  lemma FailEnd(Z: Site, x: Opd, c: Ctx, n: nat, s1: Out, env: Env, cfg: Cfg, out: EO, q: Got, fuel: nat)
          returns (k: nat)
    requires Sound(Z) && Fits(Z, RetErr(x, c, s1)) && OperandEnd(Z, ERROR_CODE, c, n, s1, x, env, cfg, out, fuel, q)
    requires Bound(x, s1.n) && (c.fn.bare ==> c.fn.ret == ERROR_CODE)
    ensures Agree(Z, c.fn, cfg, LateWith(Z.w.o, Z.g, out, c.defers, env, true, fuel), fuel, k)
  {
    k := q.k;
    if out.EV? {
      var q0 := Here(q.cfg, s1);
      k := RetErrRun(Z, x, Enc(32, out.val.v), c, s1, q.cfg, q0);
      StepsAdd(Z.f.step, cfg, q.k, q.cfg, k);
      k := q.k + k;
    }
  }

  /** `pass;` and a returned `nil` literal. */
  lemma PlainRun(Z: Site, m: Leave, c: Ctx, s: Out, cfg: Cfg) returns (k: nat)
    requires Sound(Z) && At(Z, s, cfg) && Fits(Z, CLeave(m, c, s)) && (c.fn.bare || c.fn.ret.NilT?)
    requires m == LOk(None) || (m == LOk(Some(NilLit)) && !c.fn.bare)
    ensures Answers(Z, c.fn, cfg, Finished(Ok(0), cfg.tr), k)
  {
    var n := Bits(c.fn.ret);
    k := 1;
    if c.fn.bare {
      Put(Z, s, RetWord(n, Const(0)), CLeave(m, c, s));
      RetWordRun(Z, n, Const(0), Enc(n, 0), cfg, Here(cfg, s));
    } else {
      Put(Z, s, RetLone, CLeave(m, c, s));
      Last(Z, RetLone, cfg, Here(cfg, s), Returned(Agg(map[0 := 0]), cfg.tr));
    }
  }

  /** The lines of a leaving statement, after the defers, return what its operand says. */
  lemma LeaveRun(Z: Site, t: Sts, op: LeaveOp, m: Leave, c: Ctx, s: Out, env: Env, tr: seq<Event>, cfg: Cfg, fuel: nat)
          returns (k: nat)
    requires Whole(Z, t, c, s, env, tr, cfg) && OkLeave(m, KOf(c, None)) && LeaveIs(op, m, cfg, s.n)
             && Fits(Z, CLeave(m, c, s))
    ensures Agree(Z, c.fn, cfg, FinishLowered(Z.w.o, Z.g, op, c.defers, env, tr, fuel), fuel, k)
  {
    match m {
      case LOk(None) => k := PlainRun(Z, m, c, s, cfg);
      case LOk(Some(e)) =>
        EvalIs(Z, e, env, tr);
        if e.NilLit? && c.fn.ret.NilT? && !c.fn.bare { k := PlainRun(Z, m, c, s, cfg); }
        else { k := ValueRun(Z, t, e, m, c, s, env, tr, cfg, fuel); }
      case LFail(e) =>
        EvalIs(Z, e, env, tr);
        k := FailRun(Z, t, e, c, s, env, tr, cfg, fuel);
      case LExit(e) =>
        EvalIs(Z, e, env, tr);
        k := ValueRun(Z, t, e, m, c, s, env, tr, cfg, fuel);
      case LErr(x) => k := RetErrRun(Z, x, op.code, c, s, cfg, Here(cfg, s));
    }
  }

  lemma EvalIs(Z: Site, e: Expr, env: Env, tr: seq<Event>)
    requires Genuine(Z)
    ensures Z.f.eval(e, env, tr) == Eval(Z.w.o, Z.g, e, env, tr)
  {
    assert Z.f.eval(e, env, tr) == Eval(Z.w.o, Z.g, e, env, tr);
  }
}
